/**
 wasm-shrink's search loop, for any predicate, mutator, random choices and callback. They are
 functions of the number of the call or step, so they may keep state, and any of them may fail.
 */
module Shrink {
  import opened Common

  type Bytes = seq<nat>

  // Magic and version: the empty core module.
  const EMPTY_WASM: Bytes := [0x00, 0x61, 0x73, 0x6d, 0x01, 0x00, 0x00, 0x00]

  datatype Verdict = Interesting | Boring | PredicateFailed

  datatype World = World(
    valid: Bytes -> bool,
    test: (nat, Bytes) -> Verdict,
    // `None` if no mutation applies; otherwise the candidates, some of which fail.
    mutate: (nat, Bytes) -> Option<seq<Option<Bytes>>>,
    acceptLarger: nat -> bool,
    report: (nat, Bytes) -> bool,
    hash: Bytes -> nat)

  /** Everything that validates has at least the eight bytes of a header. */
  ghost predicate HeaderRequired(w: World) {
    forall b :: w.valid(b) ==> |b| >= |EMPTY_WASM|
  }

  datatype Failure = InvalidInput | InputBoring | EmptyInteresting | Aborted

  datatype ShrinkInfo = ShrinkInfo(inputSize: nat, outputSize: nat, output: Bytes)

  datatype Call = Call(wasm: Bytes, verdict: Verdict)

  /** `b` passed the predicate in some call. */
  ghost predicate FoundInteresting(calls: seq<Call>, b: Bytes) {
    exists k :: 0 <= k < |calls| && calls[k] == Call(b, Interesting)
  }

  /** No two candidates of the search (all calls but the first two) share a hash. */
  ghost predicate EachHashOnce(hash: Bytes -> nat, calls: seq<Call>) {
    forall i, j :: 2 <= i < j < |calls| ==> hash(calls[i].wasm) != hash(calls[j].wasm)
  }

  ghost predicate AllRecorded(hash: Bytes -> nat, calls: seq<Call>, tested: set<nat>) {
    forall i :: 2 <= i < |calls| ==> hash(calls[i].wasm) in tested
  }

  /** Nothing that passed the predicate is smaller. */
  ghost predicate NoneSmaller(calls: seq<Call>, size: nat) {
    forall k :: 0 <= k < |calls| && calls[k].verdict.Interesting? ==> size <= |calls[k].wasm|
  }

  /** A candidate of the same hash was tested. */
  ghost predicate HashTested(hash: Bytes -> nat, calls: seq<Call>, h: nat) {
    exists k :: 2 <= k < |calls| && hash(calls[k].wasm) == h
  }

  /** Every hash that is remembered is that of a candidate that was tested. */
  ghost predicate OnlyTested(hash: Bytes -> nat, calls: seq<Call>, tested: set<nat>) {
    forall h :: h in tested ==> HashTested(hash, calls, h)
  }

  /** Each candidate failed to be made, or it, or one of its hash, was tested. */
  ghost predicate AllTried(hash: Bytes -> nat, calls: seq<Call>, candidates: seq<Option<Bytes>>) {
    forall i :: 0 <= i < |candidates| && candidates[i].Some? ==> HashTested(hash, calls, hash(candidates[i].value))
  }

  /** None of these calls was of something interesting that is smaller than `current` or accepted all the same. */
  ghost predicate Rejected(w: World, current: Bytes, calls: seq<Call>, from: nat) {
    forall k :: from <= k < |calls| && calls[k].verdict.Interesting? ==>
      |current| <= |calls[k].wasm| && !w.acceptLarger(k + 1)
  }

  /** These calls are of candidates. */
  ghost predicate OfCandidates(calls: seq<Call>, from: nat, candidates: seq<Option<Bytes>>) {
    forall k :: from <= k < |calls| ==> Some(calls[k].wasm) in candidates
  }

  /** Every call of the predicate gave a verdict. */
  ghost predicate NoneFailed(calls: seq<Call>) {
    forall k :: 0 <= k < |calls| ==> !calls[k].verdict.PredicateFailed?
  }

  /** Every report of a new best test case was accepted by the callback. */
  ghost predicate AllReported(w: World, reported: seq<Bytes>) {
    forall k: nat :: k < |reported| ==> w.report(k, reported[k])
  }

  /** The best test case after these reports. */
  function LastBest(input: Bytes, reported: seq<Bytes>): Bytes {
    if reported == [] then input else reported[|reported| - 1]
  }

  /** Each report is of something strictly smaller than the input and all reports before. */
  ghost predicate Shrinking(input: Bytes, reported: seq<Bytes>) {
    && (forall k :: 0 <= k < |reported| ==> |reported[k]| < |input|)
    && (forall i, j :: 0 <= i < j < |reported| ==> |reported[j]| < |reported[i]|)
  }

  /** One attempt fewer than allowed can reach the predicate, for each size `best` takes. */
  function Budget(attempts: nat, shrunk: nat): nat {
    (if attempts == 0 then 0 else attempts - 1) * shrunk
  }

  lemma {:induction false} BudgetGrows(attempts: nat, a: nat, b: nat)
    requires a < b
    ensures Budget(attempts, a) + Budget(attempts, 1) <= Budget(attempts, b)
    decreases b
  {
    BudgetOneMore(attempts, b - 1);
    if a < b - 1 {
      BudgetGrows(attempts, a, b - 1);
    }
  }

  lemma FoundStays(before: seq<Call>, after: seq<Call>)
    requires before <= after
    ensures forall b :: FoundInteresting(before, b) ==> FoundInteresting(after, b)
  {
    forall b | FoundInteresting(before, b)
      ensures FoundInteresting(after, b)
    {
      var k :| 0 <= k < |before| && before[k] == Call(b, Interesting);
      assert after[k] == Call(b, Interesting);
    }
  }

  lemma BudgetOneMore(attempts: nat, n: nat)
    ensures Budget(attempts, n + 1) == Budget(attempts, n) + Budget(attempts, 1)
  {
    var k := if attempts == 0 then 0 else attempts - 1;
    assert k * (n + 1) == k * n + k;
  }

  lemma NothingSpent(attempts: nat)
    ensures Budget(attempts, 0) == 0 && Budget(attempts, 1) == if attempts == 0 then 0 else attempts - 1
  {
  }

  lemma NothingReported(input: Bytes)
    ensures Shrinking(input, [])
  {
  }

  /** The first two calls are not of candidates. */
  lemma FewCalls(hash: Bytes -> nat, calls: seq<Call>, tested: set<nat>)
    requires |calls| <= 2
    ensures EachHashOnce(hash, calls) && AllRecorded(hash, calls, tested)
    ensures tested == {} ==> OnlyTested(hash, calls, tested)
  {
  }

  lemma SmallestOfTwo(calls: seq<Call>)
    requires |calls| == 2 && calls[0].verdict == Interesting
    ensures !calls[1].verdict.Interesting? ==> NoneSmaller(calls, |calls[0].wasm|)
    ensures calls[1].verdict.Interesting? && |calls[1].wasm| <= |calls[0].wasm| ==> NoneSmaller(calls, |calls[1].wasm|)
  {
  }

  // ----- what happened in each turn of the search -----

  /** What was mutated, the best so far, the attempt, the candidates looked at, and the accepted one. */
  datatype Turn = Turn(current: Bytes, best: Bytes, attempt: nat, tried: seq<Option<Bytes>>, accepted: Option<Bytes>)

  function Least(a: nat, b: nat): nat {
    if a < b then a else b
  }

  /**
   The candidates are tried in order, at most ten and no more than there are attempts left; all
   of those, or those up to the first acceptable one, which is accepted.
   */
  ghost predicate TurnOk(w: World, attempts: nat, calls: seq<Call>, n: nat, turn: Turn) {
    && turn.attempt <= attempts && AllTried(w.hash, calls, turn.tried)
    && Takes(w.mutate(n, turn.current), attempts, turn)
    && (turn.accepted.Some? ==>
          && turn.tried != [] && turn.tried[|turn.tried| - 1] == turn.accepted
          && FoundInteresting(calls, turn.accepted.value))
  }

  ghost predicate Takes(mutations: Option<seq<Option<Bytes>>>, attempts: nat, turn: Turn)
    requires turn.attempt <= attempts
  {
    match mutations
    case None => turn.tried == []
    case Some(candidates) =>
      var most := Least(|candidates|, Least(10, attempts - turn.attempt));
      turn.tried <= candidates[..most] && (turn.accepted.None? ==> turn.tried == candidates[..most])
  }

  function CurrentAfter(turn: Turn): Bytes {
    if turn.accepted.Some? then turn.accepted.value else turn.current
  }

  function BestAfter(turn: Turn): Bytes {
    if turn.accepted.Some? && |turn.accepted.value| < |turn.best| then turn.accepted.value else turn.best
  }

  /** Every candidate after the first costs an attempt; a new best gives all of them back. */
  function AttemptAfter(turn: Turn): nat {
    if BestAfter(turn) != turn.best then 0
    else turn.attempt + if turn.tried == [] then 0 else |turn.tried| - 1
  }

  /** The state before the turn with this number. */
  function Before(input: Bytes, turns: seq<Turn>): (Bytes, Bytes, nat) {
    if turns == [] then (input, input, 0)
    else
      var last := turns[|turns| - 1];
      (CurrentAfter(last), BestAfter(last), AttemptAfter(last))
  }

  /** Every turn starts where the one before it ended, and goes on while there are attempts left. */
  ghost predicate Linked(input: Bytes, attempts: nat, turns: seq<Turn>) {
    forall n :: 0 <= n < |turns| ==>
      var (current, best, attempt) := Before(input, turns[..n]);
      attempt < attempts && turns[n].current == current && turns[n].best == best && turns[n].attempt == attempt + 1
  }

  ghost predicate TurnsOk(w: World, attempts: nat, calls: seq<Call>, turns: seq<Turn>) {
    forall n: nat :: n < |turns| ==> TurnOk(w, attempts, calls, n, turns[n])
  }

  /** What was tried stays tried. */
  lemma TurnsStay(w: World, attempts: nat, before: seq<Call>, after: seq<Call>, turns: seq<Turn>)
    requires before <= after && TurnsOk(w, attempts, before, turns)
    ensures TurnsOk(w, attempts, after, turns)
  {
    FoundStays(before, after);
    HashesStay(w.hash, before, after);
    forall n: nat | n < |turns|
      ensures TurnOk(w, attempts, after, n, turns[n])
    {
      assert TurnOk(w, attempts, before, n, turns[n]);
    }
  }

  lemma HashesStay(hash: Bytes -> nat, before: seq<Call>, after: seq<Call>)
    requires before <= after
    ensures forall h :: HashTested(hash, before, h) ==> HashTested(hash, after, h)
  {
    forall h | HashTested(hash, before, h)
      ensures HashTested(hash, after, h)
    {
      var k :| 2 <= k < |before| && hash(before[k].wasm) == h;
      assert after[k] == before[k];
    }
  }

  lemma OneMoreTurn(w: World, input: Bytes, attempts: nat, calls: seq<Call>, turns: seq<Turn>, turn: Turn)
    requires TurnsOk(w, attempts, calls, turns) && TurnOk(w, attempts, calls, |turns|, turn)
    requires Linked(input, attempts, turns)
    requires var (current, best, attempt) := Before(input, turns);
             attempt < attempts && turn.current == current && turn.best == best && turn.attempt == attempt + 1
    ensures TurnsOk(w, attempts, calls, turns + [turn]) && Linked(input, attempts, turns + [turn])
    ensures Before(input, turns + [turn]) == (CurrentAfter(turn), BestAfter(turn), AttemptAfter(turn))
  {
    hide TurnOk;
    hide Before;
    var now := turns + [turn];
    forall n | 0 <= n < |now|
      ensures var (current, best, attempt) := Before(input, now[..n]);
              attempt < attempts && now[n].current == current && now[n].best == best && now[n].attempt == attempt + 1
    {
      if n < |turns| {
        assert now[..n] == turns[..n] && now[n] == turns[n];
      } else {
        assert now[..n] == turns;
      }
    }
    BeforeMore(input, turns, turn);
  }

  lemma BeforeMore(input: Bytes, turns: seq<Turn>, turn: Turn)
    ensures Before(input, turns + [turn]) == (CurrentAfter(turn), BestAfter(turn), AttemptAfter(turn))
  {
  }

  lemma NothingOffered(w: World, attempts: nat, calls: seq<Call>, n: nat, turn: Turn)
    requires turn.attempt <= attempts && turn.tried == [] && turn.accepted.None?
    requires var m := w.mutate(n, turn.current); m.None? || m.value == [] || turn.attempt == attempts
    ensures TurnOk(w, attempts, calls, n, turn)
  {
  }

  lemma BatchOk(w: World, attempts: nat, calls: seq<Call>, n: nat, turn: Turn, candidates: seq<Option<Bytes>>,
      tried: nat)
    requires turn.attempt <= attempts && w.mutate(n, turn.current).Some?
    requires var all := w.mutate(n, turn.current).value;
             candidates == all[..Least(|all|, Least(10, attempts - turn.attempt))]
    requires 0 < tried <= |candidates| && turn.tried == candidates[..tried] && AllTried(w.hash, calls, turn.tried)
    requires turn.accepted.None? ==> tried == |candidates|
    requires turn.accepted.Some? ==>
               candidates[tried - 1] == turn.accepted && FoundInteresting(calls, turn.accepted.value)
    ensures TurnOk(w, attempts, calls, n, turn)
  {
    hide AllTried;
    hide FoundInteresting;
    assert candidates[..|candidates|] == candidates;
  }

  lemma NothingTried(w: World, current: Bytes, calls: seq<Call>)
    ensures AllTried(w.hash, calls, []) && OfCandidates(calls, |calls|, []) && Rejected(w, current, calls, |calls|)
  {
  }

  lemma OneMoreTried(hash: Bytes -> nat, before: seq<Call>, after: seq<Call>, from: nat,
      candidates: seq<Option<Bytes>>, i: nat)
    requires i < |candidates| && AllTried(hash, before, candidates[..i]) && OfCandidates(before, from, candidates[..i])
    requires after == before || (candidates[i].Some? && |after| == |before| + 1 && after[..|before|] == before
                                 && after[|before|].wasm == candidates[i].value)
    requires candidates[i].Some? ==> HashTested(hash, after, hash(candidates[i].value))
    ensures AllTried(hash, after, candidates[..i + 1]) && OfCandidates(after, from, candidates[..i + 1])
  {
    hide HashTested;
    HashesStay(hash, before, after);
    var now := candidates[..i + 1];
    assert now == candidates[..i] + [candidates[i]];
    forall k | from <= k < |after|
      ensures Some(after[k].wasm) in now
    {
      if k < |before| {
        assert after[k] == before[k];
      }
    }
  }

  lemma OneMoreCall(before: seq<Call>, wasm: Bytes, v: Verdict)
    requires NoneFailed(before) && !v.PredicateFailed?
    ensures var calls := before + [Call(wasm, v)];
            NoneFailed(calls) && calls[..|calls| - 1] == before && (v.Interesting? ==> FoundInteresting(calls, wasm))
  {
    assert (before + [Call(wasm, v)])[|before|] == Call(wasm, v);
  }

  lemma LastFailed(calls: seq<Call>)
    requires calls != [] && calls[|calls| - 1].verdict.PredicateFailed?
    ensures !NoneFailed(calls)
  {
  }

  lemma OneMoreRejected(w: World, current: Bytes, before: seq<Call>, wasm: Bytes, v: Verdict, from: nat, size: nat)
    requires Rejected(w, current, before, from) && NoneSmaller(before, size) && size <= |current|
    requires v.Interesting? ==> |current| <= |wasm| && !w.acceptLarger(|before| + 1)
    ensures Rejected(w, current, before + [Call(wasm, v)], from) && NoneSmaller(before + [Call(wasm, v)], size)
  {
  }

  /** The accepted candidate is the only one that may be smaller. */
  lemma SmallerOnly(calls: seq<Call>, size: nat, accepted: Bytes)
    requires calls != [] && NoneSmaller(calls[..|calls| - 1], size) && calls[|calls| - 1].wasm == accepted
    ensures NoneSmaller(calls, if |accepted| < size then |accepted| else size)
  {
    forall k | 0 <= k < |calls| && calls[k].verdict.Interesting?
      ensures (if |accepted| < size then |accepted| else size) <= |calls[k].wasm|
    {
      assert k < |calls| - 1 ==> calls[..|calls| - 1][k] == calls[k];
    }
  }

  class ShrinkRun {
    const attempts: nat
    const allowEmpty: bool
    const input: Bytes
    var best: Bytes
    var alreadyTested: set<nat>
    var attempt: nat
    /** The predicate calls made so far. */
    var calls: seq<Call>
    /** The mutations asked for so far. */
    var steps: nat
    /** What the callback was given so far. */
    var reported: seq<Bytes>
    /** Whether every debug assertion met so far holds. */
    var assertionsHold: bool
    /** The turns of the search so far. */
    ghost var turns: seq<Turn>

    constructor (attempts: nat, allowEmpty: bool, input: Bytes)
      ensures this.attempts == attempts && this.allowEmpty == allowEmpty && this.input == input
      ensures best == input && alreadyTested == {} && attempt == 0 && calls == [] && reported == [] && assertionsHold
      ensures steps == 0 && turns == []
    {
      this.attempts, this.allowEmpty, this.input := attempts, allowEmpty, input;
      best, alreadyTested, attempt, calls, steps, reported, assertionsHold := input, {}, 0, [], 0, [], true;
      turns := [];
    }

    method OnNewBest(w: World, newBest: Bytes) returns (ok: bool)
      modifies this`best, this`attempt, this`reported, this`assertionsHold
      ensures reported == old(reported) + [newBest] && ok == w.report(|old(reported)|, newBest)
      ensures assertionsHold ==
              (old(assertionsHold) && (|newBest| < |old(best)| || (newBest == EMPTY_WASM && old(best) == EMPTY_WASM)))
      ensures if ok then best == newBest && attempt == 0 else best == old(best) && attempt == old(attempt)
    {
      assertionsHold := assertionsHold && (|newBest| < |best| || (newBest == EMPTY_WASM && best == EMPTY_WASM));
      ok := w.report(|reported|, newBest);
      reported := reported + [newBest];
      if ok {
        best := newBest;
        attempt := 0;
      }
    }

    method Test(w: World, wasm: Bytes) returns (v: Verdict)
      modifies this`calls
      ensures v == w.test(|old(calls)|, wasm) && calls == old(calls) + [Call(wasm, v)]
    {
      v := w.test(|calls|, wasm);
      calls := calls + [Call(wasm, v)];
    }

    /** What the search keeps true between attempts. */
    ghost predicate Searching(w: World, current: Bytes)
      reads this
    {
      && |calls| >= 2 && attempt <= attempts && assertionsHold
      && FoundInteresting(calls, best) && FoundInteresting(calls, current)
      && |best| <= |input| && |best| <= |current|
      && Remembering(w) && NoneFailed(calls) && Reporting(w)
    }

    /** No hash is tested twice, and those tested are remembered. */
    ghost predicate Remembering(w: World)
      reads this
    {
      && |calls| >= 2 && EachHashOnce(w.hash, calls)
      && AllRecorded(w.hash, calls, alreadyTested) && OnlyTested(w.hash, calls, alreadyTested)
    }

    /** All reports were accepted, and the best test case is the last one. */
    ghost predicate Reporting(w: World)
      reads this
    {
      AllReported(w, reported) && Shrinking(input, reported) && best == LastBest(input, reported)
    }

    /** Calls so far, against the budget for the sizes passed and the attempts at this one. */
    ghost predicate Within(spent: nat)
      reads this
      requires |best| <= |input|
    {
      |calls| <= 2 + Budget(attempts, |input| - |best|) + spent
    }

    /** Accepting a candidate as the new current test case, and as the new best if it is smaller. */
    method OnNewInteresting(w: World, current: Bytes, newInteresting: Bytes) returns (ok: bool)
      requires Searching(w, current) && Within(Budget(attempts, 1)) && FoundInteresting(calls, newInteresting)
      modifies this`best, this`attempt, this`reported, this`assertionsHold
      ensures if |newInteresting| >= |old(best)| then ok && best == old(best) && attempt == old(attempt)
              else if ok then best == newInteresting && attempt == 0
              else best == old(best) && attempt == old(attempt)
      ensures !ok ==> !AllReported(w, reported)
      ensures ok ==> Searching(w, newInteresting)
      ensures !ok ==> |newInteresting| < |old(best)| && reported == old(reported) + [newInteresting]
      ensures ok && |best| < |old(best)| ==> Within(0)
      ensures |best| <= |input| && FoundInteresting(calls, best) && assertionsHold
      ensures Shrinking(input, reported)
    {
      hide EachHashOnce;
      hide AllRecorded;
      hide OnlyTested;
      hide NoneFailed;
      hide FoundInteresting;
      hide Budget;
      ok := true;
      if |newInteresting| < |best| {
        BudgetGrows(attempts, |input| - |best|, |input| - |newInteresting|);
        ok := OnNewBest(w, newInteresting);
      }
    }

    /** A candidate is tested unless one of its hash was. */
    method TestOnce(w: World, wasm: Bytes) returns (v: Option<Verdict>)
      requires Remembering(w)
      modifies this`calls, this`alreadyTested
      ensures Remembering(w) && HashTested(w.hash, calls, w.hash(wasm))
      ensures v.None? <==> HashTested(w.hash, old(calls), w.hash(wasm))
      ensures v.None? ==> calls == old(calls)
      ensures v.Some? ==> v.value == w.test(|old(calls)|, wasm) && calls == old(calls) + [Call(wasm, v.value)]
    {
      var hash := w.hash(wasm);
      if hash in alreadyTested {
        return None;
      }
      alreadyTested := alreadyTested + {hash};
      var verdict := Test(w, wasm);
      HashesStay(w.hash, old(calls), calls);
      assert calls[|calls| - 1].wasm == wasm && HashTested(w.hash, calls, hash);
      return Some(verdict);
    }

    /**
     One batch of candidates. Every candidate after the first costs an attempt, at most one
     predicate call is made per attempt, and a hash is never tested twice. The first candidate
     that is interesting and smaller than `current`, or accepted all the same, is accepted; all
     before it, or all if there is none, were tried.
     */
    method TryCandidates(w: World, current: Bytes, candidates: seq<Option<Bytes>>)
      returns (failed: bool, accepted: Option<Bytes>, ghost tried: nat)
      requires Searching(w, current) && 0 < |candidates| <= attempts - attempt && 0 < attempt
      requires Within(attempt - 1) && NoneSmaller(calls, |best|)
      modifies this`calls, this`alreadyTested, this`attempt
      ensures 0 < attempt < attempts && old(attempt) <= attempt && Within(attempt)
      ensures failed ==> !NoneFailed(calls) && EachHashOnce(w.hash, calls) && FoundInteresting(calls, best)
      ensures !failed ==> Searching(w, current)
      ensures old(calls) <= calls && 0 < tried <= |candidates| && attempt == old(attempt) + tried - 1
      ensures AllTried(w.hash, calls, candidates[..tried]) && OfCandidates(calls, |old(calls)|, candidates[..tried])
      ensures failed ==> accepted.None?
      ensures !failed && accepted.None? ==>
                tried == |candidates| && Rejected(w, current, calls, |old(calls)|) && NoneSmaller(calls, |best|)
      ensures accepted.Some? ==>
                && FoundInteresting(calls, accepted.value) && candidates[tried - 1] == accepted && calls != []
                && Rejected(w, current, calls[..|calls| - 1], |old(calls)|) && NoneSmaller(calls[..|calls| - 1], |best|)
                && calls[|calls| - 1] == Call(accepted.value, Interesting)
                && (|accepted.value| < |current| || w.acceptLarger(|calls|))
    {
      hide Budget;
      hide EachHashOnce;
      hide AllRecorded;
      hide OnlyTested;
      hide HashTested;
      hide AllTried;
      hide OfCandidates;
      hide Rejected;
      hide NoneSmaller;
      hide NoneFailed;
      hide FoundInteresting;
      tried := 0;
      NothingTried(w, current, calls);
      for i: nat := 0 to |candidates|
        invariant Searching(w, current) && NoneSmaller(calls, |best|)
        invariant attempt == old(attempt) + (if i == 0 then 0 else i - 1)
        invariant Within(old(attempt) - 1 + i)
        invariant old(calls) <= calls && AllTried(w.hash, calls, candidates[..i])
        invariant OfCandidates(calls, |old(calls)|, candidates[..i]) && Rejected(w, current, calls, |old(calls)|)
      {
        tried := i + 1;
        if i > 0 {
          attempt := attempt + 1;
        }
        if candidates[i].None? {
          OneMoreTried(w.hash, calls, calls, |old(calls)|, candidates, i);
          continue;
        }
        var wasm := candidates[i].value;
        ghost var before := calls;
        var v := TestOnce(w, wasm);
        FoundStays(before, calls);
        OneMoreTried(w.hash, before, calls, |old(calls)|, candidates, i);
        if v.None? {
          continue;
        }
        if v.value.PredicateFailed? {
          LastFailed(calls);
          return true, None, i + 1;
        }
        OneMoreCall(before, wasm, v.value);
        if v.value.Interesting? && (|wasm| < |current| || w.acceptLarger(|calls|)) {
          return false, Some(wasm), i + 1;
        }
        OneMoreRejected(w, current, before, wasm, v.value, |old(calls)|, |best|);
      }
      assert candidates[..|candidates|] == candidates;
      return false, None, |candidates|;
    }

    /** The recorded turns lead from the input to this state. */
    ghost predicate History(w: World, current: Bytes)
      reads this
    {
      && TurnsOk(w, attempts, calls, turns) && Linked(input, attempts, turns)
      && Before(input, turns) == (current, best, attempt) && |turns| == steps && NoneSmaller(calls, |best|)
    }

    /** The turn is over: it is recorded. */
    ghost method Record(w: World, before: seq<Call>, turn: Turn, n: nat)
      requires TurnsOk(w, attempts, before, turns) && before <= calls && Linked(input, attempts, turns)
      requires |turns| == n && TurnOk(w, attempts, calls, n, turn)
      requires var (current, best, attempt) := Before(input, turns);
               attempt < attempts && turn.current == current && turn.best == best && turn.attempt == attempt + 1
      modifies this`turns
      ensures TurnsOk(w, attempts, calls, turns) && Linked(input, attempts, turns)
      ensures turns == old(turns) + [turn] && |turns| == n + 1
      ensures Before(input, turns) == (CurrentAfter(turn), BestAfter(turn), AttemptAfter(turn))
    {
      TurnsStay(w, attempts, before, calls, turns);
      OneMoreTurn(w, input, attempts, calls, turns, turn);
      turns := turns + [turn];
    }

    /** A turn in which there is nothing to try. */
    ghost method Skip(w: World, current: Bytes)
      requires 0 < attempt <= attempts && 0 < steps && |turns| == steps - 1 && NoneSmaller(calls, |best|)
      requires TurnsOk(w, attempts, calls, turns) && Linked(input, attempts, turns)
      requires Before(input, turns) == (current, best, attempt - 1)
      requires var m := w.mutate(steps - 1, current); m.None? || m.value == [] || attempt == attempts
      modifies this`turns
      ensures History(w, current)
    {
      hide TurnOk;
      hide TurnsOk;
      hide Linked;
      hide Before;
      hide NoneSmaller;
      var blank := Turn(current, best, attempt, [], None);
      NothingOffered(w, attempts, calls, |turns|, blank);
      Record(w, calls, blank, |turns|);
    }

    /** What is left to do after a batch: a candidate that was accepted becomes the current one. */
    method Conclude(w: World, current: Bytes, accepted: Option<Bytes>, ghost turn: Turn) returns (ok: bool, next: Bytes)
      requires Searching(w, current) && 0 < attempt < attempts && Within(attempt) && |turns| == steps
      requires TurnsOk(w, attempts, calls, turns) && Linked(input, attempts, turns)
      requires Before(input, turns) == (CurrentAfter(turn), BestAfter(turn), AttemptAfter(turn))
      requires turn.current == current && turn.best == best && turn.accepted == accepted
      requires attempt == turn.attempt + if turn.tried == [] then 0 else |turn.tried| - 1
      requires accepted.None? ==> NoneSmaller(calls, |best|)
      requires accepted.Some? ==>
                 && calls != [] && NoneSmaller(calls[..|calls| - 1], |best|)
                 && FoundInteresting(calls, accepted.value) && calls[|calls| - 1].wasm == accepted.value
      modifies this`best, this`attempt, this`reported, this`assertionsHold
      ensures assertionsHold && FoundInteresting(calls, best) && Shrinking(input, reported)
      ensures ok ==> Searching(w, next) && History(w, next)
      ensures !ok ==> !AllReported(w, reported)
      ensures |best| <= |input| && Within(Budget(attempts, 1))
      ensures ok && attempt < attempts ==> Within(attempt)
      ensures ok ==> |best| < |old(best)| || (|best| == |old(best)| && attempt == old(attempt))
    {
      hide Budget;
      hide EachHashOnce;
      hide AllRecorded;
      hide OnlyTested;
      hide Shrinking;
      hide AllReported;
      hide NoneFailed;
      hide FoundInteresting;
      hide LastBest;
      hide TurnOk;
      hide TurnsOk;
      hide Linked;
      hide Before;
      hide NoneSmaller;
      hide AllTried;
      hide OfCandidates;
      hide Rejected;
      NothingSpent(attempts);
      if accepted.None? {
        return true, current;
      }
      SmallerOnly(calls, |best|, accepted.value);
      ok := OnNewInteresting(w, current, accepted.value);
      next := accepted.value;
    }

    /** One turn of the main loop. */
    method Mutate(w: World, current: Bytes) returns (ok: bool, next: Bytes)
      requires Searching(w, current) && History(w, current) && attempt < attempts && Within(attempt)
      modifies this
      ensures assertionsHold && FoundInteresting(calls, best) && Shrinking(input, reported)
      ensures EachHashOnce(w.hash, calls)
      ensures ok ==> Searching(w, next) && History(w, next)
      ensures !ok ==> !NoneFailed(calls) || !AllReported(w, reported)
      ensures |best| <= |input| && Within(Budget(attempts, 1))
      ensures ok && attempt < attempts ==> Within(attempt)
      ensures ok ==> |best| < |old(best)| || (|best| == |old(best)| && attempt > old(attempt))
    {
      hide Budget;
      hide EachHashOnce;
      hide AllRecorded;
      hide OnlyTested;
      hide Shrinking;
      hide AllReported;
      hide NoneFailed;
      hide FoundInteresting;
      hide LastBest;
      hide TurnOk;
      hide TurnsOk;
      hide Linked;
      hide Before;
      hide NoneSmaller;
      hide AllTried;
      hide OfCandidates;
      hide Rejected;
      NothingSpent(attempts);
      attempt := attempt + 1;
      var mutations := w.mutate(steps, current);
      steps := steps + 1;
      var take := Least(attempts - attempt, 10);
      if mutations.None? || mutations.value == [] || take == 0 {
        Skip(w, current);
        return true, current;
      }
      var candidates := mutations.value[..Least(|mutations.value|, take)];
      ghost var turn, before := Turn(current, best, attempt, [], None), calls;
      var failed, accepted, tried := TryCandidates(w, current, candidates);
      if failed {
        return false, current;
      }
      turn := turn.(tried := candidates[..tried], accepted := accepted);
      BatchOk(w, attempts, calls, |turns|, turn, candidates, tried);
      Record(w, before, turn, |turns|);
      ok, next := Conclude(w, current, accepted, turn);
    }

    /** The main loop: it ends for every predicate and mutator. */
    method Search(w: World) returns (ok: bool)
      requires Searching(w, best) && attempt == 0 && |calls| == 2 && best == input && steps == 0 && turns == []
      requires NoneSmaller(calls, |input|)
      modifies this
      ensures assertionsHold && FoundInteresting(calls, best) && Shrinking(input, reported)
      ensures ok ==> Searching(w, best)
      ensures ok ==> exists current :: History(w, current)
      ensures !ok ==> !NoneFailed(calls) || !AllReported(w, reported)
      ensures ok ==> attempt == attempts
      ensures EachHashOnce(w.hash, calls)
      ensures |best| <= |input| && Within(Budget(attempts, 1))
    {
      hide Budget;
      hide EachHashOnce;
      hide AllRecorded;
      hide Shrinking;
      hide AllReported;
      hide NoneFailed;
      hide FoundInteresting;
      hide LastBest;
      hide NoneSmaller;
      hide TurnOk;
      NothingSpent(attempts);
      var current := best;
      while attempt < attempts
        invariant Searching(w, current) && History(w, current)
        invariant Within(if attempt < attempts then attempt else Budget(attempts, 1))
        decreases |best|, attempts - attempt
      {
        var ok', next := Mutate(w, current);
        if !ok' {
          return false;
        }
        current := next;
      }
      return true;
    }

    /** The run ends early because the empty module is interesting and allowed. */
    ghost predicate EmptyAccepted(w: World) {
      allowEmpty && w.valid(input) && w.test(0, input) == Interesting && w.test(1, EMPTY_WASM) == Interesting
    }

    /**
     A whole run. However it ends, the predicate was called at most
     `2 + (attempts - 1) * (|input| + 1)` times and on each candidate hash at most once; a
     successful run returns bytes that the predicate accepted and that are no longer than the
     input. Every report is of something strictly smaller than all before, unless an empty
     result is accepted at once, and the run aborts exactly if a predicate call or a report fails.
     */
    method Run(w: World) returns (r: Result<ShrinkInfo, Failure>)
      requires HeaderRequired(w)
      requires best == input && alreadyTested == {} && attempt == 0 && calls == [] && reported == [] && assertionsHold
      requires steps == 0 && turns == []
      modifies this
      ensures |calls| <= 2 + Budget(attempts, |input| + 1)
      ensures EachHashOnce(w.hash, calls)
      ensures r.Ok? ==>
                && r.value == ShrinkInfo(|input|, |r.value.output|, r.value.output)
                && FoundInteresting(calls, r.value.output) && |r.value.output| <= |input|
      ensures r == Err(InvalidInput) <==> !w.valid(input)
      ensures r == Err(InputBoring) <==> w.valid(input) && w.test(0, input) == Boring
      ensures r == Err(EmptyInteresting) <==>
              w.valid(input) && w.test(0, input) == Interesting && w.test(1, EMPTY_WASM) == Interesting && !allowEmpty
      ensures r.Ok? && w.test(1, EMPTY_WASM) == Interesting ==> r.value.output == EMPTY_WASM
      ensures r == Err(Aborted) <==> !NoneFailed(calls) || !AllReported(w, reported)
      ensures r.Ok? ==> r.value.output == LastBest(input, reported)
      ensures r.Ok? ==> NoneSmaller(calls, |r.value.output|)
      ensures r.Ok? && !EmptyAccepted(w) ==> attempt == attempts && exists current :: History(w, current)
      ensures if EmptyAccepted(w) then reported == [EMPTY_WASM] else Shrinking(input, reported)
      ensures assertionsHold <==> !EmptyAccepted(w) || |input| > 8 || input == EMPTY_WASM
    {
      hide Budget;
      hide EachHashOnce;
      hide AllRecorded;
      hide Shrinking;
      hide OnlyTested;
      hide NoneSmaller;
      hide TurnsOk;
      hide Linked;
      hide Before;
      BudgetGrows(attempts, 0, |input| + 1);
      NothingSpent(attempts);
      NothingReported(input);
      FewCalls(w.hash, calls, alreadyTested);
      if !w.valid(input) {
        return Err(InvalidInput);
      }
      var v := Test(w, input);
      FewCalls(w.hash, calls, alreadyTested);
      if v.PredicateFailed? {
        assert calls[0].verdict.PredicateFailed?;
        return Err(Aborted);
      }
      if v.Boring? {
        return Err(InputBoring);
      }
      assert calls[0] == Call(input, Interesting);
      v := Test(w, EMPTY_WASM);
      SmallestOfTwo(calls);
      FewCalls(w.hash, calls, alreadyTested);
      if v.PredicateFailed? {
        assert calls[1].verdict.PredicateFailed?;
        return Err(Aborted);
      }
      if v.Interesting? {
        assert calls[1] == Call(EMPTY_WASM, Interesting);
        if allowEmpty {
          var ok := OnNewBest(w, EMPTY_WASM);
          if !ok {
            assert !w.report(0, reported[0]);
            return Err(Aborted);
          }
          return Ok(ShrinkInfo(|input|, |best|, best));
        }
        return Err(EmptyInteresting);
      }
      assert calls[0] == Call(input, Interesting);
      var ok := Search(w);
      BudgetGrows(attempts, |input| - |best|, |input| + 1);
      if !ok {
        return Err(Aborted);
      }
      return Ok(ShrinkInfo(|input|, |best|, best));
    }
  }

  /** The empty component is as long as the empty module, so replacing it trips an assertion. */
  method EmptyComponentTripsAssertion() returns (holds: bool)
    ensures !holds
  {
    var emptyComponent := [0x00, 0x61, 0x73, 0x6d, 0x0d, 0x00, 0x01, 0x00];
    var w := World(
      (b: Bytes) => |b| >= 8,
      (n: nat, b: Bytes) => Interesting,
      (n: nat, b: Bytes) => None,
      (n: nat) => false,
      (n: nat, b: Bytes) => true,
      (b: Bytes) => 0);
    var run := new ShrinkRun(1000, true, emptyComponent);
    var _ := run.Run(w);
    assert emptyComponent[4] != EMPTY_WASM[4];
    return run.assertionsHold;
  }
}
