/**
 `else` opens a node without closing the node of its `if`. What that does to the assertion at
 the end of the pass, and to the regions.
 */
module ElseRegions {
  import opened Common
  import opened BlockTree
  import opened Regions

  /** An open stretch of code is on the stack. */
  predicate Good(st: State) {
    StackOk(st) && (st.codeOpen ==> st.stack != [])
  }

  /** How many structured nodes are open. */
  function Depth(st: State): nat
    requires Good(st)
  {
    if st.codeOpen then |st.stack| - 1 else |st.stack|
  }

  function DepthAfter(d: nat, op: FlatOp): nat {
    match op
    case Open(_) => d + 1
    case Else => d + 1
    case End => if d == 0 then 0 else d - 1
    case Simple(_) => d
  }

  lemma StepDepth(st: State, l: Located)
    requires Good(st)
    ensures Good(Step(st, l)) && Depth(Step(st, l)) == DepthAfter(Depth(st), l.op)
    ensures !l.op.Simple? ==> !Step(st, l).codeOpen
  {
  }

  lemma RunDepthOne(st: State, l: Located)
    requires Good(st)
    ensures Good(Run(st, [l])) && Depth(Run(st, [l])) == DepthAfter(Depth(st), l.op)
  {
    RunLast(st, l);
    StepDepth(st, l);
  }

  /** Each `else` leaves one node open. */
  lemma {:induction false} BodyDepth(st: State, body: seq<Instr>, at: nat)
    requires Good(st)
    ensures Good(Run(st, Flatten(body, at))) && Depth(Run(st, Flatten(body, at))) == Depth(st) + ElseCount(body)
    decreases body, 1
  {
    hide Run;
    hide Good;
    hide Depth;
    hide Size;
    hide Flat;
    GoodStack(st);
    if body == [] {
      RunNothing(st);
    } else {
      InstrDepth(st, body[0], at);
      var mid := Run(st, Flat(body[0], at));
      BodyDepth(mid, body[1..], at + Size(body[0]));
      RunAppend(st, Flat(body[0], at), Flatten(body[1..], at + Size(body[0])));
    }
  }

  lemma GoodStack(st: State)
    requires Good(st)
    ensures StackOk(st)
  {
  }

  /** An operator, a body and another operator. */
  lemma {:induction false} BodyThenOne(st: State, body: seq<Instr>, at: nat, last: Located)
    requires Good(st)
    ensures Good(Run(st, Flatten(body, at) + [last]))
    ensures Depth(Run(st, Flatten(body, at) + [last])) == DepthAfter(Depth(st) + ElseCount(body), last.op)
    decreases body, 2
  {
    hide Run;
    hide Good;
    hide Depth;
    hide DepthAfter;
    hide Flatten;
    hide ElseCount;
    GoodStack(st);
    BodyDepth(st, body, at);
    RunAppend(st, Flatten(body, at), [last]);
    RunDepthOne(Run(st, Flatten(body, at)), last);
  }

  lemma {:induction false} InstrDepth(st: State, i: Instr, at: nat)
    requires Good(st)
    ensures Good(Run(st, Flat(i, at))) && Depth(Run(st, Flat(i, at))) == Depth(st) + Elses(i)
    decreases i, 0
  {
    hide Run;
    hide Good;
    hide Depth;
    hide Flatten;
    hide Length;
    hide ElseCount;
    GoodStack(st);
    match i
    case Plain(op, _) =>
      RunDepthOne(st, Located(at, Simple(op)));
    case Nest(kind, size, body) =>
      var first, last := Located(at, Open(kind)), Located(at + size + Length(body), End);
      RunDepthOne(st, first);
      var s1 := Run(st, [first]);
      BodyThenOne(s1, body, at + size, last);
      RunAppend(st, [first], Flatten(body, at + size) + [last]);
      assert Flat(i, at) == [first] + (Flatten(body, at + size) + [last]);
    case IfElse(size, body, otherwise) =>
      var mid := at + size + Length(body);
      var first, middle, last :=
        Located(at, Open(IfNode)), Located(mid, Else), Located(mid + 1 + Length(otherwise), End);
      var a, b := Flatten(body, at + size) + [middle], Flatten(otherwise, mid + 1) + [last];
      RunDepthOne(st, first);
      var s1 := Run(st, [first]);
      BodyThenOne(s1, body, at + size, middle);
      var s2 := Run(s1, a);
      BodyThenOne(s2, otherwise, mid + 1, last);
      GoodStack(s1);
      RunAppend(s1, a, b);
      RunAppend(st, [first], a + b);
      assert Flat(i, at) == [first] + (a + b);
  }

  // ----- the node at the bottom of the stack -----

  /** The bottom of the stack is a node of the body itself; nothing starts after `p`. */
  ghost predicate Rooted(st: State, p: nat) {
    && Good(st)
    && (st.stack != [] ==> st.blocks[st.stack[0] - 1].outer == 0)
    && forall k :: 0 <= k < |st.blocks| ==> st.blocks[k].start <= p
  }

  lemma ClosingRooted(st: State, p: nat, pos: nat)
    requires StackOk(st) && st.stack != []
    requires st.blocks[st.stack[0] - 1].outer == 0
    requires forall k :: 0 <= k < |st.blocks| ==> st.blocks[k].start <= p
    ensures var r := Closing(st, pos);
            && StackOk(r)
            && (r.stack != [] ==> r.blocks[r.stack[0] - 1].outer == 0)
            && (forall k :: 0 <= k < |r.blocks| ==> r.blocks[k].start <= p)
  {
  }

  lemma SettleRooted(st: State, p: nat, pos: nat)
    requires Rooted(st, p)
    ensures Rooted(Settle(st, pos), p) && !Settle(st, pos).codeOpen
  {
    if st.codeOpen {
      ClosingRooted(st, p, if pos == 0 then 0 else pos - 1);
    }
  }

  lemma OpeningRooted(st: State, p: nat, kind: NodeType, pos: nat)
    requires Rooted(st, p) && p <= pos
    ensures Rooted(Opening(st, kind, pos), pos) && Opening(st, kind, pos).stack != []
  {
    if st.stack != [] {
      assert Opening(st, kind, pos).stack[0] == st.stack[0];
    }
  }

  lemma StepRooted(st: State, p: nat, l: Located)
    requires Rooted(st, p) && p <= l.pos
    ensures Rooted(Step(st, l), l.pos)
  {
    hide Opening;
    hide Closing;
    hide Settle;
    SettleRooted(st, p, l.pos);
    match l.op
    case Open(kind) => OpeningRooted(Settle(st, l.pos), p, kind, l.pos);
    case Else => OpeningRooted(Settle(st, l.pos), p, ElseNode, l.pos);
    case End =>
      EndRooted(Settle(st, l.pos), p, l.pos);
    case Simple(_) =>
      OpeningRooted(st, p, CodeNode, l.pos);
      CodeRooted(st, l.pos);
  }

  lemma EndRooted(st: State, p: nat, pos: nat)
    requires Rooted(st, p) && p <= pos && !st.codeOpen
    ensures Rooted(Closing(st, pos), pos)
  {
    if st.stack != [] {
      ClosingRooted(st, p, pos);
    }
  }

  lemma CodeRooted(st: State, pos: nat)
    requires Rooted(Opening(st, CodeNode, pos), pos) && Opening(st, CodeNode, pos).stack != []
    ensures Rooted(Opening(st, CodeNode, pos).(codeOpen := true), pos)
  {
  }

  lemma {:induction false} RunRooted(st: State, ops: seq<Located>, lo: nat, hi: nat)
    requires Rooted(st, lo) && Sorted(ops) && Spans(ops, lo, hi)
    ensures StackOk(st) && exists p: nat :: (p == lo || p < hi) && Rooted(Run(st, ops), p)
    decreases |ops|
  {
    hide Step;
    if ops == [] {
      assert Rooted(Run(st, ops), lo);
    } else {
      StepRooted(st, lo, ops[0]);
      RunRooted(Step(st, ops[0]), ops[1..], ops[0].pos, hi);
      var p: nat :| (p == ops[0].pos || p < hi) && Rooted(Run(Step(st, ops[0]), ops[1..]), p);
      assert Rooted(Run(st, ops), p);
    }
  }

  /** With one node left open, the last `end` of the function closes it: a region up to there. */
  lemma LastEndClosesBottom(st: State, p: nat, pos: nat)
    requires Rooted(st, p) && p <= pos && Depth(st) >= 1
    ensures Depth(st) == 1 ==>
              exists k :: 0 <= k < |Step(st, Located(pos, End)).blocks|
                       && Step(st, Located(pos, End)).blocks[k].outer == 0
                       && Step(st, Located(pos, End)).blocks[k].start <= pos
                           == Step(st, Located(pos, End)).blocks[k].end
  {
    SettleRooted(st, p, pos);
    var s := Settle(st, pos);
    if Depth(st) == 1 {
      assert |s.stack| == 1;
      var k := s.stack[0] - 1;
      assert Step(st, Located(pos, End)).blocks[k] == s.blocks[k].(end := pos);
    }
  }

  lemma {:induction false} TopLevelHas(nodes: seq<TreeNode>, k: nat)
    requires k < |nodes| && nodes[k].outer == 0
    ensures nodes[k] in TopLevel(nodes)
  {
    if k > 0 {
      TopLevelHas(nodes[1..], k - 1);
    }
  }

  lemma {:induction false} SliceEachHas(ops: seq<Located>, nodes: seq<TreeNode>, l: Located, n: TreeNode)
    requires n in nodes && l in Slice(ops, n.start, n.end + 1)
    ensures l in SliceEach(ops, nodes)
  {
    if n != nodes[0] {
      assert n in nodes[1..];
      SliceEachHas(ops, nodes[1..], l, n);
    }
  }

  /** With exactly one `else` the printed regions contain the function's own last `end`. */
  lemma OneElseKeepsLastEnd(body: seq<Instr>, at: nat)
    requires Sized(body) && ElseCount(body) == 1
    ensures var ops := FunctionOps(body, at);
            Located(at + Length(body), End) in SliceEach(ops, TopLevel(Run(Initial, ops).blocks))
  {
    hide Run;
    hide Step;
    hide Flatten;
    hide Length;
    hide Rooted;
    hide TopLevel;
    hide Slice;
    hide SliceEach;
    hide ElseCount;
    var ops, end := FunctionOps(body, at), at + Length(body);
    var last := Located(end, End);
    FlattenSpans(body, at);
    InitialRooted(at);
    RunRooted(Initial, Flatten(body, at), at, end);
    var st := Run(Initial, Flatten(body, at));
    var p: nat :| (p == at || p < end) && Rooted(st, p);
    BodyDepth(Initial, body, at);
    LastEndClosesBottom(st, p, end);
    RunAppend(Initial, Flatten(body, at), [last]);
    RunLast(st, last);
    var blocks := Step(st, last).blocks;
    var k :| 0 <= k < |blocks| && blocks[k].outer == 0 && blocks[k].start <= end == blocks[k].end;
    TopLevelHas(blocks, k);
    assert ops[|Flatten(body, at)|] == last;
    SliceHas(ops, blocks[k].start, blocks[k].end + 1, |Flatten(body, at)|);
    SliceEachHas(ops, TopLevel(blocks), last, blocks[k]);
  }

  lemma InitialRooted(p: nat)
    ensures Rooted(Initial, p) && Depth(Initial) == 0
  {
  }

  /** The assertion that the stack ends empty holds exactly for bodies with at most one `else`. */
  lemma StackEndsEmpty(body: seq<Instr>, at: nat)
    ensures Run(Initial, FunctionOps(body, at)).stack == [] <==> ElseCount(body) <= 1
  {
    hide Run;
    hide Step;
    hide Flatten;
    hide Length;
    hide ElseCount;
    var last := Located(at + Length(body), End);
    InitialRooted(0);
    BodyDepth(Initial, body, at);
    RunAppend(Initial, Flatten(body, at), [last]);
    var st := Run(Initial, Flatten(body, at));
    RunLast(st, last);
    StepDepth(st, last);
  }

  /** The pass succeeds and its regions reproduce the body exactly for bodies without `else`. */
  lemma RegionsReproduceBodyIff(body: seq<Instr>, at: nat)
    requires Sized(body)
    ensures var ops := FunctionOps(body, at);
            var st := Run(Initial, ops);
            st.stack == [] && SliceEach(ops, TopLevel(st.blocks)) == Flatten(body, at) <==> ElseCount(body) == 0
  {
    hide Run;
    hide Flatten;
    hide Length;
    hide TopLevel;
    hide SliceEach;
    hide ElseCount;
    StackEndsEmpty(body, at);
    if ElseCount(body) == 0 {
      RegionsHoldBody(body, at);
    } else if ElseCount(body) == 1 {
      OneElseKeepsLastEnd(body, at);
      FlattenSpans(body, at);
      assert Located(at + Length(body), End) !in Flatten(body, at);
    }
  }

  const IfElseBody := [IfElse(2, [], [])]

  /** `if else end end` at byte 0: the region of the `else` runs over the last `end`. */
  lemma ElseExample()
    ensures Sized(IfElseBody)
    ensures !(SliceEach(FunctionOps(IfElseBody, 0), TopLevel(Run(Initial, FunctionOps(IfElseBody, 0)).blocks))
              == Flatten(IfElseBody, 0))
  {
    assert SizedInstr(IfElse(2, [], []));
    assert Elses(IfElse(2, [], [])) == 1;
    RegionsReproduceBodyIff(IfElseBody, 0);
    StackEndsEmpty(IfElseBody, 0);
  }
}
