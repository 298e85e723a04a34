/**
 What the live-out sets are for: resuming a function after a region with only those locals
 restored makes the later regions compute what the uninterrupted run computes.
 */
module Resume {
  import opened Common
  import opened BlockTree
  import opened Regions
  import opened Liveness

  // ----- a meaning of bodies -----

  datatype Flow = Next | Branch(depth: nat) | Return | Trap | OutOfFuel

  /**
   What is left open about WebAssembly: values `V`, and states `S` of everything but the
   locals (operand stack, memories, globals, the host). Other operators act on `S` alone.
   */
  datatype Semantics<!V, !S> = Semantics(
    push: (S, V) -> S,
    pop: S -> (S, V),
    peek: S -> V,
    effect: (Op, S) -> (Flow, S),
    enter: (NodeType, S) -> (bool, S),
    unwind: (NodeType, S, S) -> S,
    leave: (NodeType, S, S) -> S)

  type Locals<!V> = nat -> V

  datatype Outcome<!V, !S> = Outcome(flow: Flow, locals: Locals<V>, state: S)

  function Update<V>(locals: Locals<V>, x: nat, v: V): Locals<V> {
    (y: nat) => if y == x then v else locals(y)
  }

  function ExecOp<V, S>(sem: Semantics<V, S>, op: Op, locals: Locals<V>, s: S): Outcome<V, S> {
    match op
    case LocalGet(x) => Outcome(Next, locals, sem.push(s, locals(x)))
    case LocalSet(x) => var (s', v) := sem.pop(s); Outcome(Next, Update(locals, x, v), s')
    case LocalTee(x) => Outcome(Next, Update(locals, x, sem.peek(s)), s)
    case _ => var (flow, s') := sem.effect(op, s); Outcome(flow, locals, s')
  }

  /** How a block ends when its body ended with `o`; branching to a loop is not ending it. */
  function Exit<V, S>(sem: Semantics<V, S>, kind: NodeType, entry: S, o: Outcome<V, S>): Outcome<V, S> {
    match o.flow
    case Next => o.(state := sem.leave(kind, entry, o.state))
    case Branch(d) =>
      if d == 0 then Outcome(Next, o.locals, sem.unwind(kind, entry, o.state)) else o.(flow := Branch(d - 1))
    case _ => o
  }

  function ExecNest<V, S>(sem: Semantics<V, S>, kind: NodeType, body: seq<Instr>, locals: Locals<V>, s: S,
      fuel: nat): Outcome<V, S>
    decreases fuel, body, 1
  {
    var o := Exec(sem, body, locals, s, fuel);
    if kind == LoopNode && o.flow == Branch(0) then
      if fuel == 0 then o.(flow := OutOfFuel)
      else ExecNest(sem, kind, body, o.locals, sem.unwind(kind, s, o.state), fuel - 1)
    else Exit(sem, kind, s, o)
  }

  function ExecInstr<V, S>(sem: Semantics<V, S>, i: Instr, locals: Locals<V>, s: S, fuel: nat): Outcome<V, S>
    decreases fuel, i, 2
  {
    match i
    case Plain(op, _) => ExecOp(sem, op, locals, s)
    case Nest(kind, _, body) =>
      var (go, s') := sem.enter(kind, s);
      if go then ExecNest(sem, kind, body, locals, s', fuel) else Outcome(Next, locals, s')
    case IfElse(_, body, otherwise) =>
      var (go, s') := sem.enter(IfNode, s);
      ExecNest(sem, IfNode, if go then body else otherwise, locals, s', fuel)
  }

  /** `fuel` bounds how often loops run again; it is the same for every instruction of a body. */
  function Exec<V, S>(sem: Semantics<V, S>, body: seq<Instr>, locals: Locals<V>, s: S, fuel: nat): Outcome<V, S>
    decreases fuel, body, 0
  {
    if body == [] then Outcome(Next, locals, s)
    else
      var o := ExecInstr(sem, body[0], locals, s, fuel);
      if o.flow == Next then Exec(sem, body[1..], o.locals, o.state, fuel) else o
  }

  lemma {:induction false} ExecAppend<V, S>(sem: Semantics<V, S>, a: seq<Instr>, b: seq<Instr>,
      locals: Locals<V>, s: S, fuel: nat)
    ensures var o := Exec(sem, a, locals, s, fuel);
            Exec(sem, a + b, locals, s, fuel) == if o.flow == Next then Exec(sem, b, o.locals, o.state, fuel) else o
    decreases |a|
  {
    hide ExecInstr;
    if a == [] {
      assert a + b == b;
    } else {
      assert (a + b)[0] == a[0] && (a + b)[1..] == a[1..] + b;
      var o := ExecInstr(sem, a[0], locals, s, fuel);
      ExecAppend(sem, a[1..], b, o.locals, o.state, fuel);
    }
  }

  // ----- locals of a body -----

  function InstrWrites(i: Instr): set<nat> {
    match i
    case Plain(op, _) => WrittenBy(Simple(op))
    case Nest(_, _, body) => BodyWrites(body)
    case IfElse(_, body, otherwise) => BodyWrites(body) + BodyWrites(otherwise)
  }

  function BodyWrites(body: seq<Instr>): set<nat> {
    if body == [] then {} else InstrWrites(body[0]) + BodyWrites(body[1..])
  }

  function InstrReads(i: Instr): set<nat> {
    match i
    case Plain(op, _) => ReadBy(Simple(op))
    case Nest(_, _, body) => BodyReads(body)
    case IfElse(_, body, otherwise) => BodyReads(body) + BodyReads(otherwise)
  }

  function BodyReads(body: seq<Instr>): set<nat> {
    if body == [] then {} else InstrReads(body[0]) + BodyReads(body[1..])
  }

  lemma {:induction false} BodyLocalsAppend(a: seq<Instr>, b: seq<Instr>)
    ensures BodyWrites(a + b) == BodyWrites(a) + BodyWrites(b)
    ensures BodyReads(a + b) == BodyReads(a) + BodyReads(b)
  {
    hide InstrWrites;
    hide InstrReads;
    if a == [] {
      assert a + b == b;
    } else {
      assert (a + b)[0] == a[0] && (a + b)[1..] == a[1..] + b;
      BodyLocalsAppend(a[1..], b);
    }
  }

  /** A local that a body does not write keeps its value. */
  lemma {:induction false} UnwrittenKept<V, S>(sem: Semantics<V, S>, body: seq<Instr>, locals: Locals<V>, s: S,
      fuel: nat, x: nat)
    requires x !in BodyWrites(body)
    ensures Exec(sem, body, locals, s, fuel).locals(x) == locals(x)
    decreases fuel, body, 0
  {
    hide ExecInstr;
    hide InstrWrites;
    if body != [] {
      InstrUnwrittenKept(sem, body[0], locals, s, fuel, x);
      var o := ExecInstr(sem, body[0], locals, s, fuel);
      if o.flow == Next {
        UnwrittenKept(sem, body[1..], o.locals, o.state, fuel, x);
      }
    }
  }

  lemma {:induction false} InstrUnwrittenKept<V, S>(sem: Semantics<V, S>, i: Instr, locals: Locals<V>, s: S,
      fuel: nat, x: nat)
    requires x !in InstrWrites(i)
    ensures ExecInstr(sem, i, locals, s, fuel).locals(x) == locals(x)
    decreases fuel, i, 2
  {
    hide ExecNest;
    match i
    case Plain(op, _) =>
      assert !Writes(Simple(op), x);
    case Nest(kind, _, body) =>
      var (go, s') := sem.enter(kind, s);
      if go {
        NestUnwrittenKept(sem, kind, body, locals, s', fuel, x);
      }
    case IfElse(_, body, otherwise) =>
      var (go, s') := sem.enter(IfNode, s);
      NestUnwrittenKept(sem, IfNode, if go then body else otherwise, locals, s', fuel, x);
  }

  lemma {:induction false} NestUnwrittenKept<V, S>(sem: Semantics<V, S>, kind: NodeType, body: seq<Instr>,
      locals: Locals<V>, s: S, fuel: nat, x: nat)
    requires x !in BodyWrites(body)
    ensures ExecNest(sem, kind, body, locals, s, fuel).locals(x) == locals(x)
    decreases fuel, body, 1
  {
    hide Exec;
    UnwrittenKept(sem, body, locals, s, fuel, x);
    var o := Exec(sem, body, locals, s, fuel);
    if kind == LoopNode && o.flow == Branch(0) && fuel > 0 {
      NestUnwrittenKept(sem, kind, body, o.locals, sem.unwind(kind, s, o.state), fuel - 1, x);
    }
  }

  ghost predicate Agree<V(!new)>(l1: Locals<V>, l2: Locals<V>, on: set<nat>) {
    forall x :: x in on ==> l1(x) == l2(x)
  }

  /** Nothing but locals outside `on` tells the outcomes apart. */
  ghost predicate Alike<V(!new), S>(o1: Outcome<V, S>, o2: Outcome<V, S>, on: set<nat>) {
    o1.flow == o2.flow && o1.state == o2.state && Agree(o1.locals, o2.locals, on)
  }

  /** Frames that agree on all locals a body reads give outcomes that agree there. */
  lemma {:induction false} UnreadIrrelevant<V(!new), S>(sem: Semantics<V, S>, body: seq<Instr>, l1: Locals<V>,
      l2: Locals<V>, s: S, fuel: nat, on: set<nat>)
    requires BodyReads(body) <= on && Agree(l1, l2, on)
    ensures Alike(Exec(sem, body, l1, s, fuel), Exec(sem, body, l2, s, fuel), on)
    decreases fuel, body, 0
  {
    hide ExecInstr;
    hide InstrReads;
    if body != [] {
      InstrUnreadIrrelevant(sem, body[0], l1, l2, s, fuel, on);
      var o1, o2 := ExecInstr(sem, body[0], l1, s, fuel), ExecInstr(sem, body[0], l2, s, fuel);
      if o1.flow == Next {
        UnreadIrrelevant(sem, body[1..], o1.locals, o2.locals, o1.state, fuel, on);
      }
    }
  }

  lemma {:induction false} InstrUnreadIrrelevant<V(!new), S>(sem: Semantics<V, S>, i: Instr, l1: Locals<V>,
      l2: Locals<V>, s: S, fuel: nat, on: set<nat>)
    requires InstrReads(i) <= on && Agree(l1, l2, on)
    ensures Alike(ExecInstr(sem, i, l1, s, fuel), ExecInstr(sem, i, l2, s, fuel), on)
    decreases fuel, i, 2
  {
    hide ExecNest;
    match i
    case Plain(op, _) =>
      OpUnreadIrrelevant(sem, op, l1, l2, s, on);
    case Nest(kind, _, body) =>
      var (go, s') := sem.enter(kind, s);
      if go {
        NestUnreadIrrelevant(sem, kind, body, l1, l2, s', fuel, on);
      }
    case IfElse(_, body, otherwise) =>
      var (go, s') := sem.enter(IfNode, s);
      NestUnreadIrrelevant(sem, IfNode, if go then body else otherwise, l1, l2, s', fuel, on);
  }

  lemma OpUnreadIrrelevant<V(!new), S>(sem: Semantics<V, S>, op: Op, l1: Locals<V>, l2: Locals<V>, s: S, on: set<nat>)
    requires ReadBy(Simple(op)) <= on && Agree(l1, l2, on)
    ensures Alike(ExecOp(sem, op, l1, s), ExecOp(sem, op, l2, s), on)
  {
    if op.LocalGet? {
      assert Reads(Simple(op), op.get);
    }
  }

  lemma {:induction false} NestUnreadIrrelevant<V(!new), S>(sem: Semantics<V, S>, kind: NodeType,
      body: seq<Instr>, l1: Locals<V>, l2: Locals<V>, s: S, fuel: nat, on: set<nat>)
    requires BodyReads(body) <= on && Agree(l1, l2, on)
    ensures Alike(ExecNest(sem, kind, body, l1, s, fuel), ExecNest(sem, kind, body, l2, s, fuel), on)
    decreases fuel, body, 1
  {
    hide Exec;
    UnreadIrrelevant(sem, body, l1, l2, s, fuel, on);
    var o1, o2 := Exec(sem, body, l1, s, fuel), Exec(sem, body, l2, s, fuel);
    if kind == LoopNode && o1.flow == Branch(0) && fuel > 0 {
      NestUnreadIrrelevant(sem, kind, body, o1.locals, o2.locals, sem.unwind(kind, s, o1.state), fuel - 1, on);
    }
  }

  // ----- regions as pieces of the body -----

  /** The body cut into its stretches of plain code and its blocks. */
  function Pieces(body: seq<Instr>): seq<seq<Instr>> {
    if body == [] then []
    else if body[0].Plain? then
      var n := RunLength(body);
      [body[..n]] + Pieces(body[n..])
    else [[body[0]]] + Pieces(body[1..])
  }

  function Concat(pieces: seq<seq<Instr>>): seq<Instr> {
    if pieces == [] then [] else pieces[0] + Concat(pieces[1..])
  }

  lemma {:induction false} PiecesMakeBody(body: seq<Instr>)
    ensures Concat(Pieces(body)) == body
  {
    if body != [] {
      hide Concat;
      if body[0].Plain? {
        var n := RunLength(body);
        PiecesMakeBody(body[n..]);
        ConcatHead(body[..n], Pieces(body[n..]));
        assert body == body[..n] + body[n..];
      } else {
        PiecesMakeBody(body[1..]);
        ConcatHead([body[0]], Pieces(body[1..]));
        assert body == [body[0]] + body[1..];
      }
    }
  }

  lemma ConcatHead(piece: seq<Instr>, rest: seq<seq<Instr>>)
    ensures Concat([piece] + rest) == piece + Concat(rest)
  {
    assert ([piece] + rest)[1..] == rest;
  }

  /** The operators of `body` are those of `ops` at its bytes. */
  ghost predicate Covers(ops: seq<Located>, body: seq<Instr>, at: nat) {
    && (forall l :: l in Flatten(body, at) ==> l in ops)
    && (forall l :: l in ops && at <= l.pos < at + Length(body) ==> l in Flatten(body, at))
  }

  lemma CoversSplit(ops: seq<Located>, a: seq<Instr>, b: seq<Instr>, at: nat)
    requires Covers(ops, a + b, at) && Sized(a) && Sized(b)
    ensures Covers(ops, a, at) && Covers(ops, b, at + Length(a))
  {
    hide Flatten;
    hide Length;
    LengthAppend(a, b);
    FlattenAppend(a, b, at);
    FlattenSpans(a, at);
    FlattenSpans(b, at + Length(a));
  }

  predicate OnLocal(op: FlatOp) {
    op.Simple? && (op.op.LocalGet? || op.op.LocalSet? || op.op.LocalTee?)
  }

  /** Operators on locals take two bytes, so none sits on the last byte of a body. */
  lemma {:induction false} LocalsFit(body: seq<Instr>, at: nat, l: Located)
    requires Sized(body) && l in Flatten(body, at) && OnLocal(l.op)
    ensures l.pos + 2 <= at + Length(body)
    decreases body, 1
  {
    hide Flat;
    hide Size;
    assert SizedInstr(body[0]);
    if l in Flat(body[0], at) {
      LocalsFitInstr(body[0], at, l);
    } else {
      LocalsFit(body[1..], at + Size(body[0]), l);
    }
  }

  lemma {:induction false} LocalsFitInstr(i: Instr, at: nat, l: Located)
    requires SizedInstr(i) && l in Flat(i, at) && OnLocal(l.op)
    ensures l.pos + 2 <= at + Size(i)
    decreases i, 0
  {
    hide Flatten;
    hide Length;
    match i
    case Plain(_, _) =>
    case Nest(_, size, body) =>
      LocalsFit(body, at + size, l);
    case IfElse(size, body, otherwise) =>
      if l in Flatten(body, at + size) {
        LocalsFit(body, at + size, l);
      } else {
        LocalsFit(otherwise, at + size + Length(body) + 1, l);
      }
  }

  /** The locals of a body are those of its operators. */
  lemma {:induction false} FlattenLocals(body: seq<Instr>, at: nat)
    ensures WritesIn(Flatten(body, at)) == BodyWrites(body)
    ensures ReadsIn(Flatten(body, at)) == BodyReads(body)
    decreases body, 1
  {
    hide Flat;
    hide InstrWrites;
    hide InstrReads;
    hide Size;
    if body != [] {
      FlatLocals(body[0], at);
      FlattenLocals(body[1..], at + Size(body[0]));
      LocalsInAppend(Flat(body[0], at), Flatten(body[1..], at + Size(body[0])));
    }
  }

  lemma OtherLocals(l: Located)
    requires !l.op.Simple?
    ensures WritesIn([l]) == {} && ReadsIn([l]) == {}
  {
  }

  lemma {:induction false} FlatLocals(i: Instr, at: nat)
    ensures WritesIn(Flat(i, at)) == InstrWrites(i)
    ensures ReadsIn(Flat(i, at)) == InstrReads(i)
    decreases i, 1
  {
    match i
    case Plain(_, _) =>
    case Nest(_, _, _) =>
      NestLocals(i, at);
    case IfElse(_, _, _) =>
      IfElseLocals(i, at);
  }

  lemma {:induction false} NestLocals(i: Instr, at: nat)
    requires i.Nest?
    ensures WritesIn(Flat(i, at)) == InstrWrites(i)
    ensures ReadsIn(Flat(i, at)) == InstrReads(i)
    decreases i, 0
  {
    hide Flatten;
    hide Length;
    hide WritesIn;
    hide ReadsIn;
    hide BodyWrites;
    hide BodyReads;
    var first, last := Located(at, Open(i.kind)), Located(at + i.size + Length(i.body), End);
    FlattenLocals(i.body, at + i.size);
    OtherLocals(first);
    OtherLocals(last);
    LocalsInAppend([first], Flatten(i.body, at + i.size));
    LocalsInAppend([first] + Flatten(i.body, at + i.size), [last]);
  }

  lemma {:induction false} IfElseLocals(i: Instr, at: nat)
    requires i.IfElse?
    ensures WritesIn(Flat(i, at)) == InstrWrites(i)
    ensures ReadsIn(Flat(i, at)) == InstrReads(i)
    decreases i, 0
  {
    hide Flatten;
    hide Length;
    hide WritesIn;
    hide ReadsIn;
    hide BodyWrites;
    hide BodyReads;
    var mid := at + i.size + Length(i.body);
    var first, middle := Located(at, Open(IfNode)), Located(mid, Else);
    var last := Located(mid + 1 + Length(i.otherwise), End);
    var a, b := Flatten(i.body, at + i.size), Flatten(i.otherwise, mid + 1);
    FlattenLocals(i.body, at + i.size);
    FlattenLocals(i.otherwise, mid + 1);
    OtherLocals(first);
    OtherLocals(middle);
    OtherLocals(last);
    LocalsInAppend([first], a);
    LocalsInAppend([first] + a, [middle]);
    LocalsInAppend([first] + a + [middle], b);
    LocalsInAppend([first] + a + [middle] + b, [last]);
  }

  /** The scans of a region find exactly the locals of its piece. */
  lemma PieceLocals(ops: seq<Located>, piece: seq<Instr>, at: nat, end: nat)
    requires Sized(piece) && Covers(ops, piece, at) && end + 1 == at + Length(piece)
    ensures WritesIn(Slice(ops, at, end)) == BodyWrites(piece)
    ensures ReadsIn(Slice(ops, at, end)) == BodyReads(piece)
  {
    hide Flatten;
    hide Length;
    hide Slice;
    hide WritesIn;
    hide ReadsIn;
    FlattenLocals(piece, at);
    FlattenSpans(piece, at);
    forall x: nat
      ensures x in WritesIn(Slice(ops, at, end)) <==> x in WritesIn(Flatten(piece, at))
      ensures x in ReadsIn(Slice(ops, at, end)) <==> x in ReadsIn(Flatten(piece, at))
    {
      WrittenSomewhere(Slice(ops, at, end), x);
      WrittenSomewhere(Flatten(piece, at), x);
      ReadSomewhere(Slice(ops, at, end), x);
      ReadSomewhere(Flatten(piece, at), x);
      forall l: Located | OnLocal(l.op)
        ensures l in Slice(ops, at, end) <==> l in Flatten(piece, at)
      {
        InSlice(ops, at, end, l);
        if l in Flatten(piece, at) {
          LocalsFit(piece, at, l);
        }
      }
    }
  }

  /** The scan of a region finds the locals of a piece. */
  ghost predicate Finds(ops: seq<Located>, region: TreeNode, piece: seq<Instr>) {
    && WritesIn(Slice(ops, region.start, region.end)) == BodyWrites(piece)
    && ReadsIn(Slice(ops, region.start, region.end)) == BodyReads(piece)
  }

  /** The regions of an else-free body are its pieces, in order. */
  lemma {:induction false} RegionsArePieces(ops: seq<Located>, body: seq<Instr>, at: nat, next: nat)
    requires Sized(body) && ElseCount(body) == 0 && Covers(ops, body, at)
    ensures |RegionNodes(body, at, next)| == |Pieces(body)|
    ensures forall k :: 0 <= k < |Pieces(body)| ==> Finds(ops, RegionNodes(body, at, next)[k], Pieces(body)[k])
    decreases |body|
  {
    hide Nodes;
    hide RegionNodes;
    hide Covers;
    hide Length;
    hide Size;
    hide ElseCount;
    hide Finds;
    if body == [] {
      NoRegions(at, next);
    } else if body[0].Plain? {
      RegionsOfRun(body, at, next);
      RunFound(ops, body, at, next);
      var n := RunLength(body);
      RegionsArePieces(ops, body[n..], at + Length(body[..n]), next + 1);
    } else {
      NoElseFirst(body);
      RegionsOfNest(body, at, next);
      NestFound(ops, body, at, next);
      RegionsArePieces(ops, body[1..], at + Size(body[0]),
                       next + 1 + |Nodes(body[0].body, at + body[0].size, next + 1, next)|);
    }
  }

  lemma PieceFound(ops: seq<Located>, piece: seq<Instr>, region: TreeNode)
    requires Sized(piece) && Covers(ops, piece, region.start) && region.end + 1 == region.start + Length(piece)
    ensures Finds(ops, region, piece)
  {
    hide *;
    hide Finds;
    FindsIs(ops, region, piece);
    PieceLocals(ops, piece, region.start, region.end);
  }

  lemma FindsIs(ops: seq<Located>, region: TreeNode, piece: seq<Instr>)
    ensures Finds(ops, region, piece) <==>
              && WritesIn(Slice(ops, region.start, region.end)) == BodyWrites(piece)
              && ReadsIn(Slice(ops, region.start, region.end)) == BodyReads(piece)
  {
  }

  lemma RunFound(ops: seq<Located>, body: seq<Instr>, at: nat, next: nat)
    requires Sized(body) && Covers(ops, body, at) && body != [] && body[0].Plain?
    ensures var n := RunLength(body);
            && Covers(ops, body[n..], at + Length(body[..n]))
            && Finds(ops, CodeStretch(next, at, Length(body[..n]), 0), body[..n])
  {
    hide Covers;
    hide Length;
    hide Finds;
    var n := RunLength(body);
    assert body == body[..n] + body[n..];
    CoversSplit(ops, body[..n], body[n..], at);
    LengthPositive(body[..n]);
    PieceFound(ops, body[..n], CodeStretch(next, at, Length(body[..n]), 0));
  }

  lemma NestFound(ops: seq<Located>, body: seq<Instr>, at: nat, next: nat)
    requires Sized(body) && Covers(ops, body, at) && body != [] && body[0].Nest?
    ensures var end := at + body[0].size + Length(body[0].body);
            && Covers(ops, body[1..], at + Size(body[0]))
            && Finds(ops, TreeNode(next, body[0].kind, at, end, 0), [body[0]])
  {
    hide Covers;
    hide Length;
    hide Finds;
    assert body == [body[0]] + body[1..];
    LengthOne(body[0]);
    CoversSplit(ops, [body[0]], body[1..], at);
    PieceFound(ops, [body[0]], TreeNode(next, body[0].kind, at, at + body[0].size + Length(body[0].body), 0));
  }

  lemma NoRegions(at: nat, next: nat)
    ensures RegionNodes([], at, next) == []
  {
  }

  lemma LengthOne(i: Instr)
    ensures Length([i]) == Size(i)
  {
  }

  // ----- live-out sets -----

  /** Written up to region `i` and read after it. */
  function LiveOutOf(body: seq<Instr>, i: nat): set<nat>
    requires i < |Pieces(body)|
  {
    BodyWrites(Concat(Pieces(body)[..i + 1])) * BodyReads(Concat(Pieces(body)[i + 1..]))
  }

  lemma {:induction false} InConcat(pieces: seq<seq<Instr>>, x: nat)
    ensures x in BodyWrites(Concat(pieces)) <==> exists k :: 0 <= k < |pieces| && x in BodyWrites(pieces[k])
    ensures x in BodyReads(Concat(pieces)) <==> exists k :: 0 <= k < |pieces| && x in BodyReads(pieces[k])
  {
    hide BodyWrites;
    hide BodyReads;
    if pieces == [] {
      NoLocals();
    } else {
      BodyLocalsAppend(pieces[0], Concat(pieces[1..]));
      InConcat(pieces[1..], x);
      assert pieces == [pieces[0]] + pieces[1..];
      if x in BodyWrites(Concat(pieces[1..])) {
        var k :| 0 <= k < |pieces[1..]| && x in BodyWrites(pieces[1..][k]);
        assert x in BodyWrites(pieces[k + 1]);
      }
      if x in BodyReads(Concat(pieces[1..])) {
        var k :| 0 <= k < |pieces[1..]| && x in BodyReads(pieces[1..][k]);
        assert x in BodyReads(pieces[k + 1]);
      }
    }
  }

  lemma NoLocals()
    ensures BodyWrites([]) == {} && BodyReads([]) == {}
  {
  }

  lemma UnionIsConcat(pieces: seq<seq<Instr>>, sets: seq<set<nat>>)
    requires |sets| == |pieces|
    ensures (forall k :: 0 <= k < |sets| ==> sets[k] == BodyWrites(pieces[k])) ==>
              Union(sets) == BodyWrites(Concat(pieces))
    ensures (forall k :: 0 <= k < |sets| ==> sets[k] == BodyReads(pieces[k])) ==>
              Union(sets) == BodyReads(Concat(pieces))
  {
    hide BodyWrites;
    hide BodyReads;
    hide Union;
    forall x: nat
      ensures (forall k :: 0 <= k < |sets| ==> sets[k] == BodyWrites(pieces[k])) ==>
                (x in Union(sets) <==> x in BodyWrites(Concat(pieces)))
      ensures (forall k :: 0 <= k < |sets| ==> sets[k] == BodyReads(pieces[k])) ==>
                (x in Union(sets) <==> x in BodyReads(Concat(pieces)))
    {
      InUnion(sets, x);
      InConcat(pieces, x);
    }
  }

  /** The scan ends with the operators of the function. */
  ghost predicate InStep(scan: seq<Scanned>, ops: seq<Located>) {
    && |ops| <= |scan|
    && forall k :: 0 <= k < |ops| ==> scan[|scan| - |ops| + k] == Scanned(ops[k].pos, Some(ops[k].op))
  }

  lemma FirstOfFunction(body: seq<Instr>, at: nat)
    ensures FunctionOps(body, at) != [] && FunctionOps(body, at)[0].pos == at
  {
    if body != [] {
      assert Flat(body[0], at)[0].pos == at;
    }
  }

  /** A scan in step reads, from the first operator on, the operators of the function and no others. */
  lemma InStepReads(scan: seq<Scanned>, ops: seq<Located>, i: nat)
    requires Ascending(scan) && InStep(scan, ops) && ops != [] && i < |scan| && ops[0].pos <= scan[i].pos
    ensures scan[i].op.Some? && Located(scan[i].pos, scan[i].op.value) in ops
  {
    var n := |scan| - |ops|;
    assert scan[n + 0] == Scanned(ops[0].pos, Some(ops[0].op));
    assert n <= i;
    assert scan[n + (i - n)] == Scanned(ops[i - n].pos, Some(ops[i - n].op));
  }

  lemma InStepCovers(scan: seq<Scanned>, body: seq<Instr>, at: nat)
    requires Sized(body) && Ascending(scan) && InStep(scan, FunctionOps(body, at))
    ensures Covers(Readable(scan), body, at)
  {
    hide Readable;
    hide Flatten;
    hide Length;
    var ops := FunctionOps(body, at);
    FirstOfFunction(body, at);
    forall l | l in Flatten(body, at) ensures l in Readable(scan) {
      ReadableHas(scan, l);
      var k :| 0 <= k < |Flatten(body, at)| && Flatten(body, at)[k] == l;
      assert ops[k] == l;
      assert scan[|scan| - |ops| + k] == Scanned(ops[k].pos, Some(ops[k].op));
    }
    forall l | l in Readable(scan) && at <= l.pos < at + Length(body) ensures l in Flatten(body, at) {
      ReadableHas(scan, l);
      var i :| 0 <= i < |scan| && scan[i] == Scanned(l.pos, Some(l.op));
      InStepReads(scan, ops, i);
    }
  }

  lemma InStepNotGarbled(scan: seq<Scanned>, body: seq<Instr>, at: nat)
    requires Sized(body) && ElseCount(body) == 0 && Ascending(scan) && InStep(scan, FunctionOps(body, at))
    ensures !SomeGarbled(scan, RegionNodes(body, at, 1))
  {
    hide Readable;
    hide FunctionOps;
    hide RegionNodes;
    FirstOfFunction(body, at);
    RegionsTile(body, at, 1);
    var regions := RegionNodes(body, at, 1);
    forall k | 0 <= k < |regions| ensures !Garbled(scan, regions[k]) {
      TilesStart(regions, at, at + Length(body), k);
      forall i | 0 <= i < |scan| && regions[k].start <= scan[i].pos ensures scan[i].op.Some? {
        InStepReads(scan, FunctionOps(body, at), i);
      }
    }
  }

  lemma {:induction false} TilesStart(nodes: seq<TreeNode>, lo: nat, hi: nat, k: nat)
    requires Tiles(nodes, lo, hi) && k < |nodes|
    ensures lo <= nodes[k].start
  {
    if k > 0 {
      TilesStart(nodes[1..], nodes[0].end + 1, hi, k - 1);
    }
  }

  /** In step, the scans find what the structured body writes and reads. */
  lemma InStepIsLive(scan: seq<Scanned>, body: seq<Instr>, at: nat)
    requires Sized(body) && ElseCount(body) == 0 && Ascending(scan) && InStep(scan, FunctionOps(body, at))
    ensures |RegionNodes(body, at, 1)| == |Pieces(body)| && !SomeGarbled(scan, RegionNodes(body, at, 1))
    ensures forall i :: 0 <= i < |Pieces(body)| ==>
              ScannedLiveOut(scan, RegionNodes(body, at, 1), i) == LiveOutOf(body, i)
  {
    hide Pieces;
    hide LiveOutOf;
    hide RegionNodes;
    hide FunctionOps;
    hide Union;
    hide Slice;
    hide Readable;
    InStepCovers(scan, body, at);
    InStepNotGarbled(scan, body, at);
    RegionsArePieces(Readable(scan), body, at, 1);
    var regions := RegionNodes(body, at, 1);
    forall i | 0 <= i < |Pieces(body)|
      ensures ScannedLiveOut(scan, regions, i) == LiveOutOf(body, i)
    {
      LiveOutFromSets(body, WriteSets(scan, regions), ReadSets(scan, regions), i);
    }
  }

  /**
   The whole analysis of a function: the tree is built from its operators, while the scans start
   from the beginning of its bytes, at the declarations of its locals. The sets are what the
   scans find in each region, whatever they read there; they are those of the structured body if
   the scans are in step with it.
   */
  method AnalyseFunction(scan: seq<Scanned>, ops: seq<Located>, ghost body: seq<Instr>, ghost at: nat)
    returns (r: Option<seq<set<nat>>>)
    requires Sized(body) && ElseCount(body) == 0 && ops == FunctionOps(body, at)
    requires Ascending(scan)
    ensures |RegionNodes(body, at, 1)| == |Pieces(body)|
    ensures r.None? <==> body == [] || SomeGarbled(scan, RegionNodes(body, at, 1))
    ensures r.Some? ==>
              && |r.value| == |Pieces(body)|
              && forall i :: 0 <= i < |r.value| ==> r.value[i] == ScannedLiveOut(scan, RegionNodes(body, at, 1), i)
    ensures InStep(scan, ops) ==> (r.None? <==> body == [])
    ensures InStep(scan, ops) && r.Some? ==>
              forall i :: 0 <= i < |r.value| ==> r.value[i] == LiveOutOf(body, i)
  {
    hide Run;
    hide Nodes;
    hide RegionNodes;
    hide TopLevel;
    hide InStep;
    hide Ascending;
    hide FunctionOps;
    hide WriteSets;
    hide ReadSets;
    hide Union;
    hide LiveOutOf;
    hide ElseCount;
    hide Sized;
    hide Pieces;
    hide SomeGarbled;
    var blocks, stackEmpty := BuildBlockTree(ops);
    FunctionBuilds(body, at);
    NodesNumbered(body, at, 1, 0);
    assert stackEmpty;
    var list := GenerateCheckpointList(blocks);
    TopLevelIsRegions(body, at, 1);
    assert Chosen(blocks, list) == RegionNodes(body, at, 1);
    PiecesAreRegions(body, at, 1);
    PiecesEmpty(body);
    if InStep(scan, ops) {
      InStepIsLive(scan, body, at);
    }
    var modified := GenerateModifiedVarList(scan, blocks, list);
    if modified.None? {
      return None;
    }
    r := GenerateLiveVarList(scan, blocks, list, modified.value);
  }

  lemma PiecesAreRegions(body: seq<Instr>, at: nat, next: nat)
    requires Sized(body) && ElseCount(body) == 0
    ensures |RegionNodes(body, at, next)| == |Pieces(body)|
  {
    hide Pieces;
    hide RegionNodes;
    hide Flatten;
    assert Covers(Flatten(body, at), body, at);
    RegionsArePieces(Flatten(body, at), body, at, next);
  }

  lemma PiecesEmpty(body: seq<Instr>)
    ensures Pieces(body) == [] <==> body == []
  {
  }

  lemma LiveOutFromSets(body: seq<Instr>, modified: seq<set<nat>>, uses: seq<set<nat>>, i: nat)
    requires |modified| == |uses| == |Pieces(body)| && i < |uses|
    requires forall k :: 0 <= k < |uses| ==> modified[k] == BodyWrites(Pieces(body)[k])
    requires forall k :: 0 <= k < |uses| ==> uses[k] == BodyReads(Pieces(body)[k])
    ensures Union(modified[..i + 1]) * Union(uses[i + 1..]) == LiveOutOf(body, i)
  {
    hide BodyWrites;
    hide BodyReads;
    hide Union;
    hide Pieces;
    UnionIsConcat(Pieces(body)[..i + 1], modified[..i + 1]);
    UnionIsConcat(Pieces(body)[i + 1..], uses[i + 1..]);
  }

  // ----- resuming -----

  /** The initial frame with some locals set as saved. */
  function Restore<V>(initial: Locals<V>, saved: Locals<V>, which: set<nat>): Locals<V> {
    (x: nat) => if x in which then saved(x) else initial(x)
  }

  lemma {:induction false} ConcatAppend(a: seq<seq<Instr>>, b: seq<seq<Instr>>)
    ensures Concat(a + b) == Concat(a) + Concat(b)
  {
    if a == [] {
      assert a + b == b;
    } else {
      assert (a + b)[0] == a[0] && (a + b)[1..] == a[1..] + b;
      ConcatAppend(a[1..], b);
    }
  }

  lemma ConcatSplit(pieces: seq<seq<Instr>>, i: nat, j: nat)
    requires i <= j <= |pieces|
    ensures Concat(pieces[..j]) == Concat(pieces[..i]) + Concat(pieces[i..j])
    ensures BodyReads(Concat(pieces[i..j])) <= BodyReads(Concat(pieces[i..]))
  {
    hide BodyReads;
    assert pieces[..j] == pieces[..i] + pieces[i..j];
    assert pieces[i..] == pieces[i..j] + pieces[j..];
    ConcatAppend(pieces[..i], pieces[i..j]);
    ConcatAppend(pieces[i..j], pieces[j..]);
    BodyLocalsAppend(Concat(pieces[i..j]), Concat(pieces[j..]));
  }

  /** Restoring the live-out locals is enough for everything that is read later. */
  lemma RestoredAgrees<V(!new), S>(sem: Semantics<V, S>, body: seq<Instr>, initial: Locals<V>, s: S, fuel: nat,
      i: nat)
    requires i < |Pieces(body)|
    ensures var done := Exec(sem, Concat(Pieces(body)[..i + 1]), initial, s, fuel);
            Agree(Restore(initial, done.locals, LiveOutOf(body, i)), done.locals,
                  BodyReads(Concat(Pieces(body)[i + 1..])))
  {
    hide Exec;
    hide BodyReads;
    hide BodyWrites;
    hide Pieces;
    hide Concat;
    var before := Concat(Pieces(body)[..i + 1]);
    var done := Exec(sem, before, initial, s, fuel);
    forall x | x in BodyReads(Concat(Pieces(body)[i + 1..]))
      ensures Restore(initial, done.locals, LiveOutOf(body, i))(x) == done.locals(x)
    {
      if x !in BodyWrites(before) {
        UnwrittenKept(sem, before, initial, s, fuel, x);
      }
    }
  }

  /**
   The point of the live-out sets, for every run: after region `i` is done, going on with a
   frame in which only its live-out locals are restored gives, after any later region `j - 1`,
   the same control flow and the same state as never having stopped, and the same value of
   every local read after `i`. For `j == |Pieces(body)|` that is the result of the function.
   */
  lemma ResumeIsUninterrupted<V(!new), S>(sem: Semantics<V, S>, body: seq<Instr>, initial: Locals<V>, s: S,
      fuel: nat, i: nat, j: nat)
    requires i < j <= |Pieces(body)|
    requires Exec(sem, Concat(Pieces(body)[..i + 1]), initial, s, fuel).flow == Next
    ensures var done := Exec(sem, Concat(Pieces(body)[..i + 1]), initial, s, fuel);
            Alike(Exec(sem, Concat(Pieces(body)[i + 1..j]), Restore(initial, done.locals, LiveOutOf(body, i)),
                       done.state, fuel),
                  Exec(sem, Concat(Pieces(body)[..j]), initial, s, fuel),
                  BodyReads(Concat(Pieces(body)[i + 1..])))
  {
    hide Exec;
    hide BodyReads;
    hide Pieces;
    hide Concat;
    hide LiveOutOf;
    hide Restore;
    var pieces := Pieces(body);
    var done := Exec(sem, Concat(pieces[..i + 1]), initial, s, fuel);
    ConcatSplit(pieces, i + 1, j);
    ExecAppend(sem, Concat(pieces[..i + 1]), Concat(pieces[i + 1..j]), initial, s, fuel);
    RestoredAgrees(sem, body, initial, s, fuel, i);
    UnreadIrrelevant(sem, Concat(pieces[i + 1..j]), Restore(initial, done.locals, LiveOutOf(body, i)), done.locals,
                     done.state, fuel, BodyReads(Concat(pieces[i + 1..])));
  }
}
