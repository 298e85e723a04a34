/**
 wasm-migrate's block tree: one pass over the operators of a function body opens and closes
 nodes on a stack, and the nodes that lie directly in the function body are the regions that
 get a checkpoint.
 */
module BlockTree {
  import opened Common

  datatype Op =
    | LocalGet(get: nat) | LocalSet(set_: nat) | LocalTee(tee: nat)
    | Call(func: nat) | ReturnCall(tail: nat) | Misc(code: nat)

  datatype NodeType = CodeNode | BlockNode | LoopNode | IfNode | ElseNode

  /** A structured body; `size` is the number of bytes of the operator itself. */
  datatype Instr =
    | Plain(op: Op, size: nat)
    | Nest(kind: NodeType, size: nat, body: seq<Instr>)
    | IfElse(size: nat, body: seq<Instr>, otherwise: seq<Instr>)

  datatype FlatOp = Open(kind: NodeType) | Else | End | Simple(op: Op)

  datatype Located = Located(pos: nat, op: FlatOp)

  const END_SIZE: nat := 1

  // ----- bytes and positions -----

  function Size(i: Instr): nat {
    match i
    case Plain(_, size) => size
    case Nest(_, size, body) => size + Length(body) + END_SIZE
    case IfElse(size, body, otherwise) => size + Length(body) + 1 + Length(otherwise) + END_SIZE
  }

  function Length(body: seq<Instr>): nat {
    if body == [] then 0 else Size(body[0]) + Length(body[1..])
  }

  function Flat(i: Instr, at: nat): seq<Located> {
    match i
    case Plain(op, _) => [Located(at, Simple(op))]
    case Nest(kind, size, body) =>
      [Located(at, Open(kind))] + Flatten(body, at + size) + [Located(at + size + Length(body), End)]
    case IfElse(size, body, otherwise) =>
      var mid := at + size + Length(body);
      [Located(at, Open(IfNode))] + Flatten(body, at + size) + [Located(mid, Else)]
      + Flatten(otherwise, mid + 1) + [Located(mid + 1 + Length(otherwise), End)]
  }

  /** The operators of a body that starts at byte `at`. */
  function Flatten(body: seq<Instr>, at: nat): seq<Located> {
    if body == [] then [] else Flat(body[0], at) + Flatten(body[1..], at + Size(body[0]))
  }

  /** A whole function body ends with its own `end`. */
  function FunctionOps(body: seq<Instr>, at: nat): seq<Located> {
    Flatten(body, at) + [Located(at + Length(body), End)]
  }

  function Elses(i: Instr): nat {
    match i
    case Plain(_, _) => 0
    case Nest(_, _, body) => ElseCount(body)
    case IfElse(_, body, otherwise) => 1 + ElseCount(body) + ElseCount(otherwise)
  }

  function ElseCount(body: seq<Instr>): nat {
    if body == [] then 0 else Elses(body[0]) + ElseCount(body[1..])
  }

  /** Every operator has a byte, those on locals at least two, and the openers are real. */
  ghost predicate Sized(body: seq<Instr>) {
    forall i :: 0 <= i < |body| ==> SizedInstr(body[i])
  }

  ghost predicate SizedInstr(i: Instr) {
    && i.size >= 1
    && match i
       case Plain(op, size) => op.LocalGet? || op.LocalSet? || op.LocalTee? ==> size >= 2
       case Nest(kind, _, body) => kind in {BlockNode, LoopNode, IfNode} && Sized(body)
       case IfElse(_, body, otherwise) => Sized(body) && Sized(otherwise)
  }

  // ----- the pass -----

  datatype TreeNode = TreeNode(index: nat, kind: NodeType, start: nat, end: nat, outer: nat)

  datatype State = State(stack: seq<nat>, blocks: seq<TreeNode>, codeOpen: bool)

  const Initial := State([], [], false)

  function Top(stack: seq<nat>): nat {
    if stack == [] then 0 else stack[|stack| - 1]
  }

  function Opening(st: State, kind: NodeType, pos: nat): State {
    var index := |st.blocks| + 1;
    State(st.stack + [index], st.blocks + [TreeNode(index, kind, pos, pos, Top(st.stack))], st.codeOpen)
  }

  /** The stack only holds indices of nodes. */
  predicate StackOk(st: State) {
    forall k :: 0 <= k < |st.stack| ==> 1 <= st.stack[k] <= |st.blocks|
  }

  function Closing(st: State, pos: nat): State
    requires StackOk(st)
  {
    if st.stack == [] then st
    else
      var index := Top(st.stack) - 1;
      State(st.stack[..|st.stack| - 1], st.blocks[index := st.blocks[index].(end := pos)], st.codeOpen)
  }

  /** Before a structured operator an open stretch of code ends, one byte back. */
  function Settle(st: State, pos: nat): State
    requires StackOk(st)
  {
    if st.codeOpen then Closing(st, if pos == 0 then 0 else pos - 1).(codeOpen := false) else st
  }

  function Step(st: State, l: Located): (r: State)
    requires StackOk(st)
    ensures StackOk(r)
  {
    match l.op
    case Open(kind) => Opening(Settle(st, l.pos), kind, l.pos)
    case Else => Opening(Settle(st, l.pos), ElseNode, l.pos)
    case End => Closing(Settle(st, l.pos), l.pos)
    case Simple(_) => if st.codeOpen then st else Opening(st, CodeNode, l.pos).(codeOpen := true)
  }

  function Run(st: State, ops: seq<Located>): State
    requires StackOk(st)
    decreases |ops|
  {
    if ops == [] then st else Run(Step(st, ops[0]), ops[1..])
  }

  lemma {:induction false} RunAppend(st: State, a: seq<Located>, b: seq<Located>)
    requires StackOk(st)
    ensures StackOk(Run(st, a)) && Run(st, a + b) == Run(Run(st, a), b)
    decreases |a|
  {
    if a == [] {
      assert a + b == b;
    } else {
      assert (a + b)[1..] == a[1..] + b;
      RunAppend(Step(st, a[0]), a[1..], b);
    }
  }

  // ----- the tree, as a function of the body -----

  /** How many plain instructions the body starts with. */
  function RunLength(body: seq<Instr>): (n: nat)
    ensures n <= |body|
    ensures forall i :: 0 <= i < n ==> body[i].Plain?
    ensures n < |body| ==> !body[n].Plain?
  {
    if body != [] && body[0].Plain? then 1 + RunLength(body[1..]) else 0
  }

  /** The node of a stretch of `len` bytes of plain code; its end is its last byte. */
  function CodeStretch(index: nat, at: nat, len: nat, outer: nat): TreeNode {
    TreeNode(index, CodeNode, at, if at + len == 0 then 0 else at + len - 1, outer)
  }

  /** The nodes of an else-free body, in the order they are opened. */
  function Nodes(body: seq<Instr>, at: nat, next: nat, outer: nat): seq<TreeNode> {
    if body == [] then []
    else if body[0].Plain? then
      var n := RunLength(body);
      var len := Length(body[..n]);
      [CodeStretch(next, at, len, outer)]
      + Nodes(body[n..], at + len, next + 1, outer)
    else if body[0].Nest? then
      var inner := Nodes(body[0].body, at + body[0].size, next + 1, next);
      [TreeNode(next, body[0].kind, at, at + body[0].size + Length(body[0].body), outer)] + inner
      + Nodes(body[1..], at + Size(body[0]), next + 1 + |inner|, outer)
    else []
  }

  lemma {:induction false} LengthAppend(a: seq<Instr>, b: seq<Instr>)
    ensures Length(a + b) == Length(a) + Length(b)
  {
    if a == [] {
      assert a + b == b;
    } else {
      assert (a + b)[1..] == a[1..] + b;
      LengthAppend(a[1..], b);
    }
  }

  lemma {:induction false} FlattenAppend(a: seq<Instr>, b: seq<Instr>, at: nat)
    ensures Flatten(a + b, at) == Flatten(a, at) + Flatten(b, at + Length(a))
  {
    if a == [] {
      assert a + b == b;
    } else {
      assert (a + b)[1..] == a[1..] + b;
      FlattenAppend(a[1..], b, at + Size(a[0]));
    }
  }

  lemma {:induction false} ElseCountAppend(a: seq<Instr>, b: seq<Instr>)
    ensures ElseCount(a + b) == ElseCount(a) + ElseCount(b)
  {
    if a == [] {
      assert a + b == b;
    } else {
      assert (a + b)[1..] == a[1..] + b;
      ElseCountAppend(a[1..], b);
    }
  }

  lemma FlattenPlain(run: seq<Instr>, at: nat)
    requires run != [] && run[0].Plain?
    ensures Flatten(run, at) == [Located(at, Simple(run[0].op))] + Flatten(run[1..], at + run[0].size)
  {
  }

  lemma RunOne(st: State, l: Located, rest: seq<Located>)
    requires StackOk(st)
    ensures Run(st, [l] + rest) == Run(Step(st, l), rest)
  {
    assert ([l] + rest)[1..] == rest;
  }

  lemma {:induction false} StretchStaysOpen(st: State, run: seq<Instr>, at: nat)
    requires StackOk(st) && st.codeOpen && forall i :: 0 <= i < |run| ==> run[i].Plain?
    ensures Run(st, Flatten(run, at)) == st
  {
    if run != [] {
      FlattenPlain(run, at);
      RunOne(st, Located(at, Simple(run[0].op)), Flatten(run[1..], at + run[0].size));
      StretchStaysOpen(st, run[1..], at + run[0].size);
    }
  }

  lemma OpenThenClose(st: State, kind: NodeType, at: nat, end: nat)
    requires StackOk(st)
    ensures StackOk(Opening(st, kind, at))
    ensures Closing(Opening(st, kind, at), end) ==
            State(st.stack, st.blocks + [TreeNode(|st.blocks| + 1, kind, at, end, Top(st.stack))], st.codeOpen)
  {
    var o := Opening(st, kind, at);
    assert o.stack[..|o.stack| - 1] == st.stack;
  }

  /** The first plain instruction opens a node, and the others leave it open. */
  lemma StretchOpens(st: State, run: seq<Instr>, at: nat)
    requires StackOk(st) && !st.codeOpen && run != [] && forall i :: 0 <= i < |run| ==> run[i].Plain?
    ensures StackOk(Opening(st, CodeNode, at))
    ensures Run(st, Flatten(run, at)) == Opening(st, CodeNode, at).(codeOpen := true)
  {
    hide Run;
    hide Flatten;
    hide Opening;
    hide StackOk;
    FlattenPlain(run, at);
    var rest := Flatten(run[1..], at + run[0].size);
    RunOne(st, Located(at, Simple(run[0].op)), rest);
    OpenThenClose(st, CodeNode, at, 0);
    var started := Opening(st, CodeNode, at).(codeOpen := true);
    StackStays(Opening(st, CodeNode, at));
    StretchStaysOpen(started, run[1..], at + run[0].size);
  }

  lemma StackStays(st: State)
    requires StackOk(st)
    ensures StackOk(st.(codeOpen := true))
  {
  }

  lemma SettleOpened(st: State, at: nat, len: nat)
    requires StackOk(st) && !st.codeOpen
    ensures StackOk(Opening(st, CodeNode, at).(codeOpen := true))
    ensures Settle(Opening(st, CodeNode, at).(codeOpen := true), at + len)
         == State(st.stack, st.blocks + [CodeStretch(|st.blocks| + 1, at, len, Top(st.stack))], false)
  {
    hide Opening;
    OpenThenClose(st, CodeNode, at, if at + len == 0 then 0 else at + len - 1);
  }

  /** A stretch of plain instructions becomes one node, which the next structured operator ends. */
  lemma StretchIsOneNode(st: State, run: seq<Instr>, at: nat)
    requires StackOk(st) && !st.codeOpen && run != [] && forall i :: 0 <= i < |run| ==> run[i].Plain?
    ensures StackOk(Run(st, Flatten(run, at)))
    ensures Settle(Run(st, Flatten(run, at)), at + Length(run)) ==
            State(st.stack, st.blocks + [CodeStretch(|st.blocks| + 1, at, Length(run), Top(st.stack))], false)
  {
    hide Run;
    hide Flatten;
    hide Length;
    hide Opening;
    hide StackOk;
    hide Settle;
    StretchOpens(st, run, at);
    SettleOpened(st, at, Length(run));
  }

  /** A structured operator does not care whether the open stretch was ended just before it. */
  lemma SettledFirst(st: State, body: seq<Instr>, at: nat)
    requires StackOk(st) && body != [] && !body[0].Plain?
    ensures StackOk(Settle(st, at))
    ensures Run(st, Flatten(body, at)) == Run(Settle(st, at), Flatten(body, at))
  {
    assert Flatten(body, at)[0] == Flat(body[0], at)[0];
  }

  /** The state after a body whose nodes are `nodes`. */
  function Built(st: State, nodes: seq<TreeNode>): State {
    State(st.stack, st.blocks + nodes, false)
  }

  /** The pass over an else-free body appends exactly its nodes and leaves the stack as it was. */
  lemma {:induction false} BodyBuilds(st: State, body: seq<Instr>, at: nat)
    requires StackOk(st) && !st.codeOpen && Sized(body) && ElseCount(body) == 0
    ensures StackOk(Run(st, Flatten(body, at)))
    ensures Settle(Run(st, Flatten(body, at)), at + Length(body))
         == Built(st, Nodes(body, at, |st.blocks| + 1, Top(st.stack)))
    decreases body, 1
  {
    hide Step;
    hide Settle;
    hide Run;
    hide Nodes;
    hide Flatten;
    hide Length;
    if body == [] {
      NothingBuilds(st, at);
    } else if body[0].Plain? {
      var n := RunLength(body);
      var run, rest := body[..n], body[n..];
      assert body == run + rest;
      ElseCountAppend(run, rest);
      if rest != [] {
        StretchIsOneNode(st, run, at);
        BodyBuilds(Settle(Run(st, Flatten(run, at)), at + Length(run)), rest, at + Length(run));
      }
      StretchThenRest(st, run, rest, at);
    } else {
      assert SizedInstr(body[0]);
      InstrBuilds(st, body[0], at);
      BodyBuilds(Run(st, Flat(body[0], at)), body[1..], at + Size(body[0]));
      InstrThenRest(st, body, at);
    }
  }

  lemma NothingBuilds(st: State, at: nat)
    requires StackOk(st) && !st.codeOpen
    ensures Run(st, Flatten([], at)) == st && Length([]) == 0
    ensures Settle(st, at) == Built(st, Nodes([], at, |st.blocks| + 1, Top(st.stack)))
  {
    assert st.blocks + [] == st.blocks;
  }

  lemma StretchThenRest(st: State, run: seq<Instr>, rest: seq<Instr>, at: nat)
    requires StackOk(st) && !st.codeOpen && run != [] && RunLength(run + rest) == |run|
    requires rest != [] ==>
               var settled := Built(st, [CodeStretch(|st.blocks| + 1, at, Length(run), Top(st.stack))]);
               && StackOk(settled) && StackOk(Run(settled, Flatten(rest, at + Length(run))))
               && Settle(Run(settled, Flatten(rest, at + Length(run))), at + Length(run) + Length(rest))
                  == Built(settled, Nodes(rest, at + Length(run), |st.blocks| + 2, Top(st.stack)))
    ensures StackOk(Run(st, Flatten(run + rest, at)))
    ensures Settle(Run(st, Flatten(run + rest, at)), at + Length(run + rest))
         == Built(st, Nodes(run + rest, at, |st.blocks| + 1, Top(st.stack)))
  {
    hide Step;
    hide Settle;
    hide Run;
    hide Nodes;
    var next := at + Length(run);
    assert forall i :: 0 <= i < |run| ==> (run + rest)[i] == run[i];
    LengthAppend(run, rest);
    FlattenAppend(run, rest, at);
    RunAppend(st, Flatten(run, at), Flatten(rest, next));
    StretchIsOneNode(st, run, at);
    var mid := Run(st, Flatten(run, at));
    var node := CodeStretch(|st.blocks| + 1, at, Length(run), Top(st.stack));
    NodesOfStretch(run, rest, at, |st.blocks| + 1, Top(st.stack));
    if rest == [] {
      RunNothing(mid);
      NodesOfNothing(next, |st.blocks| + 2, Top(st.stack));
    } else {
      assert (run + rest)[|run|] == rest[0];
      SettledFirst(mid, rest, next);
      assert st.blocks + [node] + Nodes(rest, next, |st.blocks| + 2, Top(st.stack))
          == st.blocks + ([node] + Nodes(rest, next, |st.blocks| + 2, Top(st.stack)));
    }
  }

  lemma RunNothing(st: State)
    requires StackOk(st)
    ensures Run(st, []) == st
  {
  }

  lemma NodesOfNothing(at: nat, next: nat, outer: nat)
    ensures Nodes([], at, next, outer) == []
  {
  }

  lemma NodesOfNest(body: seq<Instr>, at: nat, next: nat, outer: nat)
    requires body != [] && body[0].Nest?
    ensures var inner := Nodes(body[0].body, at + body[0].size, next + 1, next);
            Nodes(body, at, next, outer) ==
            [TreeNode(next, body[0].kind, at, at + body[0].size + Length(body[0].body), outer)] + inner
            + Nodes(body[1..], at + Size(body[0]), next + 1 + |inner|, outer)
  {
  }

  lemma NodesOfStretch(run: seq<Instr>, rest: seq<Instr>, at: nat, next: nat, outer: nat)
    requires run != [] && RunLength(run + rest) == |run|
    ensures Nodes(run + rest, at, next, outer)
         == [CodeStretch(next, at, Length(run), outer)] + Nodes(rest, at + Length(run), next + 1, outer)
  {
    assert (run + rest)[0].Plain?;
    assert (run + rest)[..|run|] == run && (run + rest)[|run|..] == rest;
  }

  lemma InstrThenRest(st: State, body: seq<Instr>, at: nat)
    requires StackOk(st) && body != [] && body[0].Nest?
    requires var inner := Nodes(body[0].body, at + body[0].size, |st.blocks| + 2, |st.blocks| + 1);
             var node := TreeNode(|st.blocks| + 1, body[0].kind, at, at + body[0].size + Length(body[0].body),
                                  Top(st.stack));
             var mid := Built(st, [node] + inner);
             var next := at + Size(body[0]);
             && Run(st, Flat(body[0], at)) == mid
             && StackOk(mid) && StackOk(Run(mid, Flatten(body[1..], next)))
             && Settle(Run(mid, Flatten(body[1..], next)), next + Length(body[1..]))
                == Built(mid, Nodes(body[1..], next, |mid.blocks| + 1, Top(st.stack)))
    ensures StackOk(Run(st, Flatten(body, at)))
    ensures Settle(Run(st, Flatten(body, at)), at + Length(body))
         == Built(st, Nodes(body, at, |st.blocks| + 1, Top(st.stack)))
  {
    hide Step;
    hide Settle;
    hide Run;
    hide Nodes;
    hide Flat;
    hide Size;
    var inner := Nodes(body[0].body, at + body[0].size, |st.blocks| + 2, |st.blocks| + 1);
    var node := TreeNode(|st.blocks| + 1, body[0].kind, at, at + body[0].size + Length(body[0].body), Top(st.stack));
    var next := at + Size(body[0]);
    var tail := Nodes(body[1..], next, |st.blocks| + 2 + |inner|, Top(st.stack));
    RunAppend(st, Flat(body[0], at), Flatten(body[1..], next));
    NodesOfNest(body, at, |st.blocks| + 1, Top(st.stack));
    assert st.blocks + ([node] + inner) + tail == st.blocks + ([node] + inner + tail);
  }

  lemma {:induction false} InstrBuilds(st: State, i: Instr, at: nat)
    requires StackOk(st) && !st.codeOpen && SizedInstr(i) && Elses(i) == 0 && i.Nest?
    ensures Run(st, Flat(i, at)) ==
            Built(st, [TreeNode(|st.blocks| + 1, i.kind, at, at + i.size + Length(i.body), Top(st.stack))]
                      + Nodes(i.body, at + i.size, |st.blocks| + 2, |st.blocks| + 1))
    decreases i, 0
  {
    hide Run;
    hide Nodes;
    hide Flat;
    hide Flatten;
    hide Length;
    hide Step;
    hide Settle;
    hide Closing;
    var started := Opening(st, i.kind, at);
    var end := Located(at + i.size + Length(i.body), End);
    var inner := Flatten(i.body, at + i.size);
    FlatNest(i, at);
    RunOne(st, Located(at, Open(i.kind)), inner + [end]);
    StepOpen(st, i.kind, at);
    RunAppend(started, inner, [end]);
    BodyBuilds(started, i.body, at + i.size);
    var mid := Run(started, inner);
    RunLast(mid, end);
    StepEnd(mid, end.pos);
    CloseOuter(st, i.kind, at, Nodes(i.body, at + i.size, |st.blocks| + 2, |st.blocks| + 1), end.pos);
  }

  lemma FlatNest(i: Instr, at: nat)
    requires i.Nest?
    ensures Flat(i, at) == [Located(at, Open(i.kind))]
                           + (Flatten(i.body, at + i.size) + [Located(at + i.size + Length(i.body), End)])
  {
  }

  lemma StepOpen(st: State, kind: NodeType, pos: nat)
    requires StackOk(st) && !st.codeOpen
    ensures Step(st, Located(pos, Open(kind))) == Opening(st, kind, pos)
  {
  }

  lemma StepEnd(st: State, pos: nat)
    requires StackOk(st)
    ensures StackOk(Settle(st, pos)) && Step(st, Located(pos, End)) == Closing(Settle(st, pos), pos)
  {
  }

  lemma RunLast(st: State, l: Located)
    requires StackOk(st)
    ensures Run(st, [l]) == Step(st, l)
  {
    assert [l] + [] == [l];
    RunOne(st, l, []);
  }

  lemma CloseOuter(st: State, kind: NodeType, at: nat, inner: seq<TreeNode>, end: nat)
    requires StackOk(st) && !st.codeOpen
    ensures StackOk(Built(Opening(st, kind, at), inner))
    ensures Closing(Built(Opening(st, kind, at), inner), end)
         == Built(st, [TreeNode(|st.blocks| + 1, kind, at, end, Top(st.stack))] + inner)
  {
    var o := Built(Opening(st, kind, at), inner);
    assert o.stack[..|o.stack| - 1] == st.stack;
    var n := |st.blocks|;
    var node := TreeNode(n + 1, kind, at, end, Top(st.stack));
    assert o.blocks[n := node] == st.blocks + ([node] + inner);
  }

  /** The pass over a whole function: the assertion that the stack ends empty holds. */
  lemma FunctionBuilds(body: seq<Instr>, at: nat)
    requires Sized(body) && ElseCount(body) == 0
    ensures Run(Initial, FunctionOps(body, at)) == State([], Nodes(body, at, 1, 0), false)
  {
    hide Run;
    hide Step;
    hide Settle;
    hide Nodes;
    hide Flatten;
    hide Length;
    var end := Located(at + Length(body), End);
    RunAppend(Initial, Flatten(body, at), [end]);
    BodyBuilds(Initial, body, at);
    RunLast(Run(Initial, Flatten(body, at)), end);
    StepEnd(Run(Initial, Flatten(body, at)), end.pos);
    assert [] + Nodes(body, at, 1, 0) == Nodes(body, at, 1, 0);
  }

  lemma InitialOk()
    ensures StackOk(Initial)
  {
  }

  lemma StepKeeps(st: State, l: Located)
    requires StackOk(st)
    ensures StackOk(Step(st, l)) && StackOk(Settle(st, l.pos))
  {
  }

  /** The pass as it is written; `stackEmpty` is the assertion at its end. */
  method BuildBlockTree(ops: seq<Located>) returns (blocks: seq<TreeNode>, stackEmpty: bool)
    ensures blocks == Run(Initial, ops).blocks
    ensures stackEmpty == (Run(Initial, ops).stack == [])
  {
    hide Run;
    hide StackOk;
    hide Opening;
    hide Closing;
    var st := Initial;
    InitialOk();
    for i := 0 to |ops|
      invariant StackOk(st) && Run(st, ops[i..]) == Run(Initial, ops)
    {
      assert ops[i..] == [ops[i]] + ops[i + 1..];
      RunOne(st, ops[i], ops[i + 1..]);
      StepKeeps(st, ops[i]);
      var pos := ops[i].pos;
      if !ops[i].op.Simple? && st.codeOpen {
        // The open stretch ends one byte before the structured operator.
        st := Closing(st, if pos == 0 then 0 else pos - 1).(codeOpen := false);
      }
      match ops[i].op {
        case Open(kind) =>
          st := Opening(st, kind, pos);
        case Else =>
          st := Opening(st, ElseNode, pos);
        case End =>
          st := Closing(st, pos);
        case Simple(_) =>
          if !st.codeOpen {
            st := Opening(st, CodeNode, pos).(codeOpen := true);
          }
      }
    }
    RunNothing(st);
    return st.blocks, st.stack == [];
  }
}
