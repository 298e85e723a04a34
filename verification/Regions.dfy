/**
 wasm-migrate's regions: the nodes directly in the function body. For bodies without `else`
 they cut the body into consecutive pieces, and only for those.
 */
module Regions {
  import opened Common
  import opened BlockTree

  // ----- operators come in ascending positions -----

  ghost predicate Sorted(ops: seq<Located>) {
    forall i, j :: 0 <= i < j < |ops| ==> ops[i].pos < ops[j].pos
  }

  ghost predicate Spans(ops: seq<Located>, lo: nat, hi: nat) {
    forall i :: 0 <= i < |ops| ==> lo <= ops[i].pos < hi
  }

  lemma JoinSpans(a: seq<Located>, b: seq<Located>, lo: nat, mid: nat, hi: nat)
    requires Sorted(a) && Sorted(b) && Spans(a, lo, mid) && Spans(b, mid, hi) && lo <= mid <= hi
    ensures Sorted(a + b) && Spans(a + b, lo, hi)
  {
  }

  lemma {:induction false} FlattenSpans(body: seq<Instr>, at: nat)
    requires Sized(body)
    ensures Sorted(Flatten(body, at)) && Spans(Flatten(body, at), at, at + Length(body))
    decreases body, 1
  {
    if body != [] {
      assert SizedInstr(body[0]);
      FlatSpans(body[0], at);
      FlattenSpans(body[1..], at + Size(body[0]));
      JoinSpans(Flat(body[0], at), Flatten(body[1..], at + Size(body[0])), at, at + Size(body[0]), at + Length(body));
    }
  }

  lemma OneSpans(l: Located, hi: nat)
    requires l.pos < hi
    ensures Sorted([l]) && Spans([l], l.pos, hi)
  {
  }

  lemma {:induction false} FlatSpans(i: Instr, at: nat)
    requires SizedInstr(i)
    ensures Sorted(Flat(i, at)) && Spans(Flat(i, at), at, at + Size(i))
    decreases i, 0
  {
    hide Flatten;
    hide Length;
    hide Sorted;
    hide Spans;
    match i
    case Plain(op, size) =>
      OneSpans(Located(at, Simple(op)), at + size);
    case Nest(kind, size, body) =>
      var first, inner := [Located(at, Open(kind))], Flatten(body, at + size);
      var end := at + size + Length(body);
      FlattenSpans(body, at + size);
      OneSpans(first[0], at + size);
      OneSpans(Located(end, End), end + 1);
      JoinSpans(first, inner, at, at + size, end);
      JoinSpans(first + inner, [Located(end, End)], at, end, end + 1);
    case IfElse(size, body, otherwise) =>
      var first, inner := [Located(at, Open(IfNode))], Flatten(body, at + size);
      var mid := at + size + Length(body);
      var second, end := Flatten(otherwise, mid + 1), mid + 1 + Length(otherwise);
      FlattenSpans(body, at + size);
      FlattenSpans(otherwise, mid + 1);
      OneSpans(first[0], at + size);
      OneSpans(Located(mid, Else), mid + 1);
      OneSpans(Located(end, End), end + 1);
      JoinSpans(first, inner, at, at + size, mid);
      JoinSpans(first + inner, [Located(mid, Else)], at, mid, mid + 1);
      JoinSpans(first + inner + [Located(mid, Else)], second, at, mid + 1, end);
      JoinSpans(first + inner + [Located(mid, Else)] + second, [Located(end, End)], at, end, end + 1);
  }

  lemma FunctionOpsSpan(body: seq<Instr>, at: nat)
    requires Sized(body)
    ensures Sorted(FunctionOps(body, at)) && Spans(FunctionOps(body, at), at, at + Length(body) + 1)
  {
    var end := at + Length(body);
    FlattenSpans(body, at);
    JoinSpans(Flatten(body, at), [Located(end, End)], at, end, end + 1);
  }

  // ----- printing the operators of one node -----

  /** The operators at positions `lo` up to, but not including, `hi`. */
  function Slice(ops: seq<Located>, lo: nat, hi: nat): seq<Located> {
    if ops == [] then []
    else (if lo <= ops[0].pos < hi then [ops[0]] else []) + Slice(ops[1..], lo, hi)
  }

  lemma {:induction false} SliceNone(ops: seq<Located>, lo: nat, hi: nat)
    requires forall i :: 0 <= i < |ops| ==> ops[i].pos < lo || hi <= ops[i].pos
    ensures Slice(ops, lo, hi) == []
  {
    if ops != [] {
      SliceNone(ops[1..], lo, hi);
    }
  }

  lemma {:induction false} SliceAll(ops: seq<Located>, lo: nat, hi: nat)
    requires Spans(ops, lo, hi)
    ensures Slice(ops, lo, hi) == ops
  {
    if ops != [] {
      SliceAll(ops[1..], lo, hi);
    }
  }

  lemma {:induction false} SliceAppend(a: seq<Located>, b: seq<Located>, lo: nat, hi: nat)
    ensures Slice(a + b, lo, hi) == Slice(a, lo, hi) + Slice(b, lo, hi)
  {
    if a == [] {
      assert a + b == b;
    } else {
      assert (a + b)[1..] == a[1..] + b;
      SliceAppend(a[1..], b, lo, hi);
    }
  }

  /** Neighbouring slices of sorted operators join without loss or overlap. */
  lemma {:induction false} SliceJoins(ops: seq<Located>, lo: nat, mid: nat, hi: nat)
    requires Sorted(ops) && lo <= mid <= hi
    ensures Slice(ops, lo, mid) + Slice(ops, mid, hi) == Slice(ops, lo, hi)
  {
    if ops != [] {
      SliceJoins(ops[1..], lo, mid, hi);
      if mid <= ops[0].pos {
        SliceNone(ops[1..], lo, mid);
      }
    }
  }

  lemma SliceNext(ops: seq<Located>, i: nat, lo: nat, hi: nat)
    requires i < |ops|
    ensures Slice(ops[..i + 1], lo, hi) == Slice(ops[..i], lo, hi) + if lo <= ops[i].pos < hi then [ops[i]] else []
  {
    assert ops[..i + 1] == ops[..i] + [ops[i]];
    SliceAppend(ops[..i], [ops[i]], lo, hi);
  }

  lemma {:induction false} SliceHas(ops: seq<Located>, lo: nat, hi: nat, k: nat)
    requires k < |ops| && lo <= ops[k].pos < hi
    ensures ops[k] in Slice(ops, lo, hi)
  {
    if k > 0 {
      SliceHas(ops[1..], lo, hi, k - 1);
    }
  }

  /** Two functions are imported in front, so calls to the module's own functions shift. */
  function Shift(op: FlatOp, imports: nat): FlatOp {
    match op
    case Simple(Call(f)) => if f >= imports then Simple(Call(f + 2)) else op
    case Simple(ReturnCall(f)) => if f >= imports then Simple(ReturnCall(f + 2)) else op
    case _ => op
  }

  /** The function that an operator calls, if it does. */
  function Callee(op: FlatOp): Option<nat> {
    match op
    case Simple(Call(f)) => Some(f)
    case Simple(ReturnCall(f)) => Some(f)
    case _ => None
  }

  /** With two functions more after the imported ones, every call is still of the same function. */
  lemma ShiftedCallsSame<T>(funcs: seq<T>, imports: nat, first: T, second: T, op: FlatOp)
    requires imports <= |funcs| && (Callee(op).Some? ==> Callee(op).value < |funcs|)
    ensures var now, shifted := funcs[..imports] + [first, second] + funcs[imports..], Shift(op, imports);
            && (Callee(op).None? ==> shifted == op)
            && (Callee(op).Some? ==>
                  && Callee(shifted).Some? && Callee(shifted).value < |now|
                  && now[Callee(shifted).value] == funcs[Callee(op).value]
                  && Callee(shifted).value !in {imports, imports + 1}
                  && (op.op.Call? <==> shifted.op.Call?))
  {
  }

  function ShiftAll(ops: seq<Located>, imports: nat): seq<FlatOp> {
    seq(|ops|, i requires 0 <= i < |ops| => Shift(ops[i].op, imports))
  }

  /** Everything from the start of the node to its end, in one scan that stops after it. */
  method PrintBlockInstructions(ops: seq<Located>, block: TreeNode, imports: nat) returns (insts: seq<FlatOp>)
    requires Sorted(ops)
    ensures insts == ShiftAll(Slice(ops, block.start, block.end + 1), imports)
  {
    hide Shift;
    insts := [];
    assert ops[..0] == [];
    var i := 0;
    while i < |ops|
      invariant 0 <= i <= |ops|
      invariant insts == ShiftAll(Slice(ops[..i], block.start, block.end + 1), imports)
    {
      SliceNext(ops, i, block.start, block.end + 1);
      if ops[i].pos <= block.end {
        if ops[i].pos >= block.start {
          insts := insts + [Shift(ops[i].op, imports)];
        }
      } else {
        break;
      }
      i := i + 1;
    }
    assert ops == ops[..i] + ops[i..];
    SliceAppend(ops[..i], ops[i..], block.start, block.end + 1);
    SliceNone(ops[i..], block.start, block.end + 1);
  }

  // ----- the nodes directly in the body -----

  /** The checkpoint list: the nodes outside any other, in order. */
  function TopLevel(nodes: seq<TreeNode>): seq<TreeNode> {
    if nodes == [] then []
    else (if nodes[0].outer == 0 then [nodes[0]] else []) + TopLevel(nodes[1..])
  }

  lemma {:induction false} TopLevelAppend(a: seq<TreeNode>, b: seq<TreeNode>)
    ensures TopLevel(a + b) == TopLevel(a) + TopLevel(b)
  {
    if a == [] {
      assert a + b == b;
    } else {
      assert (a + b)[0] == a[0] && (a + b)[1..] == a[1..] + b;
      TopLevelAppend(a[1..], b);
      var head := if a[0].outer == 0 then [a[0]] else [];
      assert head + TopLevel(a[1..]) + TopLevel(b) == head + (TopLevel(a[1..]) + TopLevel(b));
    }
  }

  method GenerateCheckpointList(blocks: seq<TreeNode>) returns (list: seq<nat>)
    requires forall k :: 0 <= k < |blocks| ==> blocks[k].index == k + 1
    ensures |list| == |TopLevel(blocks)|
    ensures forall k :: 0 <= k < |list| ==> 1 <= list[k] <= |blocks| && blocks[list[k] - 1] == TopLevel(blocks)[k]
  {
    list := [];
    assert blocks[..0] == [];
    for i := 0 to |blocks|
      invariant |list| == |TopLevel(blocks[..i])|
      invariant forall k :: 0 <= k < |list| ==> 1 <= list[k] <= i && blocks[list[k] - 1] == TopLevel(blocks[..i])[k]
    {
      assert blocks[..i + 1] == blocks[..i] + [blocks[i]];
      TopLevelAppend(blocks[..i], [blocks[i]]);
      if blocks[i].outer == 0 {
        list := list + [blocks[i].index];
      }
    }
    assert blocks[..|blocks|] == blocks;
  }

  /** Nodes are numbered from 1 in the order they are opened. */
  lemma {:induction false} NodesNumbered(body: seq<Instr>, at: nat, next: nat, outer: nat)
    ensures forall k :: 0 <= k < |Nodes(body, at, next, outer)| ==> Nodes(body, at, next, outer)[k].index == next + k
    decreases body
  {
    if body != [] && body[0].Plain? {
      var n := RunLength(body);
      NodesNumbered(body[n..], at + Length(body[..n]), next + 1, outer);
    } else if body != [] && body[0].Nest? {
      var inner := Nodes(body[0].body, at + body[0].size, next + 1, next);
      NodesNumbered(body[0].body, at + body[0].size, next + 1, next);
      NodesNumbered(body[1..], at + Size(body[0]), next + 1 + |inner|, outer);
    }
  }

  lemma NodesOfRun(body: seq<Instr>, at: nat, next: nat, outer: nat)
    requires body != [] && body[0].Plain?
    ensures var n := RunLength(body);
            && 0 < n <= |body|
            && Nodes(body, at, next, outer) ==
               [CodeStretch(next, at, Length(body[..n]), outer)]
               + Nodes(body[n..], at + Length(body[..n]), next + 1, outer)
  {
  }

  lemma StretchOuter(index: nat, at: nat, len: nat, outer: nat)
    ensures CodeStretch(index, at, len, outer).outer == outer
  {
  }

  lemma TopLevelHead(node: TreeNode, rest: seq<TreeNode>)
    ensures TopLevel([node] + rest) == (if node.outer == 0 then [node] else []) + TopLevel(rest)
  {
    assert ([node] + rest)[1..] == rest;
  }

  lemma TopLevelNested(node: TreeNode, inner: seq<TreeNode>, rest: seq<TreeNode>)
    requires TopLevel(inner) == []
    ensures TopLevel([node] + inner + rest) == (if node.outer == 0 then [node] else []) + TopLevel(rest)
  {
    assert [node] + inner + rest == [node] + (inner + rest);
    TopLevelHead(node, inner + rest);
    TopLevelAppend(inner, rest);
  }

  /** Inside a node nothing is top level. */
  lemma {:induction false} InnerNotTop(body: seq<Instr>, at: nat, next: nat, outer: nat)
    requires next >= 1 && outer >= 1
    ensures TopLevel(Nodes(body, at, next, outer)) == []
    decreases body
  {
    hide Length;
    hide Size;
    hide TopLevel;
    hide Nodes;
    if body == [] || body[0].IfElse? {
      NoNodes(body, at, next, outer);
    } else if body[0].Plain? {
      var n := RunLength(body);
      NodesOfRun(body, at, next, outer);
      InnerNotTop(body[n..], at + Length(body[..n]), next + 1, outer);
      TopLevelHead(CodeStretch(next, at, Length(body[..n]), outer),
                   Nodes(body[n..], at + Length(body[..n]), next + 1, outer));
    } else {
      NodesOfNest(body, at, next, outer);
      var inner := Nodes(body[0].body, at + body[0].size, next + 1, next);
      InnerNotTop(body[0].body, at + body[0].size, next + 1, next);
      InnerNotTop(body[1..], at + Size(body[0]), next + 1 + |inner|, outer);
      TopLevelNested(TreeNode(next, body[0].kind, at, at + body[0].size + Length(body[0].body), outer), inner,
                     Nodes(body[1..], at + Size(body[0]), next + 1 + |inner|, outer));
    }
  }

  lemma NoNodes(body: seq<Instr>, at: nat, next: nat, outer: nat)
    requires body == [] || body[0].IfElse?
    ensures Nodes(body, at, next, outer) == [] && TopLevel([]) == []
  {
  }

  /** The regions of an else-free body. */
  function RegionNodes(body: seq<Instr>, at: nat, next: nat): seq<TreeNode> {
    if body == [] then []
    else if body[0].Plain? then
      var n := RunLength(body);
      [CodeStretch(next, at, Length(body[..n]), 0)] + RegionNodes(body[n..], at + Length(body[..n]), next + 1)
    else if body[0].Nest? then
      [TreeNode(next, body[0].kind, at, at + body[0].size + Length(body[0].body), 0)]
      + RegionNodes(body[1..], at + Size(body[0]),
                    next + 1 + |Nodes(body[0].body, at + body[0].size, next + 1, next)|)
    else []
  }

  lemma {:induction false} TopLevelIsRegions(body: seq<Instr>, at: nat, next: nat)
    requires next >= 1
    ensures TopLevel(Nodes(body, at, next, 0)) == RegionNodes(body, at, next)
    decreases body
  {
    hide Length;
    hide Size;
    hide TopLevel;
    hide Nodes;
    hide CodeStretch;
    if body == [] || body[0].IfElse? {
      NoNodes(body, at, next, 0);
    } else if body[0].Plain? {
      var n := RunLength(body);
      NodesOfRun(body, at, next, 0);
      TopLevelIsRegions(body[n..], at + Length(body[..n]), next + 1);
      assert CodeStretch(next, at, Length(body[..n]), 0).outer == 0 by { StretchOuter(next, at, Length(body[..n]), 0); }
      TopLevelHead(CodeStretch(next, at, Length(body[..n]), 0),
                   Nodes(body[n..], at + Length(body[..n]), next + 1, 0));
    } else {
      NodesOfNest(body, at, next, 0);
      var inner := Nodes(body[0].body, at + body[0].size, next + 1, next);
      InnerNotTop(body[0].body, at + body[0].size, next + 1, next);
      TopLevelIsRegions(body[1..], at + Size(body[0]), next + 1 + |inner|);
      TopLevelNested(TreeNode(next, body[0].kind, at, at + body[0].size + Length(body[0].body), 0), inner,
                     Nodes(body[1..], at + Size(body[0]), next + 1 + |inner|, 0));
    }
  }

  // ----- the regions tile the body -----

  ghost predicate Tiles(nodes: seq<TreeNode>, lo: nat, hi: nat) {
    if nodes == [] then lo == hi
    else nodes[0].start == lo && lo <= nodes[0].end < hi && Tiles(nodes[1..], nodes[0].end + 1, hi)
  }

  lemma TilesHead(node: TreeNode, rest: seq<TreeNode>, hi: nat)
    requires node.start <= node.end && Tiles(rest, node.end + 1, hi)
    ensures Tiles([node] + rest, node.start, hi)
  {
    assert ([node] + rest)[1..] == rest;
    TilesFit(rest, node.end + 1, hi);
  }

  lemma RegionsOfRun(body: seq<Instr>, at: nat, next: nat)
    requires body != [] && body[0].Plain? && Sized(body) && ElseCount(body) == 0
    ensures var n := RunLength(body);
            var len := Length(body[..n]);
            && 1 <= n <= |body| && len >= 1
            && Sized(body[n..]) && ElseCount(body[n..]) == 0
            && Length(body) == len + Length(body[n..])
            && RegionNodes(body, at, next) ==
               [CodeStretch(next, at, len, 0)] + RegionNodes(body[n..], at + len, next + 1)
  {
    hide Nodes;
    var n := RunLength(body);
    assert body == body[..n] + body[n..];
    LengthAppend(body[..n], body[n..]);
    ElseCountAppend(body[..n], body[n..]);
    LengthPositive(body[..n]);
  }

  lemma RegionsOfNest(body: seq<Instr>, at: nat, next: nat)
    requires body != [] && body[0].Nest? && Sized(body) && ElseCount(body) == 0
    ensures Sized(body[1..]) && ElseCount(body[1..]) == 0 && body[0].size >= 1
    ensures Size(body[0]) == body[0].size + Length(body[0].body) + 1
    ensures Length(body) == Size(body[0]) + Length(body[1..])
    ensures RegionNodes(body, at, next) ==
            [TreeNode(next, body[0].kind, at, at + body[0].size + Length(body[0].body), 0)]
            + RegionNodes(body[1..], at + Size(body[0]),
                          next + 1 + |Nodes(body[0].body, at + body[0].size, next + 1, next)|)
  {
    hide Nodes;
    assert SizedInstr(body[0]);
  }

  lemma {:induction false} RegionsTile(body: seq<Instr>, at: nat, next: nat)
    requires Sized(body) && ElseCount(body) == 0
    ensures Tiles(RegionNodes(body, at, next), at, at + Length(body))
    decreases body
  {
    hide Nodes;
    hide RegionNodes;
    hide Tiles;
    hide Length;
    hide Size;
    hide ElseCount;
    hide Sized;
    if body == [] {
      NothingTiles(at, next);
    } else if body[0].Plain? {
      RegionsOfRun(body, at, next);
      var n := RunLength(body);
      var len := Length(body[..n]);
      RegionsTile(body[n..], at + len, next + 1);
      TilesHead(CodeStretch(next, at, len, 0), RegionNodes(body[n..], at + len, next + 1), at + Length(body));
    } else {
      NoElseFirst(body);
      RegionsOfNest(body, at, next);
      var node := TreeNode(next, body[0].kind, at, at + body[0].size + Length(body[0].body), 0);
      var after := next + 1 + |Nodes(body[0].body, at + body[0].size, next + 1, next)|;
      RegionsTile(body[1..], at + Size(body[0]), after);
      TilesHead(node, RegionNodes(body[1..], at + Size(body[0]), after), at + Length(body));
    }
  }

  lemma NothingTiles(at: nat, next: nat)
    ensures Tiles(RegionNodes([], at, next), at, at + Length([]))
  {
  }

  lemma NoElseFirst(body: seq<Instr>)
    requires body != [] && ElseCount(body) == 0
    ensures !body[0].IfElse?
  {
  }

  lemma LengthPositive(run: seq<Instr>)
    requires Sized(run) && run != []
    ensures Length(run) >= 1
  {
    assert SizedInstr(run[0]);
  }

  lemma {:induction false} TilesFit(nodes: seq<TreeNode>, lo: nat, hi: nat)
    requires Tiles(nodes, lo, hi)
    ensures lo <= hi
  {
    if nodes != [] {
      TilesFit(nodes[1..], nodes[0].end + 1, hi);
    }
  }

  function SliceEach(ops: seq<Located>, nodes: seq<TreeNode>): seq<Located> {
    if nodes == [] then []
    else Slice(ops, nodes[0].start, nodes[0].end + 1) + SliceEach(ops, nodes[1..])
  }

  lemma {:induction false} TilesSlice(ops: seq<Located>, nodes: seq<TreeNode>, lo: nat, hi: nat)
    requires Sorted(ops) && Tiles(nodes, lo, hi)
    ensures SliceEach(ops, nodes) == Slice(ops, lo, hi)
  {
    if nodes == [] {
      SliceNone(ops, lo, hi);
    } else {
      TilesSlice(ops, nodes[1..], nodes[0].end + 1, hi);
      TilesFit(nodes[1..], nodes[0].end + 1, hi);
      SliceJoins(ops, lo, nodes[0].end + 1, hi);
    }
  }

  /** The regions of an else-free body hold all its operators but the last `end`, each once. */
  lemma RegionsHoldBody(body: seq<Instr>, at: nat)
    requires Sized(body) && ElseCount(body) == 0
    ensures Run(Initial, FunctionOps(body, at)).stack == []
    ensures TopLevel(Run(Initial, FunctionOps(body, at)).blocks) == RegionNodes(body, at, 1)
    ensures SliceEach(FunctionOps(body, at), RegionNodes(body, at, 1)) == Flatten(body, at)
  {
    hide Run;
    hide Nodes;
    hide TopLevel;
    hide RegionNodes;
    hide Tiles;
    hide SliceEach;
    hide Slice;
    hide Flatten;
    hide Length;
    hide ElseCount;
    FunctionBuilds(body, at);
    TopLevelIsRegions(body, at, 1);
    FunctionOpsSpan(body, at);
    FlattenSpans(body, at);
    RegionsTile(body, at, 1);
    var ops, end := FunctionOps(body, at), at + Length(body);
    TilesSlice(ops, RegionNodes(body, at, 1), at, end);
    SliceAppend(Flatten(body, at), [Located(end, End)], at, end);
    SliceAll(Flatten(body, at), at, end);
    SliceNone([Located(end, End)], at, end);
  }

  lemma {:induction false} ShiftEach(ops: seq<Located>, nodes: seq<TreeNode>, imports: nat)
    ensures ShiftAll(SliceEach(ops, nodes), imports) == PrintEach(ops, nodes, imports)
  {
    if nodes != [] {
      ShiftEach(ops, nodes[1..], imports);
    }
  }

  /** What is printed region after region. */
  function PrintEach(ops: seq<Located>, nodes: seq<TreeNode>, imports: nat): seq<FlatOp> {
    if nodes == [] then []
    else ShiftAll(Slice(ops, nodes[0].start, nodes[0].end + 1), imports) + PrintEach(ops, nodes[1..], imports)
  }

  /** Printing the regions one after the other prints the body, up to the shift of calls. */
  lemma PrintedRegionsAreBody(body: seq<Instr>, at: nat, imports: nat)
    requires Sized(body) && ElseCount(body) == 0
    ensures PrintEach(FunctionOps(body, at), TopLevel(Run(Initial, FunctionOps(body, at)).blocks), imports)
         == ShiftAll(Flatten(body, at), imports)
  {
    RegionsHoldBody(body, at);
    ShiftEach(FunctionOps(body, at), RegionNodes(body, at, 1), imports);
  }

  // ----- nesting -----

  predicate Inside(n: TreeNode, o: TreeNode) {
    o.start < n.start && n.end < o.end
  }

  /** Nodes in the order they are opened: later ones lie inside or behind earlier ones. */
  ghost predicate WellNested(nodes: seq<TreeNode>) {
    forall j, k :: 0 <= j < k < |nodes| ==> nodes[j].end < nodes[k].start || Inside(nodes[k], nodes[j])
  }

  ghost predicate Within(nodes: seq<TreeNode>, lo: nat, hi: nat) {
    forall k :: 0 <= k < |nodes| ==> lo <= nodes[k].start <= nodes[k].end < hi
  }

  /** A node not directly under `outer` lies in the node it names, which was opened before. */
  ghost predicate Parented(nodes: seq<TreeNode>, next: nat, outer: nat) {
    forall k :: 0 <= k < |nodes| && nodes[k].outer != outer ==>
      next <= nodes[k].outer < next + k && Inside(nodes[k], nodes[nodes[k].outer - next])
  }

  lemma FirstThenRest(node: TreeNode, rest: seq<TreeNode>, lo: nat, hi: nat, next: nat)
    requires lo <= node.start <= node.end < hi && WellNested(rest) && Within(rest, node.end + 1, hi)
    requires Parented(rest, next + 1, node.outer)
    ensures WellNested([node] + rest) && Within([node] + rest, lo, hi) && Parented([node] + rest, next, node.outer)
  {
    var all := [node] + rest;
    forall k | 0 <= k < |all| && all[k].outer != node.outer
      ensures next <= all[k].outer < next + k && Inside(all[k], all[all[k].outer - next])
    {
      assert all[k] == rest[k - 1];
      assert all[all[k].outer - next] == rest[rest[k - 1].outer - (next + 1)];
    }
  }

  lemma FirstAroundInner(node: TreeNode, inner: seq<TreeNode>, lo: nat, next: nat)
    requires node.start < lo && node.start <= node.end && WellNested(inner) && Within(inner, lo, node.end)
    requires Parented(inner, next + 1, next) && node.outer < next
    ensures WellNested([node] + inner) && Within([node] + inner, node.start, node.end + 1)
    ensures Parented([node] + inner, next, node.outer)
  {
    hide Parented;
    FirstIsParent(node, inner, lo, next);
  }

  lemma FirstIsParent(node: TreeNode, inner: seq<TreeNode>, lo: nat, next: nat)
    requires node.start < lo && Within(inner, lo, node.end) && Parented(inner, next + 1, next) && node.outer < next
    ensures Parented([node] + inner, next, node.outer)
  {
    var all := [node] + inner;
    forall k | 0 <= k < |all| && all[k].outer != node.outer
      ensures next <= all[k].outer < next + k && Inside(all[k], all[all[k].outer - next])
    {
      assert all[k] == inner[k - 1];
      if inner[k - 1].outer != next {
        assert all[all[k].outer - next] == inner[inner[k - 1].outer - (next + 1)];
      }
    }
  }

  lemma OneAfterOther(a: seq<TreeNode>, b: seq<TreeNode>, lo: nat, mid: nat, hi: nat, next: nat, outer: nat)
    requires WellNested(a) && Within(a, lo, mid) && Parented(a, next, outer)
    requires WellNested(b) && Within(b, mid, hi) && Parented(b, next + |a|, outer) && lo <= mid <= hi
    ensures WellNested(a + b) && Within(a + b, lo, hi) && Parented(a + b, next, outer)
  {
    var all := a + b;
    forall k | 0 <= k < |all| && all[k].outer != outer
      ensures next <= all[k].outer < next + k && Inside(all[k], all[all[k].outer - next])
    {
      if k < |a| {
        assert all[k] == a[k] && all[a[k].outer - next] == a[a[k].outer - next];
      } else {
        assert all[k] == b[k - |a|];
        assert all[all[k].outer - next] == b[all[k].outer - (next + |a|)];
      }
    }
  }

  /** The nodes of an else-free body nest like its blocks, all inside its bytes. */
  lemma {:induction false} NodesWellNested(body: seq<Instr>, at: nat, next: nat, outer: nat)
    requires Sized(body) && ElseCount(body) == 0 && outer < next
    ensures WellNested(Nodes(body, at, next, outer))
    ensures Within(Nodes(body, at, next, outer), at, at + Length(body))
    ensures Parented(Nodes(body, at, next, outer), next, outer)
    decreases body
  {
    hide Nodes;
    hide RegionNodes;
    hide Length;
    hide Size;
    hide ElseCount;
    hide Sized;
    hide WellNested;
    hide Within;
    hide Parented;
    if body == [] {
      NothingNested(at, next, outer);
    } else if body[0].Plain? {
      RegionsOfRun(body, at, next);
      NodesOfRun(body, at, next, outer);
      var n := RunLength(body);
      var len := Length(body[..n]);
      NodesWellNested(body[n..], at + len, next + 1, outer);
      FirstThenRest(CodeStretch(next, at, len, outer), Nodes(body[n..], at + len, next + 1, outer),
                    at, at + Length(body), next);
    } else {
      NoElseFirst(body);
      RegionsOfNest(body, at, next);
      NodesOfNest(body, at, next, outer);
      InsideNest(body);
      var inner := Nodes(body[0].body, at + body[0].size, next + 1, next);
      var node := TreeNode(next, body[0].kind, at, at + body[0].size + Length(body[0].body), outer);
      NodesWellNested(body[0].body, at + body[0].size, next + 1, next);
      NodesWellNested(body[1..], at + Size(body[0]), next + 1 + |inner|, outer);
      FirstAroundInner(node, inner, at + body[0].size, next);
      OneAfterOther([node] + inner, Nodes(body[1..], at + Size(body[0]), next + 1 + |inner|, outer),
                    at, at + Size(body[0]), at + Length(body), next, outer);
    }
  }

  lemma NothingNested(at: nat, next: nat, outer: nat)
    ensures WellNested(Nodes([], at, next, outer))
    ensures Within(Nodes([], at, next, outer), at, at + Length([]))
    ensures Parented(Nodes([], at, next, outer), next, outer)
  {
  }

  lemma InsideNest(body: seq<Instr>)
    requires body != [] && body[0].Nest? && Sized(body) && ElseCount(body) == 0
    ensures Sized(body[0].body) && ElseCount(body[0].body) == 0
  {
    assert SizedInstr(body[0]);
  }
}
