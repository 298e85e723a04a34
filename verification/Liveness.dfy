/**
 wasm-migrate's liveness: which locals each region writes and reads, and which of them must be
 saved at the end of a region.
 */
module Liveness {
  import opened Common
  import opened BlockTree
  import opened Regions

  // ----- locals written and read -----

  predicate Writes(op: FlatOp, x: nat) {
    op == Simple(LocalSet(x)) || op == Simple(LocalTee(x))
  }

  predicate Reads(op: FlatOp, x: nat) {
    op == Simple(LocalGet(x))
  }

  function WrittenBy(op: FlatOp): (s: set<nat>)
    ensures forall x: nat :: x in s <==> Writes(op, x)
  {
    match op
    case Simple(LocalSet(x)) => {x}
    case Simple(LocalTee(x)) => {x}
    case _ => {}
  }

  function ReadBy(op: FlatOp): (s: set<nat>)
    ensures forall x: nat :: x in s <==> Reads(op, x)
  {
    match op
    case Simple(LocalGet(x)) => {x}
    case _ => {}
  }

  function WritesIn(ops: seq<Located>): set<nat> {
    if ops == [] then {} else WrittenBy(ops[0].op) + WritesIn(ops[1..])
  }

  function ReadsIn(ops: seq<Located>): set<nat> {
    if ops == [] then {} else ReadBy(ops[0].op) + ReadsIn(ops[1..])
  }

  lemma {:induction false} LocalsInAppend(a: seq<Located>, b: seq<Located>)
    ensures WritesIn(a + b) == WritesIn(a) + WritesIn(b)
    ensures ReadsIn(a + b) == ReadsIn(a) + ReadsIn(b)
  {
    if a == [] {
      assert a + b == b;
    } else {
      assert (a + b)[0] == a[0] && (a + b)[1..] == a[1..] + b;
      LocalsInAppend(a[1..], b);
    }
  }

  lemma {:induction false} WrittenSomewhere(ops: seq<Located>, x: nat)
    ensures x in WritesIn(ops) <==> exists l :: l in ops && Writes(l.op, x)
  {
    if ops != [] {
      WrittenSomewhere(ops[1..], x);
      if exists l :: l in ops && Writes(l.op, x) {
        var l :| l in ops && Writes(l.op, x);
        assert l == ops[0] || l in ops[1..];
      }
    }
  }

  lemma {:induction false} ReadSomewhere(ops: seq<Located>, x: nat)
    ensures x in ReadsIn(ops) <==> exists l :: l in ops && Reads(l.op, x)
  {
    if ops != [] {
      ReadSomewhere(ops[1..], x);
      if exists l :: l in ops && Reads(l.op, x) {
        var l :| l in ops && Reads(l.op, x);
        assert l == ops[0] || l in ops[1..];
      }
    }
  }

  lemma {:induction false} InSlice(ops: seq<Located>, lo: nat, hi: nat, l: Located)
    ensures l in Slice(ops, lo, hi) <==> l in ops && lo <= l.pos < hi
  {
    if ops != [] {
      InSlice(ops[1..], lo, hi, l);
    }
  }

  // ----- what a scan decodes -----

  /** Where a scan stops and what it reads there; not all bytes are the start of an operator. */
  datatype Scanned = Scanned(pos: nat, op: Option<FlatOp>)

  ghost predicate Ascending(scan: seq<Scanned>) {
    forall i, j :: 0 <= i < j < |scan| ==> scan[i].pos < scan[j].pos
  }

  /** The operators a scan can read. */
  function Readable(scan: seq<Scanned>): seq<Located> {
    if scan == [] then []
    else
      var last := scan[|scan| - 1];
      Readable(scan[..|scan| - 1]) + if last.op.Some? then [Located(last.pos, last.op.value)] else []
  }

  /** Some position of the range holds no operator. */
  ghost predicate Garbled(scan: seq<Scanned>, block: TreeNode) {
    exists i :: 0 <= i < |scan| && block.start <= scan[i].pos < block.end && scan[i].op.None?
  }

  lemma {:induction false} ReadableHas(scan: seq<Scanned>, l: Located)
    ensures l in Readable(scan) <==> Scanned(l.pos, Some(l.op)) in scan
  {
    if scan != [] {
      var n := |scan| - 1;
      ReadableHas(scan[..n], l);
      assert scan == scan[..n] + [scan[n]];
    }
  }

  // ----- one scan per region -----

  /**
   What the region writes: a scan from its start up to, but not including, its end position.
   Bytes of the region that are no operator are fatal.
   */
  method RegionWrites(scan: seq<Scanned>, block: TreeNode) returns (r: Option<set<nat>>)
    requires Ascending(scan)
    ensures r.None? <==> Garbled(scan, block)
    ensures r.Some? ==> r.value == WritesIn(Slice(Readable(scan), block.start, block.end))
  {
    hide Slice;
    hide WritesIn;
    hide Readable;
    var found: set<nat> := {};
    var i := 0;
    NothingScanned(scan, block.start, block.end);
    while i < |scan|
      invariant 0 <= i <= |scan| && !Garbled(scan[..i], block)
      invariant found == WritesIn(Slice(Readable(scan[..i]), block.start, block.end))
    {
      ScanNext(scan, i, block);
      if scan[i].pos < block.end {
        if scan[i].pos >= block.start {
          if scan[i].op.None? {
            return None;
          }
          found := found + WrittenBy(scan[i].op.value);
        }
      } else {
        break;
      }
      i := i + 1;
    }
    RestNotScanned(scan, i, block);
    return Some(found);
  }

  /** What the region reads, by the same kind of scan. */
  method RegionReads(scan: seq<Scanned>, block: TreeNode) returns (r: Option<set<nat>>)
    requires Ascending(scan)
    ensures r.None? <==> Garbled(scan, block)
    ensures r.Some? ==> r.value == ReadsIn(Slice(Readable(scan), block.start, block.end))
  {
    hide Slice;
    hide ReadsIn;
    hide Readable;
    var found: set<nat> := {};
    var i := 0;
    NothingScanned(scan, block.start, block.end);
    while i < |scan|
      invariant 0 <= i <= |scan| && !Garbled(scan[..i], block)
      invariant found == ReadsIn(Slice(Readable(scan[..i]), block.start, block.end))
    {
      ScanNext(scan, i, block);
      if scan[i].pos < block.end {
        if scan[i].pos >= block.start {
          if scan[i].op.None? {
            return None;
          }
          found := found + ReadBy(scan[i].op.value);
        }
      } else {
        break;
      }
      i := i + 1;
    }
    RestNotScanned(scan, i, block);
    return Some(found);
  }

  lemma NothingScanned(scan: seq<Scanned>, lo: nat, hi: nat)
    ensures WritesIn(Slice(Readable(scan[..0]), lo, hi)) == {} && ReadsIn(Slice(Readable(scan[..0]), lo, hi)) == {}
  {
  }

  lemma ReadableNext(scan: seq<Scanned>, i: nat)
    requires i < |scan|
    ensures Readable(scan[..i + 1])
         == if scan[i].op.Some? then Readable(scan[..i]) + [Located(scan[i].pos, scan[i].op.value)]
            else Readable(scan[..i])
  {
    assert scan[..i + 1][..i] == scan[..i];
  }

  lemma LocalsInOne(l: Located)
    ensures WritesIn([l]) == WrittenBy(l.op) && ReadsIn([l]) == ReadBy(l.op)
  {
  }

  lemma ScanNext(scan: seq<Scanned>, i: nat, block: TreeNode)
    requires i < |scan|
    ensures var before, after := Slice(Readable(scan[..i]), block.start, block.end),
                                 Slice(Readable(scan[..i + 1]), block.start, block.end);
            if block.start <= scan[i].pos < block.end && scan[i].op.Some? then
              && WritesIn(after) == WritesIn(before) + WrittenBy(scan[i].op.value)
              && ReadsIn(after) == ReadsIn(before) + ReadBy(scan[i].op.value)
            else after == before
    ensures block.start <= scan[i].pos < block.end && scan[i].op.None? ==> Garbled(scan, block)
    ensures Garbled(scan[..i + 1], block) <==>
              Garbled(scan[..i], block) || (block.start <= scan[i].pos < block.end && scan[i].op.None?)
  {
    hide WritesIn;
    hide ReadsIn;
    ReadableNext(scan, i);
    assert scan[..i + 1] == scan[..i] + [scan[i]];
    if scan[i].op.Some? {
      var l := Located(scan[i].pos, scan[i].op.value);
      SliceAppend(Readable(scan[..i]), [l], block.start, block.end);
      LocalsInAppend(Slice(Readable(scan[..i]), block.start, block.end), Slice([l], block.start, block.end));
      LocalsInOne(l);
      assert block.start <= l.pos < block.end ==> Slice([l], block.start, block.end) == [l];
    }
  }

  lemma RestNotScanned(scan: seq<Scanned>, i: nat, block: TreeNode)
    requires i <= |scan| && Ascending(scan) && (i < |scan| ==> block.end <= scan[i].pos)
    ensures Slice(Readable(scan), block.start, block.end) == Slice(Readable(scan[..i]), block.start, block.end)
    ensures Garbled(scan, block) ==> Garbled(scan[..i], block)
  {
    hide Readable;
    hide Slice;
    PastNotScanned(scan, i, |scan|, block);
    assert scan[..|scan|] == scan;
    if Garbled(scan, block) {
      var k :| 0 <= k < |scan| && block.start <= scan[k].pos < block.end && scan[k].op.None?;
      assert k < i;
      assert scan[..i][k] == scan[k];
    }
  }

  lemma {:induction false} PastNotScanned(scan: seq<Scanned>, i: nat, n: nat, block: TreeNode)
    requires i <= n <= |scan| && Ascending(scan) && (i < |scan| ==> block.end <= scan[i].pos)
    ensures Slice(Readable(scan[..n]), block.start, block.end) == Slice(Readable(scan[..i]), block.start, block.end)
    decreases n
  {
    hide Readable;
    hide Slice;
    if i < n {
      PastNotScanned(scan, i, n - 1, block);
      ScanNext(scan, n - 1, block);
    }
  }

  // ----- the lists -----

  function Union(sets: seq<set<nat>>): set<nat> {
    if sets == [] then {} else Union(sets[..|sets| - 1]) + sets[|sets| - 1]
  }

  lemma {:induction false} InUnion(sets: seq<set<nat>>, x: nat)
    ensures x in Union(sets) <==> exists k :: 0 <= k < |sets| && x in sets[k]
  {
    if sets != [] {
      InUnion(sets[..|sets| - 1], x);
    }
  }

  lemma UnionTake(sets: seq<set<nat>>, i: nat)
    requires i < |sets|
    ensures Union(sets[..i + 1]) == Union(sets[..i]) + sets[i]
  {
    assert sets[..i + 1][..i] == sets[..i];
  }

  lemma UnionDrop(sets: seq<set<nat>>, i: nat)
    requires i < |sets|
    ensures Union(sets[i..]) == Union(sets[i + 1..]) + sets[i]
  {
    forall x: nat
      ensures x in Union(sets[i..]) <==> x in Union(sets[i + 1..]) + sets[i]
    {
      InUnion(sets[i..], x);
      InUnion(sets[i + 1..], x);
      assert sets[i..] == [sets[i]] + sets[i + 1..];
      if x in Union(sets[i + 1..]) {
        var k :| 0 <= k < |sets[i + 1..]| && x in sets[i + 1..][k];
        assert x in sets[i..][k + 1];
      }
    }
  }

  ghost predicate Checkpoints(blocks: seq<TreeNode>, list: seq<nat>) {
    forall k :: 0 <= k < |list| ==> 1 <= list[k] <= |blocks|
  }

  /** Some region holds bytes that the scan cannot read. */
  ghost predicate SomeGarbled(scan: seq<Scanned>, regions: seq<TreeNode>) {
    exists k :: 0 <= k < |regions| && Garbled(scan, regions[k])
  }

  /** What the scans find in each region. */
  function WriteSets(scan: seq<Scanned>, regions: seq<TreeNode>): (s: seq<set<nat>>)
    ensures |s| == |regions|
  {
    seq(|regions|, k requires 0 <= k < |regions| => WritesIn(Slice(Readable(scan), regions[k].start, regions[k].end)))
  }

  function ReadSets(scan: seq<Scanned>, regions: seq<TreeNode>): (s: seq<set<nat>>)
    ensures |s| == |regions|
  {
    seq(|regions|, k requires 0 <= k < |regions| => ReadsIn(Slice(Readable(scan), regions[k].start, regions[k].end)))
  }

  /** Found written in region `i` or before it, and found read after it. */
  function ScannedLiveOut(scan: seq<Scanned>, regions: seq<TreeNode>, i: nat): set<nat>
    requires i < |regions|
  {
    Union(WriteSets(scan, regions)[..i + 1]) * Union(ReadSets(scan, regions)[i + 1..])
  }

  /** The nodes that have a checkpoint. */
  function Chosen(blocks: seq<TreeNode>, list: seq<nat>): (regions: seq<TreeNode>)
    requires Checkpoints(blocks, list)
    ensures |regions| == |list| && forall k :: 0 <= k < |list| ==> regions[k] == blocks[list[k] - 1]
  {
    seq(|list|, k requires 0 <= k < |list| => blocks[list[k] - 1])
  }

  method GenerateModifiedVarList(scan: seq<Scanned>, blocks: seq<TreeNode>, list: seq<nat>)
    returns (r: Option<seq<set<nat>>>)
    requires Ascending(scan) && Checkpoints(blocks, list)
    ensures r.None? <==> SomeGarbled(scan, Chosen(blocks, list))
    ensures r.Some? ==> r.value == WriteSets(scan, Chosen(blocks, list))
  {
    hide WritesIn;
    hide Slice;
    hide Readable;
    hide Garbled;
    ghost var regions := Chosen(blocks, list);
    var modified: seq<set<nat>> := [];
    for i := 0 to |list|
      invariant |modified| == i
      invariant forall k :: 0 <= k < i ==> !Garbled(scan, regions[k]) && modified[k] == WriteSets(scan, regions)[k]
    {
      var writes := RegionWrites(scan, blocks[list[i] - 1]);
      assert blocks[list[i] - 1] == regions[i];
      if writes.None? {
        return None;
      }
      modified := modified + [writes.value];
    }
    return Some(modified);
  }

  /** The live-in sets, collected from the last region to the first and then reversed. */
  method LiveIn(scan: seq<Scanned>, blocks: seq<TreeNode>, list: seq<nat>) returns (r: Option<seq<set<nat>>>)
    requires Ascending(scan) && Checkpoints(blocks, list)
    ensures r.None? <==> SomeGarbled(scan, Chosen(blocks, list))
    ensures r.Some? ==> r.value == ReadSets(scan, Chosen(blocks, list))
  {
    hide ReadsIn;
    hide Slice;
    hide Readable;
    hide Garbled;
    hide Ascending;
    ghost var regions := Chosen(blocks, list);
    var reversed: seq<set<nat>> := [];
    var i := |list|;
    while i > 0
      invariant 0 <= i <= |list| && |reversed| == |list| - i
      invariant forall k :: i <= k < |list| ==> !Garbled(scan, regions[k])
      invariant forall m :: 0 <= m < |reversed| ==> reversed[m] == ReadSets(scan, regions)[|list| - 1 - m]
    {
      i := i - 1;
      var uses := RegionReads(scan, blocks[list[i] - 1]);
      assert blocks[list[i] - 1] == regions[i];
      if uses.None? {
        return None;
      }
      reversed := reversed + [uses.value];
    }
    return Some(Reversed(reversed));
  }

  function Reversed<T>(s: seq<T>): (r: seq<T>)
    ensures |r| == |s| && forall k :: 0 <= k < |s| ==> r[k] == s[|s| - 1 - k]
  {
    seq(|s|, k requires 0 <= k < |s| => s[|s| - 1 - k])
  }

  /** For each region what it or a predecessor writes. */
  method ModifiedSinceInit(modified: seq<set<nat>>) returns (since: seq<set<nat>>)
    ensures |since| == |modified|
    ensures forall k :: 0 <= k < |modified| ==> since[k] == Union(modified[..k + 1])
  {
    since := [];
    var cumulative: set<nat> := {};
    for i := 0 to |modified|
      invariant |since| == i && cumulative == Union(modified[..i])
      invariant forall k :: 0 <= k < i ==> since[k] == Union(modified[..k + 1])
    {
      UnionTake(modified, i);
      cumulative := cumulative + modified[i];
      since := since + [cumulative];
    }
  }

  /** For each region but the last what its successors read, from the last to the first. */
  method LiveInSuccessors(liveIn: seq<set<nat>>) returns (successors: seq<set<nat>>)
    requires liveIn != []
    ensures |successors| == |liveIn| - 1
    ensures forall k :: 0 <= k < |liveIn| - 1 ==> successors[k] == Union(liveIn[k + 1..])
  {
    var reversed: seq<set<nat>> := [];
    var cumulative: set<nat> := {};
    var i := |liveIn| - 1;
    assert liveIn[i + 1..] == [];
    while i > 0
      invariant 0 <= i < |liveIn| && |reversed| == |liveIn| - 1 - i
      invariant cumulative == Union(liveIn[i + 1..])
      invariant forall m :: 0 <= m < |reversed| ==> reversed[m] == Union(liveIn[|liveIn| - 1 - m..])
    {
      i := i - 1;
      UnionDrop(liveIn, i + 1);
      cumulative := cumulative + liveIn[i + 1];
      reversed := reversed + [cumulative];
    }
    successors := Reversed(reversed);
  }

  /** The live-out sets; without any region the reset of the first live-in set fails. */
  method GenerateLiveVarList(scan: seq<Scanned>, blocks: seq<TreeNode>, list: seq<nat>, modified: seq<set<nat>>)
    returns (r: Option<seq<set<nat>>>)
    requires Ascending(scan) && Checkpoints(blocks, list) && |modified| == |list|
    ensures r.None? <==> list == [] || SomeGarbled(scan, Chosen(blocks, list))
    ensures r.Some? ==>
              && |r.value| == |list|
              && forall k :: 0 <= k < |list| ==>
                   r.value[k] == Union(modified[..k + 1]) * Union(ReadSets(scan, Chosen(blocks, list))[k + 1..])
  {
    hide Union;
    hide ReadsIn;
    hide Slice;
    hide Readable;
    hide Ascending;
    hide SomeGarbled;
    hide WriteSets;
    hide ReadSets;
    ghost var uses := ReadSets(scan, Chosen(blocks, list));
    var found := LiveIn(scan, blocks, list);
    if found.None? || found.value == [] {
      return None;
    }
    var liveIn := found.value[0 := {}];
    var out := LiveOut(liveIn, modified);
    forall k | 0 <= k < |list|
      ensures out[k] == Union(modified[..k + 1]) * Union(uses[k + 1..])
    {
      assert liveIn[k + 1..] == uses[k + 1..];
    }
    return Some(out);
  }

  method LiveOut(liveIn: seq<set<nat>>, modified: seq<set<nat>>) returns (out: seq<set<nat>>)
    requires liveIn != [] && |modified| == |liveIn|
    ensures |out| == |liveIn|
    ensures forall k :: 0 <= k < |liveIn| ==> out[k] == Union(modified[..k + 1]) * Union(liveIn[k + 1..])
  {
    var since := ModifiedSinceInit(modified);
    var successors := LiveInSuccessors(liveIn);
    out := [];
    for i := 0 to |liveIn|
      invariant |out| == i
      invariant forall k :: 0 <= k < i ==> out[k] == Union(modified[..k + 1]) * Union(liveIn[k + 1..])
    {
      if i == |liveIn| - 1 {
        assert liveIn[i + 1..] == [];
        out := out + [{}];
      } else {
        out := out + [since[i] * successors[i]];
      }
    }
  }
}
