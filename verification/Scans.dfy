/**
 Where wasm-migrate's scans start: at the first byte of a function, which is the number of its
 groups of locals, and not at its first operator as the pass that builds the tree does.
 */
module Scans {
  import opened Common
  import opened BlockTree
  import opened Regions
  import opened Liveness
  import opened Resume

  /**
   The bytes of a function, by what a reader makes of them at each position: an operator, or
   none, and the number of bytes it takes beyond the first.
   */
  datatype Code = Code(length: nat, decode: nat -> (Option<FlatOp>, nat))

  /** What a reader that starts at byte `from` goes through. */
  function Decode(code: Code, from: nat): seq<Scanned>
    decreases code.length - from
  {
    if from >= code.length then []
    else
      var (op, more) := code.decode(from);
      [Scanned(from, op)] + Decode(code, from + 1 + more)
  }

  /** A reader that starts at `from` stops at `at`. */
  predicate Reaches(code: Code, from: nat, at: nat)
    decreases code.length - from
  {
    from == at || (from < at && from < code.length && Reaches(code, from + 1 + code.decode(from).1, at))
  }

  lemma {:induction false} DecodeAscends(code: Code, from: nat)
    ensures Ascending(Decode(code, from))
    ensures forall i :: 0 <= i < |Decode(code, from)| ==> from <= Decode(code, from)[i].pos
    decreases code.length - from
  {
    if from < code.length {
      var rest := from + 1 + code.decode(from).1;
      DecodeAscends(code, rest);
      assert Decode(code, from) == [Scanned(from, code.decode(from).0)] + Decode(code, rest);
    }
  }

  /** `tail` is how `scan` ends. */
  ghost predicate EndsWith(scan: seq<Scanned>, tail: seq<Scanned>) {
    |tail| <= |scan| && scan[|scan| - |tail|..] == tail
  }

  /** Two readers of the same bytes are in step from `at` on exactly if the earlier one stops there. */
  lemma {:induction false} ReachesIsInStep(code: Code, from: nat, at: nat)
    requires from <= at < code.length
    ensures Reaches(code, from, at) <==> EndsWith(Decode(code, from), Decode(code, at))
    decreases code.length - from
  {
    hide EndsWith;
    DecodeFirst(code, at);
    if from == at {
      EndsWithItself(Decode(code, at));
    } else {
      DecodeFirst(code, from);
      var rest := from + 1 + code.decode(from).1;
      EndsWithTail(Scanned(from, code.decode(from).0), Decode(code, rest), Decode(code, at));
      if rest <= at {
        ReachesIsInStep(code, rest, at);
      } else {
        DecodeAscends(code, rest);
        NotWithin(Decode(code, rest), Decode(code, at), rest);
      }
    }
  }

  lemma DecodeFirst(code: Code, from: nat)
    requires from < code.length
    ensures Decode(code, from) == [Scanned(from, code.decode(from).0)] + Decode(code, from + 1 + code.decode(from).1)
  {
  }

  lemma EndsWithItself(scan: seq<Scanned>)
    ensures EndsWith(scan, scan)
  {
  }

  lemma EndsWithTail(first: Scanned, rest: seq<Scanned>, tail: seq<Scanned>)
    requires tail != [] && first.pos < tail[0].pos
    ensures EndsWith([first] + rest, tail) <==> EndsWith(rest, tail)
  {
    var scan := [first] + rest;
    if |tail| <= |rest| {
      assert scan[|scan| - |tail|..] == rest[|rest| - |tail|..];
    } else if |tail| == |scan| {
      assert scan[|scan| - |tail|..][0] == first;
    }
  }

  lemma NotWithin(scan: seq<Scanned>, tail: seq<Scanned>, from: nat)
    requires forall i :: 0 <= i < |scan| ==> from <= scan[i].pos
    requires tail != [] && tail[0].pos < from
    ensures !EndsWith(scan, tail)
  {
    if |tail| <= |scan| {
      assert scan[|scan| - |tail|..][0] == scan[|scan| - |tail|];
    }
  }

  /** The operators of a function as a reader goes through them. */
  function AsScanned(ops: seq<Located>): (s: seq<Scanned>)
    ensures |s| == |ops|
  {
    seq(|ops|, k requires 0 <= k < |ops| => Scanned(ops[k].pos, Some(ops[k].op)))
  }

  /**
   The operators of a function start at byte `at`, after the declarations of its locals. If a
   reader that starts at the declarations stops at `at`, the analysis finds what the structured
   body writes and reads.
   */
  lemma ReachedBodyIsLive(code: Code, body: seq<Instr>, at: nat)
    requires Sized(body) && ElseCount(body) == 0 && Decode(code, at) == AsScanned(FunctionOps(body, at))
    ensures Reaches(code, 0, at) <==> InStep(Decode(code, 0), FunctionOps(body, at))
    ensures |RegionNodes(body, at, 1)| == |Pieces(body)|
    ensures Reaches(code, 0, at) ==>
              && !SomeGarbled(Decode(code, 0), RegionNodes(body, at, 1))
              && forall i :: 0 <= i < |Pieces(body)| ==>
                   ScannedLiveOut(Decode(code, 0), RegionNodes(body, at, 1), i) == LiveOutOf(body, i)
  {
    hide Pieces;
    hide RegionNodes;
    hide LiveOutOf;
    hide ScannedLiveOut;
    hide SomeGarbled;
    hide FunctionOps;
    hide ElseCount;
    FirstOfFunction(body, at);
    var scan, ops := Decode(code, 0), FunctionOps(body, at);
    ReachesIsInStep(code, 0, at);
    DecodeAscends(code, 0);
    PiecesAreRegions(body, at, 1);
    if EndsWith(scan, AsScanned(ops)) {
      forall k | 0 <= k < |ops| ensures scan[|scan| - |ops| + k] == Scanned(ops[k].pos, Some(ops[k].op)) {
        assert scan[|scan| - |ops|..][k] == AsScanned(ops)[k];
      }
      InStepIsLive(scan, body, at);
    }
    if InStep(scan, ops) {
      assert scan[|scan| - |ops|..] == AsScanned(ops);
    }
  }

  // ----- a function whose scans are out of step -----

  /** The operators of the function below, with operands of one byte; `f64.const` has eight. */
  function DecodeAt(bytes: seq<nat>, p: nat): (Option<FlatOp>, nat) {
    if p >= |bytes| then (None, 0)
    else if bytes[p] == 0x01 then (Some(Simple(Misc(0x01))), 0)
    else if bytes[p] == 0x0b then (Some(End), 0)
    else if bytes[p] == 0x1a then (Some(Simple(Misc(0x1a))), 0)
    else if bytes[p] == 0x44 then if p + 8 < |bytes| then (Some(Simple(Misc(0x44))), 8) else (None, 0)
    else if p + 1 >= |bytes| then (None, 0)
    else if bytes[p] == 0x02 then (Some(Open(BlockNode)), 1)
    else if bytes[p] == 0x20 then (Some(Simple(LocalGet(bytes[p + 1]))), 1)
    else if bytes[p] == 0x21 then (Some(Simple(LocalSet(bytes[p + 1]))), 1)
    else if bytes[p] == 0x41 then (Some(Simple(Misc(0x41))), 1)
    else (None, 0)
  }

  // One group of 68 locals of type i32; i32.const 5, local.set 0, block, end, local.get 0, drop, end.
  const SAMPLE: seq<nat> := [0x01, 0x44, 0x7f, 0x41, 0x05, 0x21, 0x00, 0x02, 0x40, 0x0b, 0x20, 0x00, 0x1a, 0x0b]

  const SampleCode := Code(14, (p: nat) => DecodeAt(SAMPLE, p))

  const SampleStart: seq<Instr> := [Plain(Misc(0x41), 2), Plain(LocalSet(0), 2)]

  const SampleBlock := Nest(BlockNode, 2, [])

  const SampleRest: seq<Instr> := [Plain(LocalGet(0), 2), Plain(Misc(0x1a), 1)]

  const SampleBody: seq<Instr> := SampleStart + [SampleBlock] + SampleRest

  lemma SampleScan()
    ensures Decode(SampleCode, 0)
         == [Scanned(0, Some(Simple(Misc(0x01)))), Scanned(1, Some(Simple(Misc(0x44)))),
             Scanned(10, Some(Simple(LocalGet(0)))), Scanned(12, Some(Simple(Misc(0x1a)))), Scanned(13, Some(End))]
    ensures !Reaches(SampleCode, 0, 3)
  {
    hide Decode;
    DecodeFirst(SampleCode, 0);
    DecodeFirst(SampleCode, 1);
    SampleTail();
    assert !Reaches(SampleCode, 10, 3);
    assert !Reaches(SampleCode, 1, 3);
  }

  lemma SampleTail()
    ensures Decode(SampleCode, 10)
         == [Scanned(10, Some(Simple(LocalGet(0)))), Scanned(12, Some(Simple(Misc(0x1a)))), Scanned(13, Some(End))]
  {
    DecodeFirst(SampleCode, 10);
    DecodeFirst(SampleCode, 12);
    DecodeFirst(SampleCode, 13);
  }

  const SampleOps: seq<Located> :=
    [Located(3, Simple(Misc(0x41))), Located(5, Simple(LocalSet(0))), Located(7, Open(BlockNode)), Located(9, End),
     Located(10, Simple(LocalGet(0))), Located(12, Simple(Misc(0x1a))), Located(13, End)]

  lemma SampleHead()
    ensures SampleCode.decode(3) == (Some(Simple(Misc(0x41))), 1)
    ensures SampleCode.decode(5) == (Some(Simple(LocalSet(0))), 1)
    ensures SampleCode.decode(7) == (Some(Open(BlockNode)), 1)
    ensures SampleCode.decode(9) == (Some(End), 0)
  {
  }

  lemma SampleDecoded()
    ensures Decode(SampleCode, 3) == AsScanned(SampleOps)
  {
    hide Decode;
    hide DecodeAt;
    SampleHead();
    DecodeFirst(SampleCode, 3);
    DecodeFirst(SampleCode, 5);
    DecodeFirst(SampleCode, 7);
    DecodeFirst(SampleCode, 9);
    SampleTail();
  }

  lemma FlattenOne(i: Instr, at: nat)
    ensures Flatten([i], at) == Flat(i, at) && Length([i]) == Size(i) && ElseCount([i]) == Elses(i)
  {
    assert [i][1..] == [];
  }

  lemma FlattenTwo(i: Instr, j: Instr, at: nat)
    ensures Flatten([i, j], at) == Flat(i, at) + Flat(j, at + Size(i))
    ensures Length([i, j]) == Size(i) + Size(j) && ElseCount([i, j]) == Elses(i) + Elses(j)
  {
    assert [i, j] == [i] + [j];
    FlattenOne(i, at);
    FlattenOne(j, at + Size(i));
    FlattenAppend([i], [j], at);
    LengthAppend([i], [j]);
    ElseCountAppend([i], [j]);
  }

  lemma SampleFlattened()
    ensures FunctionOps(SampleBody, 3) == SampleOps && ElseCount(SampleBody) == 0
  {
    hide Flatten;
    hide Length;
    hide ElseCount;
    FlattenTwo(SampleStart[0], SampleStart[1], 3);
    FlattenOne(SampleBlock, 7);
    SampleBlockFlat();
    FlattenTwo(SampleRest[0], SampleRest[1], 10);
    ElseCountAppend(SampleStart + [SampleBlock], SampleRest);
    ElseCountAppend(SampleStart, [SampleBlock]);
    FlattenAppend(SampleStart + [SampleBlock], SampleRest, 3);
    FlattenAppend(SampleStart, [SampleBlock], 3);
    LengthAppend(SampleStart + [SampleBlock], SampleRest);
    LengthAppend(SampleStart, [SampleBlock]);
  }

  lemma SampleBlockFlat()
    ensures Flat(SampleBlock, 7) == [Located(7, Open(BlockNode)), Located(9, End)]
    ensures Size(SampleBlock) == 3 && Elses(SampleBlock) == 0
  {
  }

  lemma SampleSized()
    ensures Sized(SampleBody)
  {
    assert SizedInstr(SampleBlock);
  }

  lemma SamplePieces()
    ensures Pieces(SampleBody) == [SampleStart, [SampleBlock], SampleRest]
    ensures RegionNodes(SampleBody, 3, 1)
         == [CodeStretch(1, 3, 4, 0), TreeNode(2, BlockNode, 7, 9, 0), CodeStretch(3, 10, 3, 0)]
  {
    hide Pieces;
    hide RegionNodes;
    hide Length;
    var after := [SampleBlock] + SampleRest;
    assert SampleBody == SampleStart + after && SampleRest == SampleRest + [];
    FlattenTwo(SampleStart[0], SampleStart[1], 3);
    FlattenTwo(SampleRest[0], SampleRest[1], 10);
    RunFirst(SampleStart, after, 3, 1);
    BlockFirst(SampleRest, 7, 2);
    RunFirst(SampleRest, [], 10, 3);
    NoRegions(13, 4);
    PiecesEmpty([]);
  }

  /** Two plain instructions in front are one piece and one region. */
  lemma RunFirst(run: seq<Instr>, rest: seq<Instr>, at: nat, next: nat)
    requires |run| == 2 && run[0].Plain? && run[1].Plain? && (rest != [] ==> !rest[0].Plain?)
    ensures Pieces(run + rest) == [run] + Pieces(rest)
    ensures RegionNodes(run + rest, at, next)
         == [CodeStretch(next, at, Length(run), 0)] + RegionNodes(rest, at + Length(run), next + 1)
  {
    hide Pieces;
    hide RegionNodes;
    hide Length;
    RunOfTwo(run, rest);
    var body := run + rest;
    assert body[..2] == run && body[2..] == rest && body[0].Plain?;
    RunPiece(body);
    RunRegion(body, at, next);
  }

  lemma RunPiece(body: seq<Instr>)
    requires body != [] && body[0].Plain?
    ensures Pieces(body) == [body[..RunLength(body)]] + Pieces(body[RunLength(body)..])
  {
  }

  lemma RunRegion(body: seq<Instr>, at: nat, next: nat)
    requires body != [] && body[0].Plain?
    ensures var n := RunLength(body);
            RegionNodes(body, at, next)
            == [CodeStretch(next, at, Length(body[..n]), 0)] + RegionNodes(body[n..], at + Length(body[..n]), next + 1)
  {
  }

  lemma BlockFirst(rest: seq<Instr>, at: nat, next: nat)
    ensures Pieces([SampleBlock] + rest) == [[SampleBlock]] + Pieces(rest)
    ensures RegionNodes([SampleBlock] + rest, at, next)
         == [TreeNode(next, BlockNode, at, at + 2, 0)] + RegionNodes(rest, at + 3, next + 1)
  {
    assert ([SampleBlock] + rest)[1..] == rest;
  }

  lemma RunOfTwo(run: seq<Instr>, rest: seq<Instr>)
    requires |run| == 2 && run[0].Plain? && run[1].Plain? && (rest != [] ==> !rest[0].Plain?)
    ensures RunLength(run + rest) == 2
  {
  }

  /** The body writes local 0 in its first region and reads it in its last. */
  lemma SampleLive()
    ensures |Pieces(SampleBody)| == 3 && LiveOutOf(SampleBody, 0) == {0}
  {
    hide Pieces;
    SamplePieces();
    var pieces := Pieces(SampleBody);
    assert pieces[..1] == [SampleStart] && pieces[1..] == [[SampleBlock], SampleRest];
    assert Concat([SampleStart]) == SampleStart;
    ConcatHead([SampleBlock], [SampleRest]);
    assert Concat([SampleRest]) == SampleRest;
    assert BodyWrites(SampleStart) == {0};
    BodyLocalsAppend([SampleBlock], SampleRest);
    assert BodyReads(SampleRest) == {0} && BodyReads([SampleBlock]) == {};
  }

  /** The scans do not see the write. */
  lemma SampleScanned()
    ensures |RegionNodes(SampleBody, 3, 1)| == 3
    ensures !SomeGarbled(Decode(SampleCode, 0), RegionNodes(SampleBody, 3, 1))
    ensures ScannedLiveOut(Decode(SampleCode, 0), RegionNodes(SampleBody, 3, 1), 0) == {}
  {
    hide Decode;
    hide RegionNodes;
    hide Readable;
    hide Slice;
    hide WritesIn;
    SamplePieces();
    SampleScan();
    var scan, regions := Decode(SampleCode, 0), RegionNodes(SampleBody, 3, 1);
    var found := Slice(Readable(scan), 3, 6);
    forall x: nat ensures x !in WritesIn(found) {
      WrittenSomewhere(found, x);
      forall l | l in found ensures false {
        InSlice(Readable(scan), 3, 6, l);
        ReadableHas(scan, l);
      }
    }
    assert WriteSets(scan, regions)[..1] == [WritesIn(found)];
    assert Union([WritesIn(found)]) == {};
  }

  /**
   A function whose declaration of locals reads as the start of a constant that swallows the
   first bytes of its body: the local it has to restore is not among those the analysis finds.
   */
  lemma LocalIsLost()
    ensures Sized(SampleBody) && ElseCount(SampleBody) == 0
    ensures Decode(SampleCode, 3) == AsScanned(FunctionOps(SampleBody, 3)) && !Reaches(SampleCode, 0, 3)
    ensures |RegionNodes(SampleBody, 3, 1)| == |Pieces(SampleBody)| == 3
    ensures !SomeGarbled(Decode(SampleCode, 0), RegionNodes(SampleBody, 3, 1))
    ensures LiveOutOf(SampleBody, 0) == {0}
    ensures ScannedLiveOut(Decode(SampleCode, 0), RegionNodes(SampleBody, 3, 1), 0) == {}
  {
    hide *;
    SampleSized();
    SampleFlattened();
    SampleDecoded();
    SampleScan();
    SampleLive();
    SampleScanned();
  }
}
