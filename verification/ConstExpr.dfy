/**
 wasm-smith's extended constant expressions: instructions are produced in reverse, counting
 the values still needed, and reversed at the end.
 */
module ConstExpr {
  import opened Common

  datatype Width = W32 | W64

  datatype Instr = Const(width: Width, value: int) | Add(width: Width) | Sub(width: Width) | Mul(width: Width)

  /** Stack height after running `code` from height `h`, or `None` on underflow. */
  function Height(code: seq<Instr>, h: nat): Option<nat> {
    if code == [] then Some(h)
    else if code[0].Const? then Height(code[1..], h + 1)
    else if h >= 2 then Height(code[1..], h - 1)
    else None
  }

  /** A valid body: no underflow, one value left, and every instruction of the asked width. */
  ghost predicate ValidFor(code: seq<Instr>, width: Width) {
    Height(code, 0) == Some(1) && forall i :: 0 <= i < |code| ==> code[i].width == width
  }

  function Reversed(code: seq<Instr>): seq<Instr> {
    if code == [] then [] else Reversed(code[1..]) + [code[0]]
  }

  lemma {:induction false} ReversedSnoc(code: seq<Instr>, i: Instr)
    ensures Reversed(code + [i]) == [i] + Reversed(code)
  {
    if code != [] {
      assert (code + [i])[1..] == code[1..] + [i];
      ReversedSnoc(code[1..], i);
    }
  }

  lemma {:induction false} ReversedContents(code: seq<Instr>)
    ensures |Reversed(code)| == |code|
    ensures forall k :: 0 <= k < |code| ==> Reversed(code)[k] == code[|code| - 1 - k]
  {
    if code != [] {
      ReversedContents(code[1..]);
    }
  }

  /** What a reversed prefix still lacks: run on `needed` values it leaves exactly one. */
  ghost predicate Lacks(instrs: seq<Instr>, needed: nat) {
    Height(Reversed(instrs), needed) == Some(1)
  }

  lemma PushConst(instrs: seq<Instr>, needed: nat, c: Instr)
    requires Lacks(instrs, needed + 1) && c.Const?
    ensures Lacks(instrs + [c], needed)
  {
    ReversedSnoc(instrs, c);
    assert ([c] + Reversed(instrs))[1..] == Reversed(instrs);
  }

  lemma PushBinary(instrs: seq<Instr>, needed: nat, op: Instr)
    requires Lacks(instrs, needed) && needed > 0 && !op.Const?
    ensures Lacks(instrs + [op], needed + 1)
  {
    ReversedSnoc(instrs, op);
    assert ([op] + Reversed(instrs))[1..] == Reversed(instrs);
  }

  datatype Draw = Draw(exhausted: bool, choice: nat, value: int)

  /** The instruction drawn at step `k`; from the twelfth on only constants are drawn. */
  function Emit(width: Width, d: Draw, k: nat): Instr {
    match if d.exhausted || k > 10 then 0 else d.choice % 4
    case 0 => Const(width, d.value)
    case 1 => Add(width)
    case 2 => Sub(width)
    case _ => Mul(width)
  }

  /**
   Generates a constant expression from any draws, one per instruction; `None` when a draw
   is needed and there is none left.
   */
  method ArbitraryExtendedConst(width: Width, draws: seq<Draw>) returns (r: Option<seq<Instr>>)
    ensures r.Some? ==> ValidFor(r.value, width) && 1 <= |r.value| <= 23 && |r.value| % 2 == 1
    ensures r.Some? ==>
              |r.value| <= |draws| &&
              forall k :: 0 <= k < |r.value| ==> r.value[|r.value| - 1 - k] == Emit(width, draws[k], k)
    ensures |draws| >= 23 ==> r.Some?
  {
    hide Height;
    hide Reversed;
    hide Lacks;
    var instrs: seq<Instr> := [];
    var needed: nat := 1;
    NothingLacksOne();
    while needed > 0
      invariant Lacks(instrs, needed)
      invariant |instrs| <= |draws|
      invariant forall i :: 0 <= i < |instrs| ==> instrs[i] == Emit(width, draws[i], i)
      invariant |instrs| <= 11 ==> needed <= |instrs| + 1
      invariant |instrs| > 11 ==> |instrs| + needed <= 23
      invariant (|instrs| + needed) % 2 == 1
      decreases 24 - |instrs|
    {
      if |instrs| >= |draws| {
        return None;
      }
      var d := draws[|instrs|];
      var choice := if d.exhausted || |instrs| > 10 then 0 else d.choice % 4;
      if choice == 0 {
        PushConst(instrs, needed - 1, Const(width, d.value));
        instrs := instrs + [Const(width, d.value)];
        needed := needed - 1;
      } else {
        var op := if choice == 1 then Add(width) else if choice == 2 then Sub(width) else Mul(width);
        PushBinary(instrs, needed, op);
        instrs := instrs + [op];
        needed := needed + 1;
      }
    }
    Finished(instrs, width);
    return Some(Reversed(instrs));
  }

  lemma NothingLacksOne()
    ensures Lacks([], 1)
  {
  }

  /** Instructions that lack nothing are, reversed, a valid body. */
  lemma Finished(instrs: seq<Instr>, width: Width)
    requires Lacks(instrs, 0) && forall i :: 0 <= i < |instrs| ==> instrs[i].width == width
    ensures ValidFor(Reversed(instrs), width) && |Reversed(instrs)| == |instrs|
    ensures forall k :: 0 <= k < |instrs| ==> Reversed(instrs)[k] == instrs[|instrs| - 1 - k]
    ensures instrs != []
  {
    ReversedContents(instrs);
  }

  /** The bound of 23 is met: eleven operators, then twelve constants. */
  lemma BoundIsTight()
    ensures exists code :: |code| == 23 && ValidFor(code, W32)
  {
    var code := seq(23, i => if i < 12 then Const(W32, 0) else Add(W32));
    ConstantsPush(code, 0, 12);
    OperatorsPop(code, 12);
    assert ValidFor(code, W32);
  }

  lemma {:induction false} ConstantsPush(code: seq<Instr>, lo: nat, hi: nat)
    requires lo <= hi <= |code|
    requires forall i :: lo <= i < hi ==> code[i].Const?
    ensures Height(code[lo..], lo) == Height(code[hi..], hi)
    decreases hi - lo
  {
    if lo < hi {
      assert code[lo..][1..] == code[lo + 1..];
      ConstantsPush(code, lo + 1, hi);
    }
  }

  lemma {:induction false} OperatorsPop(code: seq<Instr>, lo: nat)
    requires lo <= |code|
    requires forall i :: lo <= i < |code| ==> !code[i].Const?
    ensures Height(code[lo..], |code| - lo + 1) == Some(1)
    decreases |code| - lo
  {
    if lo < |code| {
      assert code[lo..][1..] == code[lo + 1..];
      OperatorsPop(code, lo + 1);
    }
  }
}
