/**
 wasm-smith's active data and element segments when traps are disallowed: whatever the fuzzer
 input draws, every segment lies inside the minimum size of its memory or table.
 */
module Segments {
  import opened Common

  const PAGE: nat := 65536
  const TWO31: int := 0x8000_0000
  const TWO32: int := 0x1_0000_0000
  const TWO63: int := 0x8000_0000_0000_0000
  const TWO64: int := 0x1_0000_0000_0000_0000

  type U64 = x: int | 0 <= x < TWO64
  type I32 = x: int | -TWO31 <= x < TWO31
  type I64 = x: int | -TWO63 <= x < TWO63

  // ----- Rust's casts -----

  function AsI32(x: U64): I32 {
    var low := x % TWO32;
    if low < TWO31 then low else low - TWO32
  }

  function AsI64(x: U64): I64 {
    if x < TWO63 then x else x - TWO64
  }

  /** `i32 as u64` extends the sign. */
  function I32AsU64(x: I32): U64 {
    if x < 0 then x + TWO64 else x
  }

  function I64AsU64(x: I64): U64 {
    if x < 0 then x + TWO64 else x
  }

  datatype Offset = Const32(v32: I32) | Const64(v64: I64)

  /** The address a constant offset denotes: WebAssembly reads it as unsigned. */
  function Address(o: Offset): int {
    match o
    case Const32(v) => if v < 0 then v + TWO32 else v
    case Const64(v) => if v < 0 then v + TWO64 else v
  }

  function Min(a: int, b: int): int { if a < b then a else b }

  function SaturatingMul(a: U64, b: nat): U64 { Min(a * b, TWO64 - 1) }

  // ----- offsets -----

  /** Clamped into range, however the floating point interpolation rounds. */
  function GraduallyGrow(drawn: int, min: U64, max: U64): (r: U64)
    requires min <= max
    ensures min <= r <= max
  {
    if drawn < min then min else if drawn > max then max else drawn
  }

  /** Any offset if the segment cannot fit, and one that favours fitting otherwise. */
  function ArbitraryOffset(drawn: int, limitMin: U64, limitMax: U64, size: nat): (r: U64)
    requires limitMin <= limitMax
    ensures 0 <= r <= limitMax
  {
    if size > limitMin then drawn % (limitMax + 1) else GraduallyGrow(drawn, 0, limitMax)
  }

  // ----- data segments -----

  datatype Memory = Memory(minimum: U64, memory64: bool)

  datatype DataSegment<!T> = Passive(init: seq<T>) | Active(memory: nat, offset: Offset, init: seq<T>)

  ghost predicate DataInBounds<T>(memories: seq<Memory>, d: DataSegment<T>) {
    d.Active? ==>
      && d.memory < |memories|
      && Address(d.offset) + |d.init| <= memories[d.memory].minimum * PAGE
      && (d.offset.Const64? <==> memories[d.memory].memory64)
  }

  /** The largest segment kept: the minimum size, cut off where the product would overflow. */
  function MaxDataSize(minimum: U64): (r: U64)
    ensures r <= minimum * PAGE && r % PAGE == 0
    ensures if minimum * PAGE < TWO64 then r == minimum * PAGE else TWO64 - r == PAGE
  {
    Min((TWO64 - 1) / 64 / 1024, minimum) * 64 * 1024
  }

  /** The offset cut off at the bound, read back through a sign extension for 32 bits. */
  function Clamp(o: Offset, maxOffset: U64): (r: Offset)
    ensures Address(r) <= maxOffset
    ensures r.Const64? <==> o.Const64?
    ensures o.Const64? && Address(o) <= maxOffset ==> Address(r) == Address(o)
    ensures o.Const32? && Address(o) <= maxOffset && Address(o) < TWO31 ==> Address(r) == Address(o)
  {
    match o
    case Const32(x) => Const32(AsI32(Min(I32AsU64(x), maxOffset)))
    case Const64(x) => Const64(AsI64(Min(I64AsU64(x), maxOffset)))
  }

  method ArbitraryActiveData<T>(memories: seq<Memory>, index: nat, init: seq<T>, drawn: int)
    returns (d: DataSegment<T>)
    requires index < |memories| && |init| < TWO64
    ensures d.Active? && d.memory == index && d.init <= init && DataInBounds(memories, d)
    ensures |init| <= MaxDataSize(memories[index].minimum) ==> d.init == init
  {
    var mem := memories[index];
    var size := SaturatingMul(mem.minimum, 64 * 1024);
    var offset: Offset;
    if mem.memory64 {
      offset := Const64(AsI64(ArbitraryOffset(drawn, size, size, |init|)));
    } else {
      var limit: U64 := if size < TWO32 then size else TWO32 - 1;
      offset := Const32(AsI32(ArbitraryOffset(drawn, limit, limit, |init|)));
    }
    var maxSize := MaxDataSize(mem.minimum);
    var kept := if |init| > maxSize then init[..maxSize] else init;
    var maxOffset := maxSize - |kept|;
    d := Active(index, Clamp(offset, maxOffset), kept);
  }

  datatype DataDraw<!T> = DataDraw(init: seq<T>, passive: bool, memory: nat, offset: int)

  /** Any run of the data section generator. */
  method ArbitraryData<T>(memories: seq<Memory>, candidates: seq<nat>, bulkMemory: bool, draws: seq<DataDraw<T>>)
    returns (data: seq<DataSegment<T>>)
    requires forall i :: 0 <= i < |candidates| ==> candidates[i] < |memories|
    requires forall i :: 0 <= i < |draws| ==> |draws[i].init| < TWO64
    ensures forall i :: 0 <= i < |data| ==> DataInBounds(memories, data[i])
    ensures forall i :: 0 <= i < |data| && data[i].Passive? ==> bulkMemory
    ensures candidates != [] || bulkMemory ==> |data| == |draws|
  {
    data := [];
    if candidates == [] && !bulkMemory {
      return;
    }
    for i := 0 to |draws|
      invariant |data| == i
      invariant forall k :: 0 <= k < i ==> DataInBounds(memories, data[k])
      invariant forall k :: 0 <= k < i && data[k].Passive? ==> bulkMemory
    {
      var draw := draws[i];
      if bulkMemory && (candidates == [] || draw.passive) {
        data := data + [Passive(draw.init)];
      } else {
        var d := ArbitraryActiveData(memories, candidates[draw.memory % |candidates|], draw.init, draw.offset);
        data := data + [d];
      }
    }
  }

  // ----- element segments -----

  datatype Table = Table(minimum: U64, table64: bool)

  datatype ElemSegment = ElemSegment(table: nat, offset: Offset, count: nat)

  ghost predicate ElemInBounds(tables: seq<Table>, e: ElemSegment) {
    && e.table < |tables|
    && Address(e.offset) + e.count <= tables[e.table].minimum
    && (e.offset.Const64? <==> tables[e.table].table64)
  }

  /** Element segments ask for an offset as if the segment were empty. */
  function ElemOffset(tables: seq<Table>, index: nat, drawn: int): U64
    requires index < |tables|
  {
    ArbitraryOffset(drawn, tables[index].minimum, tables[index].minimum, 0)
  }

  /**
   An active element segment. The number of items is at least the configured minimum and at
   most what is left of the table; the loop asserts that this range is not empty, and `None`
   is that assertion failing. A list of functions stays empty, and nothing is asserted, if
   there is no function of the table's type to put in it.
   */
  method ArbitraryActiveElem(tables: seq<Table>, index: nat, functionList: bool, candidates: nat, minElements: nat,
                             drawn: int, more: nat)
    returns (r: Option<ElemSegment>)
    requires index < |tables|
    ensures r.Some? ==> r.value.table == index && ElemInBounds(tables, r.value)
    ensures r.Some? ==> if functionList && candidates == 0 then r.value.count == 0 else minElements <= r.value.count
    ensures r.Some? <==>
            || (functionList && candidates == 0)
            || minElements <= tables[index].minimum - ElemOffset(tables, index, drawn)
  {
    var table := tables[index];
    var offset := ElemOffset(tables, index, drawn);
    var max := table.minimum - offset;
    var count := 0;
    if !functionList || candidates > 0 {
      if minElements > max {
        return None;
      }
      count := if minElements + more <= max then minElements + more else max;
    }
    var o := if table.table64 then Const64(AsI64(offset)) else Const32(AsI32(offset));
    return Some(ElemSegment(index, o, count));
  }
}
