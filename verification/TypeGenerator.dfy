/**
 wasm-smith's module builder, as far as types go: each method is one `arbitrary_*` step, and
 every choice the fuzzer input makes is left open. `None` stands for the input running out.
 */
module TypeGenerator {
  import opened Common
  import opened TypeTable
  import opened Subtyping
  import opened TypeChoosers

  // ----- what the generator keeps true of everything it makes -----

  /** In range, not a continuation type, and shared if sharing is demanded. */
  ghost predicate HeapGood(t: seq<SubType>, mustShare: bool, h: HeapType) {
    && HeapIn(t, h)
    && (h.Abstract? ==> h.ty != Cont && h.ty != NoCont)
    && (mustShare ==> HeapShared(t, h))
  }

  ghost predicate ValGood(t: seq<SubType>, mustShare: bool, v: ValType) {
    v.Ref? ==> HeapGood(t, mustShare, v.ref.heap)
  }

  ghost predicate FieldGood(t: seq<SubType>, mustShare: bool, f: FieldType) {
    f.element.Val? ==> ValGood(t, mustShare, f.element.val)
  }

  ghost predicate ValsGood(t: seq<SubType>, mustShare: bool, vs: seq<ValType>) {
    forall i :: 0 <= i < |vs| ==> ValGood(t, mustShare, vs[i])
  }

  ghost predicate FieldsGood(t: seq<SubType>, mustShare: bool, fs: seq<FieldType>) {
    forall i :: 0 <= i < |fs| ==> FieldGood(t, mustShare, fs[i])
  }

  ghost predicate InnerGood(t: seq<SubType>, mustShare: bool, c: CompositeInner) {
    match c
    case Array(f) => FieldGood(t, mustShare, f)
    case Func(params, results) => ValsGood(t, mustShare, params) && ValsGood(t, mustShare, results)
    case Struct(fields) => FieldsGood(t, mustShare, fields)
  }

  ghost predicate CompositeGood(t: seq<SubType>, c: CompositeType) {
    InnerGood(t, c.shared, c.inner)
  }

  /** A declaration the generator may append to `t`. */
  ghost predicate TypeGood(t: seq<SubType>, ty: SubType) {
    CompositeGood(t, ty.composite) && DeclOk(t, ty)
  }

  ghost predicate GoodTable(t: seq<SubType>) {
    forall i :: 0 <= i < |t| ==> TypeGood(t[..i], t[i])
  }

  lemma InnerGoodGrows(t: seq<SubType>, u: seq<SubType>, mustShare: bool, c: CompositeInner)
    requires t <= u && InnerGood(t, mustShare, c)
    ensures InnerGood(u, mustShare, c)
  {
  }

  lemma TypeGoodGrows(t: seq<SubType>, u: seq<SubType>, ty: SubType)
    requires t <= u && TypeGood(t, ty)
    ensures TypeGood(u, ty)
  {
    InnerGoodGrows(t, u, ty.composite.shared, ty.composite.inner);
    DeclOkGrows(t, u, ty);
  }

  /** Being good covers everything a declaration without a supertype needs. */
  lemma GoodIsDeclOk(t: seq<SubType>, c: CompositeType)
    requires CompositeGood(t, c)
    ensures CompositeIn(t, c.inner)
    ensures c.shared ==> CompositeShared(t, c.inner)
  {
  }

  lemma GoodTableIsValid(t: seq<SubType>)
    requires GoodTable(t)
    ensures ValidTable(t) && ChainsDown(t)
  {
    forall i | 0 <= i < |t| ensures DeclOk(t[..i], t[i]) {
      assert TypeGood(t[..i], t[i]);
    }
    ValidChainsDown(t);
  }

  lemma GoodEntry(t: seq<SubType>, i: nat)
    requires GoodTable(t) && i < |t|
    ensures TypeGood(t, t[i])
  {
    TypeGoodGrows(t[..i], t, t[i]);
  }

  lemma AppendKeepsGood(t: seq<SubType>, ty: SubType)
    requires GoodTable(t) && TypeGood(t, ty)
    ensures GoodTable(t + [ty])
  {
    var u := t + [ty];
    forall i | 0 <= i < |u| ensures TypeGood(u[..i], u[i]) {
      if i < |t| {
        assert u[..i] == t[..i];
        assert TypeGood(t[..i], t[i]);
      } else {
        assert u[..i] == t;
      }
    }
  }

  /** Consecutive ranges that cover exactly the first `n` indices. */
  ghost predicate Tiles(groups: seq<(nat, nat)>, n: nat) {
    && (forall k :: 0 <= k < |groups| ==> groups[k].0 <= groups[k].1)
    && (forall k :: 0 <= k < |groups| - 1 ==> groups[k].1 == groups[k + 1].0)
    && (if groups == [] then n == 0 else groups[0].0 == 0 && groups[|groups| - 1].1 == n)
  }

  /** Tiling means every index lies in exactly one group. */
  lemma {:induction false} TilesCover(groups: seq<(nat, nat)>, n: nat, i: nat) returns (k: nat)
    requires Tiles(groups, n) && i < n
    ensures k < |groups| && groups[k].0 <= i < groups[k].1
    ensures forall j :: 0 <= j < |groups| && groups[j].0 <= i < groups[j].1 ==> j == k
  {
    var last := |groups| - 1;
    if groups[last].0 <= i {
      k := last;
      TilesBefore(groups, n, last);
    } else {
      var init := groups[..last];
      assert Tiles(init, groups[last].0);
      k := TilesCover(init, groups[last].0, i);
    }
  }

  lemma {:induction false} TilesBefore(groups: seq<(nat, nat)>, n: nat, k: nat)
    requires Tiles(groups, n) && k < |groups|
    ensures groups[k].1 <= n
    ensures forall j :: 0 <= j < k ==> groups[j].1 <= groups[k].0
    decreases |groups|
  {
    var last := |groups| - 1;
    var init := groups[..last];
    assert Tiles(init, groups[last].0);
    if k < last {
      TilesBefore(init, groups[last].0, k);
    } else {
      forall j | 0 <= j < k ensures groups[j].1 <= groups[k].0 {
        TilesBefore(init, groups[last].0, j);
      }
    }
  }

  // ----- fuzzer input -----

  method Choose<T>(choices: seq<T>) returns (r: Option<T>)
    ensures choices == [] ==> r.None?
    ensures r.Some? ==> r.value in choices
  {
    var exhausted: bool := *;
    if choices == [] || exhausted {
      return None;
    }
    var i :| 0 <= i < |choices|;
    return Some(choices[i]);
  }

  method IntInRange(lo: int, hi: int) returns (r: Option<int>)
    requires lo <= hi
    ensures r.Some? ==> lo <= r.value <= hi
  {
    if * {
      return None;
    }
    var i :| lo <= i <= hi;
    return Some(i);
  }

  method Flip() returns (r: Option<bool>) {
    if * {
      return None;
    }
    var b: bool := *;
    return Some(b);
  }

  /** How the generating loops end: done, without input left, or not within the turns looked at. */
  datatype Progress = Finished | OutOfInput | StillRunning

  datatype Config = Config(
    gcEnabled: bool,
    referenceTypes: bool,
    exceptions: bool,
    sharedThreads: bool,
    multiValue: bool,
    floats: bool,
    simd: bool,
    maxTypes: nat)

  /** What sanitizing a configuration establishes. */
  predicate Sane(c: Config) {
    !c.referenceTypes ==> !c.gcEnabled && !c.sharedThreads
  }

  ghost predicate SoundTables(config: Config, st: Tables, mustShare: bool) {
    && Sane(config)
    && Consistent(st)
    && GoodTable(st.types)
    && (mustShare ==> config.sharedThreads)
    && (forall i :: 0 <= i < |st.types| && st.types[i].composite.shared ==> config.sharedThreads)
  }

  lemma SoundEntry(config: Config, st: Tables, mustShare: bool, i: nat)
    requires SoundTables(config, st, mustShare) && i < |st.types|
    ensures TypeGood(st.types, st.types[i])
    ensures st.types[i].composite.shared ==> config.sharedThreads
  {
    GoodEntry(st.types, i);
  }

  class Module {
    const config: Config
    var types: seq<SubType>
    var recGroups: seq<(nat, nat)>
    var superToSub: map<nat, seq<nat>>
    var canSubtype: seq<nat>
    var arrayTypes: seq<nat>
    var funcTypes: seq<nat>
    var structTypes: seq<nat>
    var mustShare: bool
    var maxTypeLimit: Option<nat> // `None` means the number of types in the module

    function State(): Tables
      reads this
    {
      Tables(types, arrayTypes, funcTypes, structTypes, canSubtype, superToSub)
    }

    /** Holds at every step, also in the middle of a rec group. */
    ghost predicate Sound()
      reads this
    {
      SoundTables(config, State(), mustShare)
    }

    /** Holds between rec groups. */
    ghost predicate Valid()
      reads this
    {
      Sound() && !mustShare && maxTypeLimit.None? && Tiles(recGroups, |types|)
    }

    constructor (config: Config)
      requires Sane(config)
      ensures Valid() && this.config == config
      ensures State() == EmptyTables && recGroups == []
    {
      this.config := config;
      types, recGroups, superToSub, canSubtype := [], [], map[], [];
      arrayTypes, funcTypes, structTypes := [], [], [];
      mustShare, maxTypeLimit := false, None;
    }

    // ----- deciding subtypes -----

    method HeapTypeIsSubType(a: HeapType, b: HeapType) returns (r: bool)
      requires ChainsDown(types) && HeapIn(types, a) && HeapIn(types, b)
      ensures r == HeapSub(types, a, b)
    {
      if a.Concrete? && b.Concrete? {
        var i: nat := a.idx;
        while true
          invariant i < |types|
          invariant OnChain(types, a.idx, b.idx) == OnChain(types, i, b.idx)
          decreases i
        {
          if i == b.idx {
            return true;
          }
          match types[i].supertype {
            case Some(supertype) =>
              assert LinkOk(types, i, supertype);
              i := supertype;
            case None =>
              return false;
          }
        }
      } else {
        r := HeapSub(types, a, b);
      }
    }

    method RefTypeIsSubType(a: RefType, b: RefType) returns (r: bool)
      requires ChainsDown(types) && HeapIn(types, a.heap) && HeapIn(types, b.heap)
      ensures r == RefSub(types, a, b) && (r <==> MatchesVal(types, Ref(a), Ref(b)))
    {
      ValSubIsMatching(types, Ref(a), Ref(b));
      if a == b {
        return true;
      }
      if a.nullable && !b.nullable {
        return false;
      }
      r := HeapTypeIsSubType(a.heap, b.heap);
    }

    method ValTypeIsSubType(a: ValType, b: ValType) returns (r: bool)
      requires ChainsDown(types) && ValIn(types, a) && ValIn(types, b)
      ensures r == ValSub(types, a, b) && (r <==> MatchesVal(types, a, b))
    {
      ValSubIsMatching(types, a, b);
      if a == b {
        return true;
      }
      if a.Ref? && b.Ref? {
        r := RefTypeIsSubType(a.ref, b.ref);
      } else {
        r := false;
      }
    }

    // ----- growing the table -----

    method AddType(ty: SubType) returns (index: nat)
      requires ty.supertype.Some? ==>
                 && ty.supertype.value < |types|
                 && types[ty.supertype.value].composite.shared == ty.composite.shared
      modifies this
      ensures index == old(|types|)
      ensures State() == Add(old(State()), ty)
      ensures recGroups == old(recGroups) && mustShare == old(mustShare) && maxTypeLimit == old(maxTypeLimit)
    {
      index := |types|;
      if ty.supertype.Some? {
        superToSub := AppendAt(superToSub, ty.supertype.value, index);
      }
      match ty.composite.inner {
        case Array(_) => arrayTypes := arrayTypes + [index];
        case Func(_, _) => funcTypes := funcTypes + [index];
        case Struct(_) => structTypes := structTypes + [index];
      }
      if !ty.isFinal {
        canSubtype := canSubtype + [index];
      }
      types := types + [ty];
    }

    /** Adding a good declaration keeps everything sound. */
    method AddGoodType(ty: SubType)
      requires Sound() && TypeGood(types, ty)
      requires ty.composite.shared ==> config.sharedThreads
      modifies this
      ensures Sound()
      ensures types == old(types) + [ty]
      ensures recGroups == old(recGroups) && mustShare == old(mustShare) && maxTypeLimit == old(maxTypeLimit)
    {
      AddKeepsConsistent(State(), ty);
      AppendKeepsGood(types, ty);
      var _ := AddType(ty);
    }

    // ----- choosing subtypes and supertypes -----

    method ArbitraryMatchingHeapType(h: HeapType) returns (r: Option<HeapType>)
      requires Sound() && HeapGood(types, false, h)
      ensures r.Some? ==>
                && HeapGood(types, HeapShared(types, h), r.value)
                && HeapSub(types, r.value, h)
    {
      GoodTableIsValid(types);
      if !config.gcEnabled {
        return Some(h);
      }
      ConsistentInRange(State());
      var choices := MatchingChoices(State(), h);
      r := Choose(choices);
      if r.Some? {
        MatchingChoicesExact(State(), h, r.value);
        HeapSubSameSharedness(types, r.value, h);
      }
    }

    method ArbitrarySuperTypeOfHeapType(h: HeapType) returns (r: Option<HeapType>)
      requires Sound() && HeapGood(types, false, h)
      ensures r.Some? ==>
                && HeapGood(types, HeapShared(types, h), r.value)
                && HeapSub(types, h, r.value)
    {
      GoodTableIsValid(types);
      if !config.gcEnabled {
        return Some(h);
      }
      ConsistentInRange(State());
      var choices := SuperTypeList(h);
      r := Choose(choices);
      if r.Some? {
        SuperChoicesExact(State(), h, r.value);
        HeapSubSameSharedness(types, h, r.value);
      }
    }

    /** The list that is chosen from; for a concrete type it is filled by walking up. */
    method SuperTypeList(h: HeapType) returns (choices: seq<HeapType>)
      requires ListsInRange(State()) && ChainsDown(types)
      ensures choices == SuperChoices(State(), h)
    {
      if h.Abstract? {
        return SuperChoices(State(), h);
      }
      var idx: nat := h.idx;
      choices := [h] + if idx < |types| then TopsFor(types[idx].composite) else [];
      while idx < |types| && types[idx].supertype.Some?
        invariant choices + ChainAbove(types, idx) == SuperChoices(State(), h)
        decreases idx
      {
        var supertype := types[idx].supertype.value;
        assert LinkOk(types, idx, supertype);
        assert choices + ChainAbove(types, idx) == choices + [Concrete(supertype)] + ChainAbove(types, supertype);
        choices := choices + [Concrete(supertype)];
        idx := supertype;
      }
    }

    method ArbitraryMatchingValType(v: ValType) returns (r: Option<ValType>)
      requires Sound() && ValGood(types, false, v)
      ensures r.Some? ==>
                && ValGood(types, ValShared(types, v), r.value)
                && ValSub(types, r.value, v)
    {
      match v {
        case Ref(ref) =>
          var heap := ArbitraryMatchingHeapType(ref.heap);
          if heap.None? {
            return None;
          }
          return Some(Ref(RefType(ref.nullable, heap.value)));
        case _ =>
          return Some(v);
      }
    }

    method ArbitrarySuperTypeOfValType(v: ValType) returns (r: Option<ValType>)
      requires Sound() && ValGood(types, false, v)
      ensures r.Some? ==>
                && ValGood(types, ValShared(types, v), r.value)
                && ValSub(types, v, r.value)
    {
      match v {
        case Ref(ref) =>
          var heap := ArbitrarySuperTypeOfHeapType(ref.heap);
          if heap.None? {
            return None;
          }
          return Some(Ref(RefType(true, heap.value)));
        case _ =>
          return Some(v);
      }
    }

    method ArbitraryMatchingFieldType(f: FieldType) returns (r: Option<FieldType>)
      requires Sound() && FieldGood(types, false, f)
      ensures r.Some? ==>
                && FieldGood(types, StorageShared(types, f.element), r.value)
                && FieldSub(types, r.value, f)
    {
      if f.mutable {
        return Some(f);
      }
      match f.element {
        case Val(v) =>
          var matching := ArbitraryMatchingValType(v);
          if matching.None? {
            return None;
          }
          return Some(FieldType(Val(matching.value), false));
        case _ =>
          return Some(FieldType(f.element, false));
      }
    }

    method ArbitraryMatchingStructType(fields: seq<FieldType>) returns (r: Option<seq<FieldType>>)
      requires Sound() && FieldsGood(types, mustShare, fields)
      ensures r.Some? ==>
                && FieldsGood(types, mustShare, r.value)
                && |fields| <= |r.value| <= |fields| + 5
                && forall i :: 0 <= i < |fields| ==> FieldSub(types, r.value[i], fields[i])
    {
      var extra := IntInRange(0, 5);
      if extra.None? {
        return None;
      }
      var out: seq<FieldType> := [];
      for i := 0 to |fields|
        invariant |out| == i && FieldsGood(types, mustShare, out)
        invariant forall k :: 0 <= k < i ==> FieldSub(types, out[k], fields[k])
      {
        assert FieldGood(types, mustShare, fields[i]);
        var f := ArbitraryMatchingFieldType(fields[i]);
        if f.None? {
          return None;
        }
        out := out + [f.value];
      }
      for j := 0 to extra.value
        invariant |out| == |fields| + j && FieldsGood(types, mustShare, out)
        invariant forall k :: 0 <= k < |fields| ==> FieldSub(types, out[k], fields[k])
      {
        var f := ArbitraryFieldType();
        if f.None? {
          return None;
        }
        out := out + [f.value];
      }
      return Some(out);
    }

    method ArbitraryMatchingFuncType(params: seq<ValType>, results: seq<ValType>, ghost share: bool)
      returns (r: Option<(seq<ValType>, seq<ValType>)>)
      requires Sound() && ValsGood(types, share, params) && ValsGood(types, share, results)
      ensures r.Some? ==>
                && ValsGood(types, share, r.value.0) && ValsGood(types, share, r.value.1)
                && |r.value.0| == |params| && |r.value.1| == |results|
                && (forall i :: 0 <= i < |params| ==> ValSub(types, params[i], r.value.0[i]))
                && (forall i :: 0 <= i < |results| ==> ValSub(types, r.value.1[i], results[i]))
    {
      var outParams: seq<ValType> := [];
      for i := 0 to |params|
        invariant |outParams| == i && ValsGood(types, share, outParams)
        invariant forall k :: 0 <= k < i ==> ValSub(types, params[k], outParams[k])
      {
        assert ValGood(types, share, params[i]);
        var v := ArbitrarySuperTypeOfValType(params[i]);
        if v.None? {
          return None;
        }
        outParams := outParams + [v.value];
      }
      var outResults: seq<ValType> := [];
      for i := 0 to |results|
        invariant |outResults| == i && ValsGood(types, share, outResults)
        invariant forall k :: 0 <= k < i ==> ValSub(types, outResults[k], results[k])
      {
        assert ValGood(types, share, results[i]);
        var v := ArbitraryMatchingValType(results[i]);
        if v.None? {
          return None;
        }
        outResults := outResults + [v.value];
      }
      return Some((outParams, outResults));
    }

    // ----- fresh types -----

    method ArbitraryShared() returns (r: Option<bool>)
      requires Sound()
      ensures r.Some? ==> (mustShare ==> r.value) && (r.value ==> config.sharedThreads)
    {
      if mustShare {
        return Some(true);
      }
      if !config.sharedThreads {
        return Some(false);
      }
      r := Flip();
    }

    method ArbitraryHeapType() returns (r: Option<HeapType>)
      requires Sound() && config.referenceTypes
      ensures r.Some? ==> HeapGood(types, mustShare, r.value)
    {
      var limit := if maxTypeLimit.Some? then maxTypeLimit.value else |types|;
      var concrete := Flip();
      if concrete.None? {
        return None;
      }
      if config.gcEnabled && limit > 0 && concrete.value {
        var idx := IntInRange(0, limit - 1);
        if idx.None? {
          return None;
        }
        if idx.value < |types| && !(mustShare && !types[idx.value].composite.shared) {
          return Some(Concrete(idx.value));
        }
      }
      var choices := [FuncHeap, Extern];
      if config.exceptions {
        choices := choices + [Exn];
      }
      if config.gcEnabled {
        choices := choices + [Any, NoneHeap, NoExtern, NoFunc, EqHeap, StructHeap, ArrayHeap, I31];
      }
      var shared := ArbitraryShared();
      var ty := Choose(choices);
      if shared.None? || ty.None? {
        return None;
      }
      return Some(Abstract(shared.value, ty.value));
    }

    method ArbitraryRefType() returns (r: Option<RefType>)
      requires Sound()
      ensures r.Some? ==> HeapGood(types, mustShare, r.value.heap)
    {
      if !config.referenceTypes {
        return Some(RefType(true, Abstract(false, FuncHeap)));
      }
      var heap := ArbitraryHeapType();
      if heap.None? {
        return None;
      }
      return Some(RefType(true, heap.value));
    }

    method ArbitraryValType() returns (r: Option<ValType>)
      requires Sound()
      ensures r.Some? ==> ValGood(types, mustShare, r.value)
    {
      var classes := [Some(I32), Some(I64)];
      if config.floats {
        classes := classes + [Some(F32), Some(F64)];
      }
      if config.simd {
        classes := classes + [Some(V128)];
      }
      if config.referenceTypes {
        classes := classes + [None];
      }
      var class_ := Choose(classes);
      if class_.None? {
        return None;
      }
      if class_.value.Some? {
        return class_.value;
      }
      var ref := ArbitraryRefType();
      if ref.None? {
        return None;
      }
      return Some(Ref(ref.value));
    }

    method ArbitraryFieldType() returns (r: Option<FieldType>)
      requires Sound()
      ensures r.Some? ==> FieldGood(types, mustShare, r.value)
    {
      var class_ := IntInRange(0, 2);
      var mutable := Flip();
      var v := ArbitraryValType();
      if class_.None? || mutable.None? || v.None? {
        return None;
      }
      var element := if class_.value == 0 then I8 else if class_.value == 1 then I16 else Val(v.value);
      return Some(FieldType(element, mutable.value));
    }

    method ArbitraryStructType() returns (r: Option<seq<FieldType>>)
      requires Sound()
      ensures r.Some? ==> FieldsGood(types, mustShare, r.value)
    {
      var len := IntInRange(0, 20);
      if len.None? {
        return None;
      }
      var fields: seq<FieldType> := [];
      for i := 0 to len.value
        invariant FieldsGood(types, mustShare, fields)
      {
        var f := ArbitraryFieldType();
        if f.None? {
          return None;
        }
        fields := fields + [f.value];
      }
      return Some(fields);
    }

    method ArbitraryValTypes(max: nat) returns (r: Option<seq<ValType>>)
      requires Sound()
      ensures r.Some? ==> ValsGood(types, mustShare, r.value) && |r.value| <= max
    {
      var len := IntInRange(0, max);
      if len.None? {
        return None;
      }
      var vals: seq<ValType> := [];
      for i := 0 to len.value
        invariant |vals| == i && ValsGood(types, mustShare, vals)
      {
        var v := ArbitraryValType();
        if v.None? {
          return None;
        }
        vals := vals + [v.value];
      }
      return Some(vals);
    }

    method ArbitraryFuncType() returns (r: Option<CompositeInner>)
      requires Sound()
      ensures r.Some? ==> r.value.Func? && InnerGood(types, mustShare, r.value)
    {
      var params := ArbitraryValTypes(20);
      var results := ArbitraryValTypes(if config.multiValue then 20 else 1);
      if params.None? || results.None? {
        return None;
      }
      return Some(Func(params.value, results.value));
    }

    /** A composite type made while sharing is demanded exactly when the type itself is shared. */
    method ArbitraryCompositeType() returns (r: Option<CompositeType>)
      requires Sound() && !mustShare
      modifies this`mustShare
      ensures Sound() && !mustShare
      ensures r.Some? ==> CompositeGood(types, r.value) && (r.value.shared ==> config.sharedThreads)
    {
      var shared := ArbitraryShared();
      if shared.None? {
        return None;
      }
      var kind := IntInRange(0, 2);
      if kind.None? {
        return None;
      }
      mustShare := shared.value;
      var inner: Option<CompositeInner>;
      if !config.gcEnabled || kind.value == 1 {
        inner := ArbitraryFuncType();
      } else if kind.value == 0 {
        var f := ArbitraryFieldType();
        inner := if f.Some? then Some(Array(f.value)) else None;
      } else {
        var fields := ArbitraryStructType();
        inner := if fields.Some? then Some(Struct(fields.value)) else None;
      }
      mustShare := false;
      if inner.None? {
        return None;
      }
      return Some(CompositeType(inner.value, shared.value));
    }

    /** A new type below a randomly chosen open one matches it. */
    method ArbitrarySubTypeOfSuperType() returns (r: Option<SubType>)
      requires Sound() && !mustShare
      modifies this`mustShare
      ensures Sound() && !mustShare
      ensures r.Some? ==>
                && TypeGood(types, r.value) && (r.value.composite.shared ==> config.sharedThreads)
                && r.value.supertype.Some?
                && types[r.value.supertype.value].composite.inner.Kind() == r.value.composite.inner.Kind()
    {
      var supertype := Choose(canSubtype);
      var isFinal := Flip();
      if supertype.None? || isFinal.None? {
        return None;
      }
      OpenTypesExact(types, supertype.value);
      GoodEntry(types, supertype.value);
      var composite := types[supertype.value].composite;
      var inner := ArbitraryMatchingInner(composite);
      if inner.None? {
        return None;
      }
      GoodIsDeclOk(types, CompositeType(inner.value, composite.shared));
      return Some(SubType(isFinal.value, supertype, CompositeType(inner.value, composite.shared)));
    }

    method ArbitraryMatchingInner(c: CompositeType) returns (r: Option<CompositeInner>)
      requires Sound() && !mustShare && (c.shared ==> config.sharedThreads)
      requires CompositeGood(types, c) && CompositeIn(types, c.inner)
      modifies this`mustShare
      ensures Sound() && !mustShare
      ensures r.Some? ==>
                && CompositeGood(types, CompositeType(r.value, c.shared))
                && CompositeIn(types, r.value) && CompositeSub(types, r.value, c.inner)
    {
      match c.inner {
        case Array(f) =>
          var g := ArbitraryMatchingFieldType(f);
          if g.None? {
            return None;
          }
          return Some(Array(g.value));
        case Func(params, results) =>
          var g := ArbitraryMatchingFuncType(params, results, c.shared);
          if g.None? {
            return None;
          }
          return Some(Func(g.value.0, g.value.1));
        case Struct(fields) =>
          mustShare := c.shared;
          var g := ArbitraryMatchingStructType(fields);
          mustShare := false;
          if g.None? {
            return None;
          }
          return Some(Struct(g.value));
      }
    }

    method ArbitrarySubType() returns (r: Option<SubType>)
      requires Sound() && !mustShare
      modifies this`mustShare
      ensures Sound() && !mustShare
      ensures r.Some? ==> TypeGood(types, r.value) && (r.value.composite.shared ==> config.sharedThreads)
    {
      var below := Flip();
      var isFinal := Flip();
      if below.None? || isFinal.None? {
        return None;
      }
      if config.gcEnabled && canSubtype != [] && below.value {
        r := ArbitrarySubTypeOfSuperType();
      } else {
        var composite := ArbitraryCompositeType();
        if composite.None? {
          return None;
        }
        GoodIsDeclOk(types, composite.value);
        return Some(SubType(if config.gcEnabled then isFinal.value else true, None, composite.value));
      }
    }

    // ----- rec groups -----

    method AddArbitraryTypes(n: nat) returns (ok: bool)
      requires Sound() && !mustShare
      modifies this
      ensures Sound() && !mustShare
      ensures recGroups == old(recGroups) && maxTypeLimit == old(maxTypeLimit)
      ensures old(types) <= types && |types| <= old(|types|) + n
      ensures ok ==> |types| == old(|types|) + n
    {
      for k := 0 to n
        invariant Sound() && !mustShare
        invariant recGroups == old(recGroups) && maxTypeLimit == old(maxTypeLimit)
        invariant old(types) <= types && |types| == old(|types|) + k
      {
        var ty := ArbitrarySubType();
        if ty.None? {
          return false;
        }
        AddGoodType(ty.value);
      }
      return true;
    }

    method CopyTypes(lo: nat, hi: nat)
      requires Sound() && !mustShare && lo <= hi <= |types|
      modifies this
      ensures Sound() && !mustShare
      ensures recGroups == old(recGroups) && maxTypeLimit == old(maxTypeLimit)
      ensures types == old(types) + old(types)[lo..hi]
    {
      hide SoundTables;
      hide TypeGood;
      ghost var before := types;
      for index := lo to hi
        invariant Sound() && !mustShare
        invariant recGroups == old(recGroups) && maxTypeLimit == old(maxTypeLimit)
        invariant types == before + before[lo..index]
      {
        var ty := types[index];
        SoundEntry(config, State(), mustShare, index);
        AddGoodType(ty);
        assert before[lo..index] + [before[index]] == before[lo..index + 1];
      }
    }

    /** Every turn appends one group, or leaves types and groups alone. */
    method ArbitraryRecGroup(allowEmpty: bool) returns (ok: bool)
      requires Valid() && |types| <= config.maxTypes
      requires !config.gcEnabled || !allowEmpty ==> |types| < config.maxTypes
      modifies this
      ensures Sound() && old(types) <= types && |types| <= config.maxTypes
      ensures ok ==> Valid()
      ensures ok ==>
                || recGroups == old(recGroups) + [(old(|types|), |types|)]
                || (recGroups == old(recGroups) && types == old(types))
    {
      hide SoundTables;
      var start := |types|;
      var size := Some(1);
      if config.gcEnabled {
        var clone := Flip();
        if clone.None? {
          return false;
        }
        if recGroups != [] && clone.value {
          ok := CloneRecGroup(allowEmpty);
          return;
        }
        size := IntInRange(if allowEmpty then 0 else 1, config.maxTypes - |types|);
        if size.None? {
          return false;
        }
      }
      maxTypeLimit := Some(if config.gcEnabled then |types| + size.value else |types|);
      ok := AddArbitraryTypes(size.value);
      if !ok {
        return;
      }
      maxTypeLimit := None;
      recGroups := recGroups + [(start, |types|)];
    }

    /** Cloning copies a whole group verbatim to the end, or does nothing at all. */
    method CloneRecGroup(allowEmpty: bool) returns (ok: bool)
      requires Valid() && |types| <= config.maxTypes
      modifies this
      ensures Valid() && |types| <= config.maxTypes
      ensures || (recGroups == old(recGroups) && types == old(types))
              || (exists g :: && 0 <= g < |old(recGroups)| && old(recGroups)[g].0 <= old(recGroups)[g].1 <= old(|types|)
                              && types == old(types) + old(types)[old(recGroups)[g].0..old(recGroups)[g].1]
                              && recGroups == old(recGroups) + [(old(|types|), |types|)])
    {
      hide SoundTables;
      var chosen := Choose(recGroups);
      if chosen.None? {
        return false;
      }
      var group := chosen.value;
      ghost var g :| 0 <= g < |recGroups| && recGroups[g] == group;
      TilesBefore(recGroups, |types|, g);
      if group.0 == group.1 && !allowEmpty {
        return true;
      }
      if group.1 - group.0 > config.maxTypes - |types| {
        return true;
      }
      var start := |types|;
      CopyTypes(group.0, group.1);
      recGroups := recGroups + [(start, |types|)];
      return true;
    }

    /** The two generating loops, for any number of turns that they may take before they end. */
    method ArbitraryTypes(turns: nat, minTypes: nat) returns (r: Progress)
      requires Valid() && minTypes <= config.maxTypes && |types| <= config.maxTypes
      modifies this
      ensures Sound() && old(types) <= types && |types| <= config.maxTypes
      ensures !r.OutOfInput? ==> Valid()
      ensures r.Finished? ==> minTypes <= |types|
      ensures r.StillRunning? ==> |types| < minTypes || |types| < config.maxTypes
    {
      var left := turns;
      while |types| < minTypes
        invariant Valid() && old(types) <= types && |types| <= config.maxTypes
        decreases left
      {
        if left == 0 {
          return StillRunning;
        }
        left := left - 1;
        var ok := ArbitraryRecGroup(false);
        if !ok {
          return OutOfInput;
        }
      }
      while |types| < config.maxTypes
        invariant Valid() && old(types) <= types && minTypes <= |types| <= config.maxTypes
        decreases left
      {
        var keepGoing: bool := *;
        if !keepGoing {
          break;
        }
        if left == 0 {
          return StillRunning;
        }
        left := left - 1;
        var ok := ArbitraryRecGroup(true);
        if !ok {
          return OutOfInput;
        }
      }
      return Finished;
    }

    /** A final function type taken over from an example module (imports and exports). */
    method AddExampleFuncType(params: seq<ValType>, results: seq<ValType>, shared: bool)
      requires Valid()
      requires ValsGood(types, false, params) && ValsGood(types, false, results)
      requires shared ==> config.sharedThreads
      modifies this
      ensures Consistent(State()) && Tiles(recGroups, |types|)
      ensures types == old(types) + [SubType(true, None, CompositeType(Func(params, results), shared))]
      ensures Valid() <==> (shared ==> ValsGood(old(types), true, params) && ValsGood(old(types), true, results))
    {
      hide GoodTable;
      hide ValsGood;
      hide Consistent;
      hide Add;
      var ty := SubType(true, None, CompositeType(Func(params, results), shared));
      AddKeepsConsistent(State(), ty);
      AddedTypes(State(), ty);
      ExampleGood(types, params, results, shared);
      recGroups := recGroups + [(|types|, |types| + 1)];
      var _ := AddType(ty);
    }
  }

  lemma AddedTypes(s: Tables, ty: SubType)
    requires ty.supertype.None?
    ensures Add(s, ty).types == s.types + [ty]
  {
  }

  const UnsharedFuncref := Ref(RefType(true, Abstract(false, FuncHeap)))

  /** One unshared parameter, taken over in a shared function type: the table is not good afterwards. */
  lemma SharedOverUnshared()
    ensures GoodTable([]) && ValsGood([], false, [UnsharedFuncref])
    ensures !GoodTable([] + [SubType(true, None, CompositeType(Func([UnsharedFuncref], []), true))])
  {
    assert !ValsGood([], true, [UnsharedFuncref]) by {
      assert !ValGood([], true, [UnsharedFuncref][0]);
    }
    ExampleGood([], [UnsharedFuncref], [], true);
  }

  /** A function type over good types keeps the table good exactly if sharedness agrees. */
  lemma ExampleGood(t: seq<SubType>, params: seq<ValType>, results: seq<ValType>, shared: bool)
    requires GoodTable(t) && ValsGood(t, false, params) && ValsGood(t, false, results)
    ensures GoodTable(t + [SubType(true, None, CompositeType(Func(params, results), shared))])
       <==> (shared ==> ValsGood(t, true, params) && ValsGood(t, true, results))
  {
    var ty := SubType(true, None, CompositeType(Func(params, results), shared));
    if shared ==> ValsGood(t, true, params) && ValsGood(t, true, results) {
      GoodIsDeclOk(t, ty.composite);
      AppendKeepsGood(t, ty);
    } else {
      var u := t + [ty];
      assert u[..|t|] == t && u[|t|] == ty;
    }
  }
}
