/**
 The generator's side tables, and the two hand-written lists of candidates from which it
 picks a subtype or a supertype of a heap type.
 */
module TypeChoosers {
  import opened Common
  import opened TypeTable
  import opened Subtyping

  datatype Tables = Tables(
    types: seq<SubType>,
    arrayTypes: seq<nat>,
    funcTypes: seq<nat>,
    structTypes: seq<nat>,
    canSubtype: seq<nat>,
    superToSub: map<nat, seq<nat>>)

  const EmptyTables := Tables([], [], [], [], [], map[])

  /** Positions, in order, of the types that satisfy `p`. */
  function IndicesOf(t: seq<SubType>, p: SubType -> bool): seq<nat> {
    if t == [] then []
    else
      var n := |t| - 1;
      IndicesOf(t[..n], p) + if p(t[n]) then [n] else []
  }

  predicate HasKind(k: Kind, ty: SubType) { ty.composite.inner.Kind() == k }

  function OfKind(t: seq<SubType>, k: Kind): seq<nat> {
    IndicesOf(t, ty => HasKind(k, ty))
  }

  function OpenTypes(t: seq<SubType>): seq<nat> {
    IndicesOf(t, (ty: SubType) => !ty.isFinal)
  }

  function DirectSubtypes(t: seq<SubType>, s: nat): seq<nat> {
    IndicesOf(t, (ty: SubType) => ty.supertype == Some(s))
  }

  /** The side tables say exactly what the list of types says. */
  ghost predicate Consistent(st: Tables) {
    && st.arrayTypes == OfKind(st.types, ArrayKind)
    && st.funcTypes == OfKind(st.types, FuncKind)
    && st.structTypes == OfKind(st.types, StructKind)
    && st.canSubtype == OpenTypes(st.types)
    && (forall s :: s in st.superToSub <==> DirectSubtypes(st.types, s) != [])
    && (forall s :: s in st.superToSub ==> st.superToSub[s] == DirectSubtypes(st.types, s))
  }

  lemma {:induction false} IndicesOfExact(t: seq<SubType>, p: SubType -> bool, i: nat)
    ensures i in IndicesOf(t, p) <==> i < |t| && p(t[i])
  {
    if t != [] {
      IndicesOfExact(t[..|t| - 1], p, i);
    }
  }

  lemma {:induction false} IndicesOfAscending(t: seq<SubType>, p: SubType -> bool)
    ensures forall a, b :: 0 <= a < b < |IndicesOf(t, p)| ==> IndicesOf(t, p)[a] < IndicesOf(t, p)[b]
  {
    if t != [] {
      var n := |t| - 1;
      var init := IndicesOf(t[..n], p);
      IndicesOfAscending(t[..n], p);
      forall k | 0 <= k < |init| ensures init[k] < n {
        IndicesOfExact(t[..n], p, init[k]);
      }
    }
  }

  /** The three kind lists partition the type indices: each index is in one list, once. */
  lemma KindListsPartition(st: Tables, i: nat)
    requires Consistent(st)
    ensures Distinct(st.arrayTypes) && Distinct(st.funcTypes) && Distinct(st.structTypes)
    ensures i < |st.types| <==> i in st.arrayTypes || i in st.funcTypes || i in st.structTypes
    ensures !(i in st.arrayTypes && i in st.funcTypes)
    ensures !(i in st.arrayTypes && i in st.structTypes)
    ensures !(i in st.funcTypes && i in st.structTypes)
  {
    forall k: Kind ensures Distinct(OfKind(st.types, k)) {
      IndicesOfAscending(st.types, ty => HasKind(k, ty));
    }
    OfKindExact(st.types, ArrayKind, i);
    OfKindExact(st.types, FuncKind, i);
    OfKindExact(st.types, StructKind, i);
  }

  lemma OfKindExact(t: seq<SubType>, k: Kind, i: nat)
    ensures i in OfKind(t, k) <==> i < |t| && t[i].composite.inner.Kind() == k
  {
    IndicesOfExact(t, ty => HasKind(k, ty), i);
  }

  lemma OpenTypesExact(t: seq<SubType>, i: nat)
    ensures i in OpenTypes(t) <==> i < |t| && !t[i].isFinal
  {
    IndicesOfExact(t, (ty: SubType) => !ty.isFinal, i);
  }

  /** `superToSub` is exactly the inverse of the declared supertypes. */
  lemma SuperToSubIsInverse(st: Tables, s: nat, i: nat)
    requires Consistent(st)
    ensures s in st.superToSub && i in st.superToSub[s] <==> i < |st.types| && st.types[i].supertype == Some(s)
  {
    IndicesOfExact(st.types, (ty: SubType) => ty.supertype == Some(s), i);
  }

  // ----- growing the tables by one type -----

  function AppendAt(m: map<nat, seq<nat>>, k: nat, v: nat): map<nat, seq<nat>> {
    m[k := (if k in m then m[k] else []) + [v]]
  }

  function Add(st: Tables, ty: SubType): Tables {
    var index := |st.types|;
    var kind := ty.composite.inner.Kind();
    Tables(
      st.types + [ty],
      if kind == ArrayKind then st.arrayTypes + [index] else st.arrayTypes,
      if kind == FuncKind then st.funcTypes + [index] else st.funcTypes,
      if kind == StructKind then st.structTypes + [index] else st.structTypes,
      if ty.isFinal then st.canSubtype else st.canSubtype + [index],
      if ty.supertype.Some? then AppendAt(st.superToSub, ty.supertype.value, index) else st.superToSub)
  }

  lemma AddKeepsLists(st: Tables, ty: SubType)
    requires Consistent(st)
    ensures var next := Add(st, ty);
            && next.arrayTypes == OfKind(next.types, ArrayKind)
            && next.funcTypes == OfKind(next.types, FuncKind)
            && next.structTypes == OfKind(next.types, StructKind)
            && next.canSubtype == OpenTypes(next.types)
  {
    hide DirectSubtypes;
    assert Add(st, ty).types[..|st.types|] == st.types;
  }

  lemma AddKeepsSubtypes(st: Tables, ty: SubType, s: nat)
    requires Consistent(st)
    ensures var next := Add(st, ty);
            && (s in next.superToSub <==> DirectSubtypes(next.types, s) != [])
            && (s in next.superToSub ==> next.superToSub[s] == DirectSubtypes(next.types, s))
  {
    hide OfKind;
    hide OpenTypes;
    assert Add(st, ty).types[..|st.types|] == st.types;
    assert s in st.superToSub <==> DirectSubtypes(st.types, s) != [];
  }

  lemma AddKeepsConsistent(st: Tables, ty: SubType)
    requires Consistent(st)
    ensures Consistent(Add(st, ty))
  {
    hide OfKind;
    hide OpenTypes;
    hide DirectSubtypes;
    hide Add;
    AddKeepsLists(st, ty);
    forall s: nat
      ensures s in Add(st, ty).superToSub <==> DirectSubtypes(Add(st, ty).types, s) != []
      ensures s in Add(st, ty).superToSub ==> Add(st, ty).superToSub[s] == DirectSubtypes(Add(st, ty).types, s)
    {
      AddKeepsSubtypes(st, ty, s);
    }
  }

  // ----- candidates below a heap type (core.rs, arbitrary_matching_heap_type) -----

  function AllAbstract(shared: bool, tys: seq<AbstractHeap>): seq<HeapType> {
    seq(|tys|, i requires 0 <= i < |tys| => Abstract(shared, tys[i]))
  }

  function AllConcrete(idxs: seq<nat>): seq<HeapType> {
    seq(|idxs|, i requires 0 <= i < |idxs| => Concrete(idxs[i]))
  }

  predicate InRange(idxs: seq<nat>, n: nat) {
    forall k :: 0 <= k < |idxs| ==> idxs[k] < n
  }

  /** Of `idxs`, those whose type has the given sharedness. */
  function WithSharedness(t: seq<SubType>, shared: bool, idxs: seq<nat>): seq<nat>
    requires InRange(idxs, |t|)
  {
    if idxs == [] then []
    else
      (if t[idxs[0]].composite.shared == shared then [idxs[0]] else []) + WithSharedness(t, shared, idxs[1..])
  }

  lemma {:induction false} WithSharednessExact(t: seq<SubType>, shared: bool, idxs: seq<nat>, i: nat)
    requires InRange(idxs, |t|)
    ensures i in WithSharedness(t, shared, idxs) <==> i in idxs && t[i].composite.shared == shared
  {
    if idxs != [] {
      WithSharednessExact(t, shared, idxs[1..], i);
    }
  }

  ghost predicate ListsInRange(st: Tables) {
    && InRange(st.arrayTypes, |st.types|)
    && InRange(st.funcTypes, |st.types|)
    && InRange(st.structTypes, |st.types|)
  }

  lemma ConsistentInRange(st: Tables)
    requires Consistent(st)
    ensures ListsInRange(st)
  {
    forall k: Kind ensures InRange(OfKind(st.types, k), |st.types|) {
      forall i | 0 <= i < |OfKind(st.types, k)| ensures OfKind(st.types, k)[i] < |st.types| {
        OfKindExact(st.types, k, OfKind(st.types, k)[i]);
      }
    }
  }

  function ConcreteChoices(st: Tables, shared: bool, idxs: seq<nat>): seq<HeapType>
    requires InRange(idxs, |st.types|)
  {
    AllConcrete(WithSharedness(st.types, shared, idxs))
  }

  function MatchingChoices(st: Tables, h: HeapType): seq<HeapType>
    requires ListsInRange(st)
  {
    [h] +
    match h
    case Abstract(shared, Any) =>
      AllAbstract(shared, [EqHeap, StructHeap, ArrayHeap, I31, NoneHeap])
      + ConcreteChoices(st, shared, st.arrayTypes) + ConcreteChoices(st, shared, st.structTypes)
    case Abstract(shared, EqHeap) =>
      AllAbstract(shared, [StructHeap, ArrayHeap, I31, NoneHeap])
      + ConcreteChoices(st, shared, st.arrayTypes) + ConcreteChoices(st, shared, st.structTypes)
    case Abstract(shared, StructHeap) =>
      AllAbstract(shared, [StructHeap, NoneHeap]) + ConcreteChoices(st, shared, st.structTypes)
    case Abstract(shared, ArrayHeap) =>
      AllAbstract(shared, [ArrayHeap, NoneHeap]) + ConcreteChoices(st, shared, st.arrayTypes)
    case Abstract(shared, I31) => AllAbstract(shared, [NoneHeap])
    case Abstract(shared, FuncHeap) =>
      AllAbstract(shared, [NoFunc]) + ConcreteChoices(st, shared, st.funcTypes)
    case Abstract(shared, Extern) => AllAbstract(shared, [NoExtern])
    case Abstract(_, _) => []
    case Concrete(idx) =>
      (if idx in st.superToSub then AllConcrete(st.superToSub[idx]) else [])
      + if idx < |st.types| then [BottomFor(st.types[idx].composite)] else []
  }

  function BottomFor(c: CompositeType): HeapType {
    Abstract(c.shared, if c.inner.Kind() == FuncKind then NoFunc else NoneHeap)
  }

  // ----- candidates above a heap type (core.rs, arbitrary_super_type_of_heap_type) -----

  /** The declared supertypes met on the way up from `i`. */
  function ChainAbove(t: seq<SubType>, i: nat): seq<HeapType> {
    if i < |t| && t[i].supertype.Some? && t[i].supertype.value < i then
      [Concrete(t[i].supertype.value)] + ChainAbove(t, t[i].supertype.value)
    else []
  }

  function SuperChoices(st: Tables, h: HeapType): seq<HeapType>
    requires ListsInRange(st)
  {
    [h] +
    match h
    case Abstract(shared, NoneHeap) =>
      AllAbstract(shared, [Any, EqHeap, StructHeap, ArrayHeap, I31])
      + ConcreteChoices(st, shared, st.arrayTypes) + ConcreteChoices(st, shared, st.structTypes)
    case Abstract(shared, NoExtern) => AllAbstract(shared, [Extern])
    case Abstract(shared, NoFunc) =>
      AllAbstract(shared, [FuncHeap]) + ConcreteChoices(st, shared, st.funcTypes)
    case Abstract(shared, NoExn) => AllAbstract(shared, [Exn])
    case Abstract(shared, StructHeap) => AllAbstract(shared, [Any, EqHeap])
    case Abstract(shared, ArrayHeap) => AllAbstract(shared, [Any, EqHeap])
    case Abstract(shared, I31) => AllAbstract(shared, [Any, EqHeap])
    case Abstract(shared, EqHeap) => AllAbstract(shared, [Any])
    case Abstract(shared, NoCont) => AllAbstract(shared, [Cont])
    case Abstract(_, _) => []
    case Concrete(idx) =>
      (if idx < |st.types| then TopsFor(st.types[idx].composite) else []) + ChainAbove(st.types, idx)
  }

  function TopsFor(c: CompositeType): seq<HeapType> {
    match c.inner
    case Array(_) => AllAbstract(c.shared, [Any, EqHeap, ArrayHeap])
    case Func(_, _) => AllAbstract(c.shared, [FuncHeap])
    case Struct(_) => AllAbstract(c.shared, [Any, EqHeap, StructHeap])
  }

  // ----- what the lists contain -----

  lemma AllAbstractExact(shared: bool, tys: seq<AbstractHeap>, c: HeapType)
    ensures c in AllAbstract(shared, tys) <==> c.Abstract? && c.shared == shared && c.ty in tys
  {
    var all := AllAbstract(shared, tys);
    if c.Abstract? && c.shared == shared && c.ty in tys {
      var i :| 0 <= i < |tys| && tys[i] == c.ty;
      assert all[i] == c;
    }
  }

  lemma AllConcreteExact(idxs: seq<nat>, c: HeapType)
    ensures c in AllConcrete(idxs) <==> c.Concrete? && c.idx in idxs
  {
    if c.Concrete? && c.idx in idxs {
      var i :| 0 <= i < |idxs| && idxs[i] == c.idx;
      assert AllConcrete(idxs)[i] == c;
    }
  }

  /** The concrete candidates of one kind are all the types of that kind and sharedness. */
  lemma ConcreteChoicesExact(st: Tables, shared: bool, k: Kind, c: HeapType)
    requires InRange(OfKind(st.types, k), |st.types|)
    ensures c in ConcreteChoices(st, shared, OfKind(st.types, k)) <==>
            c.Concrete? && c.idx < |st.types| && st.types[c.idx].composite.inner.Kind() == k
            && st.types[c.idx].composite.shared == shared
  {
    var idxs := OfKind(st.types, k);
    AllConcreteExact(WithSharedness(st.types, shared, idxs), c);
    if c.Concrete? {
      WithSharednessExact(st.types, shared, idxs, c.idx);
      OfKindExact(st.types, k, c.idx);
    }
  }

  /** The subtypes of `h` that the matching list leaves out. */
  ghost predicate Skipped(t: seq<SubType>, c: HeapType, h: HeapType)
    requires HeapIn(t, c) && HeapIn(t, h)
  {
    || (h.Abstract? && h.ty == Exn && c == Abstract(h.shared, NoExn))
    || (h.Concrete? && c.Concrete? && c != h && t[c.idx].supertype != Some(h.idx))
  }

  /**
   The matching list is exactly the set of subtypes, except that it holds only the direct
   declared subtypes of a concrete type and does not offer `noexn` below `exn`.
   */
  lemma MatchingChoicesExact(st: Tables, h: HeapType, c: HeapType)
    requires Consistent(st) && ListsInRange(st) && ChainsDown(st.types) && HeapIn(st.types, h)
    ensures c in MatchingChoices(st, h) <==>
            HeapIn(st.types, c) && HeapSub(st.types, c, h) && !Skipped(st.types, c, h)
  {
    hide AllAbstract;
    hide ConcreteChoices;
    hide OfKind;
    hide OpenTypes;
    hide DirectSubtypes;
    hide OnChain;
    match h
    case Abstract(shared, ty) =>
      AllAbstractExact(shared, [EqHeap, StructHeap, ArrayHeap, I31, NoneHeap], c);
      AllAbstractExact(shared, [StructHeap, ArrayHeap, I31, NoneHeap], c);
      AllAbstractExact(shared, [StructHeap, NoneHeap], c);
      AllAbstractExact(shared, [ArrayHeap, NoneHeap], c);
      AllAbstractExact(shared, [NoneHeap], c);
      AllAbstractExact(shared, [NoFunc], c);
      AllAbstractExact(shared, [NoExtern], c);
      ConcreteChoicesExact(st, shared, ArrayKind, c);
      ConcreteChoicesExact(st, shared, FuncKind, c);
      ConcreteChoicesExact(st, shared, StructKind, c);
    case Concrete(idx) =>
      MatchingConcreteExact(st, idx, c);
  }

  lemma MatchingConcreteExact(st: Tables, idx: nat, c: HeapType)
    requires Consistent(st) && ListsInRange(st) && ChainsDown(st.types) && idx < |st.types|
    ensures c in MatchingChoices(st, Concrete(idx)) <==>
            HeapIn(st.types, c) && HeapSub(st.types, c, Concrete(idx)) && !Skipped(st.types, c, Concrete(idx))
  {
    if idx in st.superToSub {
      AllConcreteExact(st.superToSub[idx], c);
    }
    if c.Concrete? {
      SuperToSubIsInverse(st, idx, c.idx);
      if c.idx < |st.types| && st.types[c.idx].supertype == Some(idx) {
        assert LinkOk(st.types, c.idx, idx);
        assert OnChain(st.types, idx, idx);
      }
    }
  }

  lemma {:induction false} ChainAboveExact(t: seq<SubType>, i: nat, c: HeapType)
    requires ChainsDown(t) && i < |t|
    ensures c in ChainAbove(t, i) <==> c.Concrete? && c.idx != i && OnChain(t, i, c.idx)
  {
    if t[i].supertype.Some? {
      var s := t[i].supertype.value;
      assert LinkOk(t, i, s);
      ChainAboveExact(t, s, c);
      if c.Concrete? && OnChain(t, s, c.idx) {
        ChainKeepsShape(t, s, c.idx);
      }
    }
  }

  /**
   The supertype list is exactly the set of supertypes; the one entry too many is `cont`
   above `nocont`, which the relation does not have.
   */
  lemma SuperChoicesExact(st: Tables, h: HeapType, c: HeapType)
    requires Consistent(st) && ListsInRange(st) && ChainsDown(st.types) && HeapIn(st.types, h)
    ensures c in SuperChoices(st, h) <==>
            || (HeapIn(st.types, c) && HeapSub(st.types, h, c))
            || (h.Abstract? && h.ty == NoCont && c == Abstract(h.shared, Cont))
  {
    hide AllAbstract;
    hide ConcreteChoices;
    hide OfKind;
    hide OpenTypes;
    hide DirectSubtypes;
    hide OnChain;
    match h
    case Abstract(shared, ty) =>
      AllAbstractExact(shared, [Any, EqHeap, StructHeap, ArrayHeap, I31], c);
      AllAbstractExact(shared, [Extern], c);
      AllAbstractExact(shared, [FuncHeap], c);
      AllAbstractExact(shared, [Exn], c);
      AllAbstractExact(shared, [Any, EqHeap], c);
      AllAbstractExact(shared, [Any], c);
      AllAbstractExact(shared, [Cont], c);
      ConcreteChoicesExact(st, shared, ArrayKind, c);
      ConcreteChoicesExact(st, shared, FuncKind, c);
      ConcreteChoicesExact(st, shared, StructKind, c);
    case Concrete(idx) =>
      SuperConcreteExact(st, idx, c);
  }

  lemma SuperConcreteExact(st: Tables, idx: nat, c: HeapType)
    requires Consistent(st) && ListsInRange(st) && ChainsDown(st.types) && idx < |st.types|
    ensures c in SuperChoices(st, Concrete(idx)) <==> HeapIn(st.types, c) && HeapSub(st.types, Concrete(idx), c)
  {
    var shared := st.types[idx].composite.shared;
    AllAbstractExact(shared, [Any, EqHeap, ArrayHeap], c);
    AllAbstractExact(shared, [FuncHeap], c);
    AllAbstractExact(shared, [Any, EqHeap, StructHeap], c);
    ChainAboveExact(st.types, idx, c);
    if c.Concrete? && OnChain(st.types, idx, c.idx) {
      ChainKeepsShape(st.types, idx, c.idx);
    }
  }

  /** Subtypes and supertypes of a heap type have its sharedness. */
  lemma HeapSubSameSharedness(t: seq<SubType>, a: HeapType, b: HeapType)
    requires ChainsDown(t) && HeapIn(t, a) && HeapIn(t, b) && HeapSub(t, a, b)
    ensures HeapShared(t, a) == HeapShared(t, b)
  {
    if a.Concrete? && b.Concrete? {
      ChainKeepsShape(t, a.idx, b.idx);
    }
  }
}
