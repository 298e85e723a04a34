/**
 The type section that wasm-smith grows: WebAssembly GC types, and the subtype
 relation that the generator decides over them.
 */
module TypeTable {
  import opened Common

  // `NoneHeap`, `EqHeap` and so on carry a suffix only where the bare name is taken.
  datatype AbstractHeap =
    | Any | EqHeap | I31 | StructHeap | ArrayHeap | NoneHeap
    | FuncHeap | NoFunc | Extern | NoExtern | Exn | NoExn | Cont | NoCont

  datatype HeapType = Abstract(shared: bool, ty: AbstractHeap) | Concrete(idx: nat)

  datatype RefType = RefType(nullable: bool, heap: HeapType)

  datatype ValType = I32 | I64 | F32 | F64 | V128 | Ref(ref: RefType)

  datatype StorageType = I8 | I16 | Val(val: ValType)

  datatype FieldType = FieldType(element: StorageType, mutable: bool)

  datatype Kind = ArrayKind | FuncKind | StructKind

  datatype CompositeInner =
    | Array(field: FieldType)
    | Func(params: seq<ValType>, results: seq<ValType>)
    | Struct(fields: seq<FieldType>)
  {
    function Kind(): Kind {
      match this
      case Array(_) => ArrayKind
      case Func(_, _) => FuncKind
      case Struct(_) => StructKind
    }
  }

  datatype CompositeType = CompositeType(inner: CompositeInner, shared: bool)

  datatype SubType = SubType(isFinal: bool, supertype: Option<nat>, composite: CompositeType)

  /** Every declared supertype comes earlier, and kind and sharedness do not change along it. */
  ghost predicate ChainsDown(t: seq<SubType>) {
    forall i :: 0 <= i < |t| && t[i].supertype.Some? ==> LinkOk(t, i, t[i].supertype.value)
  }

  ghost predicate LinkOk(t: seq<SubType>, i: nat, s: nat)
    requires i < |t|
  {
    && s < i
    && t[s].composite.shared == t[i].composite.shared
    && t[s].composite.inner.Kind() == t[i].composite.inner.Kind()
  }

  // ----- the relation the generator decides (core.rs, *_type_is_sub_type) -----

  /** `b` is `a` or is met on the way up from `a`. */
  predicate OnChain(t: seq<SubType>, a: nat, b: nat)
    requires a < |t|
  {
    a == b ||
    (t[a].supertype.Some? && t[a].supertype.value < a && OnChain(t, t[a].supertype.value, b))
  }

  predicate AbstractSub(a: AbstractHeap, b: AbstractHeap) {
    match (a, b)
    case (EqHeap, Any) => true
    case (I31, Any) => true
    case (StructHeap, Any) => true
    case (ArrayHeap, Any) => true
    case (NoneHeap, Any) => true
    case (I31, EqHeap) => true
    case (StructHeap, EqHeap) => true
    case (ArrayHeap, EqHeap) => true
    case (NoneHeap, EqHeap) => true
    case (NoExtern, Extern) => true
    case (NoFunc, FuncHeap) => true
    case (NoneHeap, I31) => true
    case (NoneHeap, ArrayHeap) => true
    case (NoneHeap, StructHeap) => true
    case (NoExn, Exn) => true
    case _ => false
  }

  predicate KindBelow(k: Kind, ty: AbstractHeap) {
    match ty
    case EqHeap => k != FuncKind
    case Any => k != FuncKind
    case StructHeap => k == StructKind
    case ArrayHeap => k == ArrayKind
    case FuncHeap => k == FuncKind
    case _ => false
  }

  predicate KindAbove(ty: AbstractHeap, k: Kind) {
    match ty
    case NoneHeap => k != FuncKind
    case NoFunc => k == FuncKind
    case _ => false
  }

  predicate HeapIn(t: seq<SubType>, h: HeapType) {
    h.Concrete? ==> h.idx < |t|
  }

  predicate HeapSub(t: seq<SubType>, a: HeapType, b: HeapType)
    requires HeapIn(t, a) && HeapIn(t, b)
  {
    a == b ||
    match (a, b)
    case (Abstract(aShared, aTy), Abstract(bShared, bTy)) => aShared == bShared && AbstractSub(aTy, bTy)
    case (Concrete(i), Abstract(shared, ty)) =>
      t[i].composite.shared == shared && KindBelow(t[i].composite.inner.Kind(), ty)
    case (Abstract(shared, ty), Concrete(j)) =>
      t[j].composite.shared == shared && KindAbove(ty, t[j].composite.inner.Kind())
    case (Concrete(i), Concrete(j)) => OnChain(t, i, j)
  }

  predicate RefSub(t: seq<SubType>, a: RefType, b: RefType)
    requires HeapIn(t, a.heap) && HeapIn(t, b.heap)
  {
    a == b || (!(a.nullable && !b.nullable) && HeapSub(t, a.heap, b.heap))
  }

  predicate ValIn(t: seq<SubType>, v: ValType) {
    v.Ref? ==> HeapIn(t, v.ref.heap)
  }

  predicate ValSub(t: seq<SubType>, a: ValType, b: ValType)
    requires ValIn(t, a) && ValIn(t, b)
  {
    a == b || (a.Ref? && b.Ref? && RefSub(t, a.ref, b.ref))
  }

  predicate StorageIn(t: seq<SubType>, s: StorageType) {
    s.Val? ==> ValIn(t, s.val)
  }

  // ----- structural matching of composite types (WebAssembly 3.0, section 3.3) -----

  predicate StorageSub(t: seq<SubType>, a: StorageType, b: StorageType)
    requires StorageIn(t, a) && StorageIn(t, b)
  {
    a == b || (a.Val? && b.Val? && ValSub(t, a.val, b.val))
  }

  /** Mutable fields are invariant, immutable fields covariant. */
  predicate FieldSub(t: seq<SubType>, a: FieldType, b: FieldType)
    requires StorageIn(t, a.element) && StorageIn(t, b.element)
  {
    && a.mutable == b.mutable
    && StorageSub(t, a.element, b.element)
    && (b.mutable ==> StorageSub(t, b.element, a.element))
  }

  ghost predicate CompositeIn(t: seq<SubType>, c: CompositeInner) {
    match c
    case Array(f) => StorageIn(t, f.element)
    case Func(params, results) =>
      (forall v :: v in params ==> ValIn(t, v)) && (forall v :: v in results ==> ValIn(t, v))
    case Struct(fields) => forall f :: f in fields ==> StorageIn(t, f.element)
  }

  /** Width and depth for structs, contravariant parameters and covariant results for functions. */
  ghost predicate CompositeSub(t: seq<SubType>, a: CompositeInner, b: CompositeInner)
    requires CompositeIn(t, a) && CompositeIn(t, b)
  {
    match (a, b)
    case (Array(f), Array(g)) => FieldSub(t, f, g)
    case (Func(ap, ar), Func(bp, br)) =>
      && |ap| == |bp| && |ar| == |br|
      && (forall i :: 0 <= i < |ap| ==> ValSub(t, bp[i], ap[i]))
      && (forall i :: 0 <= i < |ar| ==> ValSub(t, ar[i], br[i]))
    case (Struct(af), Struct(bf)) =>
      && |bf| <= |af|
      && (forall i :: 0 <= i < |bf| ==> FieldSub(t, af[i], bf[i]))
    case _ => false
  }

  // ----- sharedness -----

  predicate HeapShared(t: seq<SubType>, h: HeapType)
    requires HeapIn(t, h)
  {
    match h
    case Abstract(shared, _) => shared
    case Concrete(i) => t[i].composite.shared
  }

  predicate ValShared(t: seq<SubType>, v: ValType)
    requires ValIn(t, v)
  {
    v.Ref? ==> HeapShared(t, v.ref.heap)
  }

  predicate StorageShared(t: seq<SubType>, s: StorageType)
    requires StorageIn(t, s)
  {
    s.Val? ==> ValShared(t, s.val)
  }

  ghost predicate CompositeShared(t: seq<SubType>, c: CompositeInner)
    requires CompositeIn(t, c)
  {
    match c
    case Array(f) => StorageShared(t, f.element)
    case Func(params, results) =>
      (forall v :: v in params ==> ValShared(t, v)) && (forall v :: v in results ==> ValShared(t, v))
    case Struct(fields) => forall f :: f in fields ==> StorageShared(t, f.element)
  }

  // ----- what a type section must satisfy -----

  /**
   `ty` may be appended to `t`: it mentions only earlier types, a shared type holds only
   shared things, and its declared supertype is an earlier, open type that it matches.
   */
  ghost predicate DeclOk(t: seq<SubType>, ty: SubType) {
    && CompositeIn(t, ty.composite.inner)
    && (ty.composite.shared ==> CompositeShared(t, ty.composite.inner))
    && (ty.supertype.Some? ==> SuperOk(t, ty, ty.supertype.value))
  }

  ghost predicate SuperOk(t: seq<SubType>, ty: SubType, s: nat)
    requires CompositeIn(t, ty.composite.inner)
  {
    && s < |t|
    && !t[s].isFinal
    && t[s].composite.shared == ty.composite.shared
    && CompositeIn(t, t[s].composite.inner)
    && CompositeSub(t, ty.composite.inner, t[s].composite.inner)
  }

  ghost predicate ValidTable(t: seq<SubType>) {
    forall i :: 0 <= i < |t| ==> DeclOk(t[..i], t[i])
  }
}
