/**
 The decided subtype relation is a partial order on every valid table, and it is
 exactly the one the WebAssembly rules derive.
 */
module Subtyping {
  import opened Common
  import opened TypeTable

  // ----- tables grow at the end, and nothing decided earlier changes -----

  lemma {:induction false} OnChainGrows(t: seq<SubType>, u: seq<SubType>, a: nat, b: nat)
    requires t <= u && a < |t|
    ensures OnChain(u, a, b) == OnChain(t, a, b)
  {
    if a != b && t[a].supertype.Some? && t[a].supertype.value < a {
      OnChainGrows(t, u, t[a].supertype.value, b);
    }
  }

  lemma HeapSubGrows(t: seq<SubType>, u: seq<SubType>, a: HeapType, b: HeapType)
    requires t <= u && HeapIn(t, a) && HeapIn(t, b)
    ensures HeapSub(u, a, b) == HeapSub(t, a, b)
  {
    if a.Concrete? && b.Concrete? {
      OnChainGrows(t, u, a.idx, b.idx);
    }
  }

  lemma ValSubGrows(t: seq<SubType>, u: seq<SubType>, a: ValType, b: ValType)
    requires t <= u && ValIn(t, a) && ValIn(t, b)
    ensures ValSub(u, a, b) == ValSub(t, a, b)
  {
    if a.Ref? && b.Ref? {
      HeapSubGrows(t, u, a.ref.heap, b.ref.heap);
    }
  }

  lemma FieldSubGrows(t: seq<SubType>, u: seq<SubType>, a: FieldType, b: FieldType)
    requires t <= u && StorageIn(t, a.element) && StorageIn(t, b.element)
    ensures FieldSub(u, a, b) == FieldSub(t, a, b)
  {
    if a.element.Val? && b.element.Val? {
      ValSubGrows(t, u, a.element.val, b.element.val);
      ValSubGrows(t, u, b.element.val, a.element.val);
    }
  }

  lemma CompositeSubGrows(t: seq<SubType>, u: seq<SubType>, a: CompositeInner, b: CompositeInner)
    requires t <= u && CompositeIn(t, a) && CompositeIn(t, b)
    requires CompositeSub(t, a, b)
    ensures CompositeIn(u, a) && CompositeIn(u, b) && CompositeSub(u, a, b)
  {
    assert CompositeIn(u, a) && CompositeIn(u, b);
    match (a, b)
    case (Array(f), Array(g)) => FieldSubGrows(t, u, f, g);
    case (Func(ap, ar), Func(bp, br)) =>
      forall i | 0 <= i < |ap| ensures ValSub(u, bp[i], ap[i]) {
        ValSubGrows(t, u, bp[i], ap[i]);
      }
      forall i | 0 <= i < |ar| ensures ValSub(u, ar[i], br[i]) {
        ValSubGrows(t, u, ar[i], br[i]);
      }
    case (Struct(af), Struct(bf)) =>
      forall i | 0 <= i < |bf| ensures FieldSub(u, af[i], bf[i]) {
        FieldSubGrows(t, u, af[i], bf[i]);
      }
    case _ =>
  }

  /** A declaration that is good at the end of a table is good at the end of every longer one. */
  lemma DeclOkGrows(t: seq<SubType>, u: seq<SubType>, ty: SubType)
    requires t <= u && DeclOk(t, ty)
    ensures DeclOk(u, ty)
  {
    if ty.supertype.Some? {
      CompositeSubGrows(t, u, ty.composite.inner, t[ty.supertype.value].composite.inner);
    }
  }

  // ----- chains -----

  lemma ValidChainsDown(t: seq<SubType>)
    requires ValidTable(t)
    ensures ChainsDown(t)
  {
    forall i | 0 <= i < |t| && t[i].supertype.Some?
      ensures LinkOk(t, i, t[i].supertype.value)
    {
      assert DeclOk(t[..i], t[i]);
    }
  }

  /** Kind and sharedness are the same at both ends of a chain, and chains only go down. */
  lemma {:induction false} ChainKeepsShape(t: seq<SubType>, a: nat, b: nat)
    requires ChainsDown(t) && a < |t| && OnChain(t, a, b)
    ensures b <= a
    ensures t[b].composite.shared == t[a].composite.shared
    ensures t[b].composite.inner.Kind() == t[a].composite.inner.Kind()
  {
    if a != b {
      assert LinkOk(t, a, t[a].supertype.value);
      ChainKeepsShape(t, t[a].supertype.value, b);
    }
  }

  lemma {:induction false} OnChainTransitive(t: seq<SubType>, a: nat, b: nat, c: nat)
    requires a < |t| && OnChain(t, a, b) && b < |t| && OnChain(t, b, c)
    ensures OnChain(t, a, c)
  {
    if a != b {
      OnChainTransitive(t, t[a].supertype.value, b, c);
    }
  }

  // ----- partial orders -----

  lemma HeapSubTransitive(t: seq<SubType>, a: HeapType, b: HeapType, c: HeapType)
    requires ChainsDown(t) && HeapIn(t, a) && HeapIn(t, b) && HeapIn(t, c)
    requires HeapSub(t, a, b) && HeapSub(t, b, c)
    ensures HeapSub(t, a, c)
  {
    if a.Concrete? && b.Concrete? {
      ChainKeepsShape(t, a.idx, b.idx);
    }
    if b.Concrete? && c.Concrete? {
      ChainKeepsShape(t, b.idx, c.idx);
    }
    if a.Concrete? && b.Concrete? && c.Concrete? {
      OnChainTransitive(t, a.idx, b.idx, c.idx);
    }
  }

  lemma HeapSubAntisymmetric(t: seq<SubType>, a: HeapType, b: HeapType)
    requires ChainsDown(t) && HeapIn(t, a) && HeapIn(t, b)
    requires HeapSub(t, a, b) && HeapSub(t, b, a)
    ensures a == b
  {
    if a.Concrete? && b.Concrete? {
      ChainKeepsShape(t, a.idx, b.idx);
      ChainKeepsShape(t, b.idx, a.idx);
    }
  }

  ghost predicate PartialOrder<T(!new)>(inside: T -> bool, below: (T, T) -> bool) {
    && (forall a :: inside(a) ==> below(a, a))
    && (forall a, b :: inside(a) && inside(b) && below(a, b) && below(b, a) ==> a == b)
    && (forall a, b, c :: inside(a) && inside(b) && inside(c) && below(a, b) && below(b, c) ==> below(a, c))
  }

  /** On every valid table, heap, reference and value subtyping are partial orders. */
  lemma SubtypingIsPartialOrder(t: seq<SubType>)
    requires ValidTable(t)
    ensures PartialOrder((a: HeapType) => HeapIn(t, a),
                         (a: HeapType, b: HeapType) => HeapIn(t, a) && HeapIn(t, b) && HeapSub(t, a, b))
    ensures PartialOrder((a: RefType) => HeapIn(t, a.heap),
                         (a: RefType, b: RefType) => HeapIn(t, a.heap) && HeapIn(t, b.heap) && RefSub(t, a, b))
    ensures PartialOrder((a: ValType) => ValIn(t, a),
                         (a: ValType, b: ValType) => ValIn(t, a) && ValIn(t, b) && ValSub(t, a, b))
  {
    ValidChainsDown(t);
    forall a: HeapType, b: HeapType | HeapIn(t, a) && HeapIn(t, b) && HeapSub(t, a, b) && HeapSub(t, b, a)
      ensures a == b
    {
      HeapSubAntisymmetric(t, a, b);
    }
    forall a: HeapType, b: HeapType, c: HeapType |
      HeapIn(t, a) && HeapIn(t, b) && HeapIn(t, c) && HeapSub(t, a, b) && HeapSub(t, b, c)
      ensures HeapSub(t, a, c)
    {
      HeapSubTransitive(t, a, b, c);
    }
  }

  // ----- declared subtypes match structurally all the way up -----

  lemma ValSubTransitive(t: seq<SubType>, a: ValType, b: ValType, c: ValType)
    requires ChainsDown(t) && ValIn(t, a) && ValIn(t, b) && ValIn(t, c)
    requires ValSub(t, a, b) && ValSub(t, b, c)
    ensures ValSub(t, a, c)
  {
    if a.Ref? && b.Ref? && c.Ref? {
      HeapSubTransitive(t, a.ref.heap, b.ref.heap, c.ref.heap);
    }
  }

  lemma FieldSubTransitive(t: seq<SubType>, a: FieldType, b: FieldType, c: FieldType)
    requires ChainsDown(t)
    requires StorageIn(t, a.element) && StorageIn(t, b.element) && StorageIn(t, c.element)
    requires FieldSub(t, a, b) && FieldSub(t, b, c)
    ensures FieldSub(t, a, c)
  {
    if a.element.Val? && b.element.Val? && c.element.Val? {
      ValSubTransitive(t, a.element.val, b.element.val, c.element.val);
      if c.mutable {
        ValSubTransitive(t, c.element.val, b.element.val, a.element.val);
      }
    }
  }

  lemma CompositeSubTransitive(t: seq<SubType>, a: CompositeInner, b: CompositeInner, c: CompositeInner)
    requires ChainsDown(t) && CompositeIn(t, a) && CompositeIn(t, b) && CompositeIn(t, c)
    requires CompositeSub(t, a, b) && CompositeSub(t, b, c)
    ensures CompositeSub(t, a, c)
  {
    match (a, b, c)
    case (Array(f), Array(g), Array(h)) => FieldSubTransitive(t, f, g, h);
    case (Func(ap, ar), Func(bp, br), Func(cp, cr)) =>
      forall i | 0 <= i < |ap| ensures ValSub(t, cp[i], ap[i]) {
        ValSubTransitive(t, cp[i], bp[i], ap[i]);
      }
      forall i | 0 <= i < |ar| ensures ValSub(t, ar[i], cr[i]) {
        ValSubTransitive(t, ar[i], br[i], cr[i]);
      }
    case (Struct(af), Struct(bf), Struct(cf)) =>
      forall i | 0 <= i < |cf| ensures FieldSub(t, af[i], cf[i]) {
        FieldSubTransitive(t, af[i], bf[i], cf[i]);
      }
    case _ =>
  }

  lemma CompositeSubReflexive(t: seq<SubType>, a: CompositeInner)
    requires CompositeIn(t, a)
    ensures CompositeSub(t, a, a)
  {
  }

  lemma TableEntryIn(t: seq<SubType>, i: nat)
    requires ValidTable(t) && i < |t|
    ensures DeclOk(t, t[i])
  {
    DeclOkGrows(t[..i], t, t[i]);
  }

  /** Whatever the chain walk calls a subtype really matches, in width, depth and variance. */
  lemma {:induction false} ChainMatches(t: seq<SubType>, a: nat, b: nat)
    requires ValidTable(t) && a < |t| && b < |t| && OnChain(t, a, b)
    ensures CompositeIn(t, t[a].composite.inner) && CompositeIn(t, t[b].composite.inner)
    ensures CompositeSub(t, t[a].composite.inner, t[b].composite.inner)
  {
    TableEntryIn(t, a);
    TableEntryIn(t, b);
    if a == b {
      CompositeSubReflexive(t, t[a].composite.inner);
    } else {
      var s := t[a].supertype.value;
      ValidChainsDown(t);
      ChainMatches(t, s, b);
      CompositeSubTransitive(t, t[a].composite.inner, t[s].composite.inner, t[b].composite.inner);
    }
  }

  // ----- agreement with the rules of the standard -----

  /**
   A derivation with the heap type matching rules of the WebAssembly Core Specification 3.0,
   section 3.3, with sharedness required to agree.
   */
  datatype Derivation =
    | Reflexive
    | Transitive(mid: HeapType, lower: Derivation, upper: Derivation)
    | Axiom
    | Expand
    | Declared
    | Bottom(premise: Derivation)

  function Expansion(k: Kind): AbstractHeap {
    match k
    case ArrayKind => ArrayHeap
    case FuncKind => FuncHeap
    case StructKind => StructHeap
  }

  /** The top type above each bottom type. */
  function TopOf(bottom: AbstractHeap): Option<AbstractHeap> {
    match bottom
    case NoneHeap => Some(Any)
    case NoFunc => Some(FuncHeap)
    case NoExtern => Some(Extern)
    case NoExn => Some(Exn)
    case _ => None
  }

  ghost predicate Derives(t: seq<SubType>, d: Derivation, a: HeapType, b: HeapType)
    requires HeapIn(t, a) && HeapIn(t, b)
    decreases d
  {
    match d
    case Reflexive => a == b
    case Transitive(mid, lower, upper) => HeapIn(t, mid) && Derives(t, lower, a, mid) && Derives(t, upper, mid, b)
    case Axiom =>
      && a.Abstract? && b.Abstract? && a.shared == b.shared
      && (|| (a.ty == EqHeap && b.ty == Any)
          || (a.ty in {I31, StructHeap, ArrayHeap} && b.ty == EqHeap))
    case Expand =>
      && a.Concrete? && b.Abstract? && t[a.idx].composite.shared == b.shared
      && b.ty == Expansion(t[a.idx].composite.inner.Kind())
    case Declared => a.Concrete? && b.Concrete? && t[a.idx].supertype == Some(b.idx)
    case Bottom(premise) =>
      && a.Abstract?
      && TopOf(a.ty).Some?
      && Derives(t, premise, b, Abstract(a.shared, TopOf(a.ty).value))
  }

  ghost predicate Matches(t: seq<SubType>, a: HeapType, b: HeapType)
    requires HeapIn(t, a) && HeapIn(t, b)
  {
    exists d :: Derives(t, d, a, b)
  }

  lemma {:induction false} DerivedIsDecided(t: seq<SubType>, d: Derivation, a: HeapType, b: HeapType)
    requires ChainsDown(t) && HeapIn(t, a) && HeapIn(t, b)
    requires Derives(t, d, a, b)
    ensures HeapSub(t, a, b)
    decreases d
  {
    match d
    case Transitive(mid, lower, upper) =>
      DerivedIsDecided(t, lower, a, mid);
      DerivedIsDecided(t, upper, mid, b);
      HeapSubTransitive(t, a, mid, b);
    case Bottom(premise) =>
      DerivedIsDecided(t, premise, b, Abstract(a.shared, TopOf(a.ty).value));
    case Declared =>
      assert LinkOk(t, a.idx, b.idx);
    case _ =>
  }

  lemma {:induction false} ChainIsDerived(t: seq<SubType>, a: nat, b: nat) returns (d: Derivation)
    requires ChainsDown(t) && a < |t| && b < |t| && OnChain(t, a, b)
    ensures Derives(t, d, Concrete(a), Concrete(b))
  {
    if a == b {
      d := Reflexive;
    } else {
      var s := t[a].supertype.value;
      var rest := ChainIsDerived(t, s, b);
      assert Derives(t, Declared, Concrete(a), Concrete(s));
      d := Transitive(Concrete(s), Declared, rest);
    }
  }

  /** How a type that is not a bottom reaches the abstract types above it. */
  lemma ClimbIsDerived(t: seq<SubType>, a: HeapType, shared: bool, ty: AbstractHeap) returns (d: Derivation)
    requires HeapIn(t, a) && HeapSub(t, a, Abstract(shared, ty))
    requires a.Abstract? ==> TopOf(a.ty).None?
    ensures Derives(t, d, a, Abstract(shared, ty))
  {
    var eq, any := Abstract(shared, EqHeap), Abstract(shared, Any);
    var eqAny := Axiom;
    assert Derives(t, eqAny, eq, any);
    if a == Abstract(shared, ty) {
      d := Reflexive;
    } else if a.Abstract? {
      if a.ty == EqHeap || ty == EqHeap {
        d := Axiom;
      } else {
        assert Derives(t, Axiom, a, eq);
        d := Transitive(eq, Axiom, eqAny);
      }
    } else {
      var own := Expansion(t[a.idx].composite.inner.Kind());
      var mid := Abstract(shared, own);
      assert Derives(t, Expand, a, mid);
      if ty == own {
        d := Expand;
      } else {
        assert Derives(t, Axiom, mid, eq);
        var toEq := Transitive(mid, Expand, Axiom);
        assert Derives(t, toEq, a, eq);
        d := if ty == EqHeap then toEq else Transitive(eq, toEq, eqAny);
      }
    }
  }

  lemma DecidedIsDerived(t: seq<SubType>, a: HeapType, b: HeapType) returns (d: Derivation)
    requires ChainsDown(t) && HeapIn(t, a) && HeapIn(t, b)
    requires HeapSub(t, a, b)
    ensures Derives(t, d, a, b)
  {
    if a == b {
      d := Reflexive;
    } else if a.Concrete? && b.Concrete? {
      d := ChainIsDerived(t, a.idx, b.idx);
    } else if a.Abstract? && TopOf(a.ty).Some? {
      var premise := ClimbIsDerived(t, b, a.shared, TopOf(a.ty).value);
      d := Bottom(premise);
    } else {
      d := ClimbIsDerived(t, a, b.shared, b.ty);
    }
  }

  /** The generator's decision procedure is sound and complete for the standard's rules. */
  lemma HeapSubIsMatching(t: seq<SubType>, a: HeapType, b: HeapType)
    requires ChainsDown(t) && HeapIn(t, a) && HeapIn(t, b)
    ensures HeapSub(t, a, b) <==> Matches(t, a, b)
  {
    if HeapSub(t, a, b) {
      var d := DecidedIsDerived(t, a, b);
    }
    if Matches(t, a, b) {
      var d :| Derives(t, d, a, b);
      DerivedIsDecided(t, d, a, b);
    }
  }

  // ----- the same for the types that heap types are part of -----

  /** Numbers and vectors match themselves; a reference that may be null only one that may be, too. */
  datatype ValDerivation = SameNumber | NeverNull(heap: Derivation) | IntoNullable(heap: Derivation)

  ghost predicate DerivesVal(t: seq<SubType>, d: ValDerivation, a: ValType, b: ValType)
    requires ValIn(t, a) && ValIn(t, b)
  {
    match d
    case SameNumber => a in {I32, I64, F32, F64, V128} && b == a
    case NeverNull(heap) => a.Ref? && b.Ref? && !a.ref.nullable && Derives(t, heap, a.ref.heap, b.ref.heap)
    case IntoNullable(heap) => a.Ref? && b.Ref? && b.ref.nullable && Derives(t, heap, a.ref.heap, b.ref.heap)
  }

  ghost predicate MatchesVal(t: seq<SubType>, a: ValType, b: ValType)
    requires ValIn(t, a) && ValIn(t, b)
  {
    exists d :: DerivesVal(t, d, a, b)
  }

  datatype StorageDerivation = SamePacked | Unpacked(val: ValDerivation)

  ghost predicate DerivesStorage(t: seq<SubType>, d: StorageDerivation, a: StorageType, b: StorageType)
    requires StorageIn(t, a) && StorageIn(t, b)
  {
    match d
    case SamePacked => a in {I8, I16} && b == a
    case Unpacked(val) => a.Val? && b.Val? && DerivesVal(t, val, a.val, b.val)
  }

  /** A constant field is covariant; a variable one matches in both directions. */
  datatype FieldDerivation =
    | ConstField(lower: StorageDerivation)
    | VarField(lower: StorageDerivation, upper: StorageDerivation)

  ghost predicate DerivesField(t: seq<SubType>, d: FieldDerivation, a: FieldType, b: FieldType)
    requires StorageIn(t, a.element) && StorageIn(t, b.element)
  {
    match d
    case ConstField(lower) => !a.mutable && !b.mutable && DerivesStorage(t, lower, a.element, b.element)
    case VarField(lower, upper) =>
      && a.mutable && b.mutable
      && DerivesStorage(t, lower, a.element, b.element) && DerivesStorage(t, upper, b.element, a.element)
  }

  datatype CompositeDerivation =
    | ArrayRule(field: FieldDerivation)
    | FuncRule(params: seq<ValDerivation>, results: seq<ValDerivation>)
    | StructRule(fields: seq<FieldDerivation>)

  ghost predicate DerivesComposite(t: seq<SubType>, d: CompositeDerivation, a: CompositeInner, b: CompositeInner)
    requires CompositeIn(t, a) && CompositeIn(t, b)
  {
    match d
    case ArrayRule(field) => a.Array? && b.Array? && DerivesField(t, field, a.field, b.field)
    case FuncRule(params, results) =>
      && a.Func? && b.Func?
      && |params| == |a.params| == |b.params| && |results| == |a.results| == |b.results|
      && (forall i :: 0 <= i < |params| ==> DerivesVal(t, params[i], b.params[i], a.params[i]))
      && (forall i :: 0 <= i < |results| ==> DerivesVal(t, results[i], a.results[i], b.results[i]))
    case StructRule(fields) =>
      && a.Struct? && b.Struct? && |fields| == |b.fields| <= |a.fields|
      && (forall i :: 0 <= i < |fields| ==> DerivesField(t, fields[i], a.fields[i], b.fields[i]))
  }

  lemma ValSubIsMatching(t: seq<SubType>, a: ValType, b: ValType)
    requires ChainsDown(t) && ValIn(t, a) && ValIn(t, b)
    ensures ValSub(t, a, b) <==> MatchesVal(t, a, b)
    ensures a.Ref? && b.Ref? ==> (RefSub(t, a.ref, b.ref) <==> MatchesVal(t, a, b))
  {
    if a.Ref? && b.Ref? {
      HeapSubIsMatching(t, a.ref.heap, b.ref.heap);
      if RefSub(t, a.ref, b.ref) {
        var heap :| Derives(t, heap, a.ref.heap, b.ref.heap);
        assert DerivesVal(t, if a.ref.nullable then IntoNullable(heap) else NeverNull(heap), a, b);
      }
    } else if a == b {
      assert DerivesVal(t, SameNumber, a, b);
    }
  }

  lemma StorageSubIsMatching(t: seq<SubType>, a: StorageType, b: StorageType)
    requires ChainsDown(t) && StorageIn(t, a) && StorageIn(t, b)
    ensures StorageSub(t, a, b) <==> exists d :: DerivesStorage(t, d, a, b)
  {
    if a.Val? && b.Val? {
      ValSubIsMatching(t, a.val, b.val);
      if ValSub(t, a.val, b.val) {
        var val :| DerivesVal(t, val, a.val, b.val);
        assert DerivesStorage(t, Unpacked(val), a, b);
      }
    } else if a == b {
      assert DerivesStorage(t, SamePacked, a, b);
    }
  }

  lemma FieldSubIsMatching(t: seq<SubType>, a: FieldType, b: FieldType)
    requires ChainsDown(t) && StorageIn(t, a.element) && StorageIn(t, b.element)
    ensures FieldSub(t, a, b) <==> exists d :: DerivesField(t, d, a, b)
  {
    StorageSubIsMatching(t, a.element, b.element);
    StorageSubIsMatching(t, b.element, a.element);
    if FieldSub(t, a, b) {
      var lower :| DerivesStorage(t, lower, a.element, b.element);
      if a.mutable {
        var upper :| DerivesStorage(t, upper, b.element, a.element);
        assert DerivesField(t, VarField(lower, upper), a, b);
      } else {
        assert DerivesField(t, ConstField(lower), a, b);
      }
    }
  }

  lemma {:induction false} ValsDerived(t: seq<SubType>, a: seq<ValType>, b: seq<ValType>)
    returns (ds: seq<ValDerivation>)
    requires ChainsDown(t) && |a| == |b| && forall i :: 0 <= i < |a| ==> ValIn(t, a[i]) && ValIn(t, b[i])
    requires forall i :: 0 <= i < |a| ==> ValSub(t, a[i], b[i])
    ensures |ds| == |a| && forall i :: 0 <= i < |a| ==> DerivesVal(t, ds[i], a[i], b[i])
  {
    if a == [] {
      ds := [];
    } else {
      var n := |a| - 1;
      var init := ValsDerived(t, a[..n], b[..n]);
      ValSubIsMatching(t, a[n], b[n]);
      var last :| DerivesVal(t, last, a[n], b[n]);
      ds := init + [last];
    }
  }

  lemma {:induction false} FieldsDerived(t: seq<SubType>, a: seq<FieldType>, b: seq<FieldType>)
    returns (ds: seq<FieldDerivation>)
    requires ChainsDown(t) && |b| <= |a|
    requires forall i :: 0 <= i < |b| ==> StorageIn(t, a[i].element) && StorageIn(t, b[i].element)
    requires forall i :: 0 <= i < |b| ==> FieldSub(t, a[i], b[i])
    ensures |ds| == |b| && forall i :: 0 <= i < |b| ==> DerivesField(t, ds[i], a[i], b[i])
  {
    if b == [] {
      ds := [];
    } else {
      var n := |b| - 1;
      var init := FieldsDerived(t, a, b[..n]);
      FieldSubIsMatching(t, a[n], b[n]);
      var last :| DerivesField(t, last, a[n], b[n]);
      ds := init + [last];
    }
  }

  lemma CompositeDerived(t: seq<SubType>, a: CompositeInner, b: CompositeInner) returns (d: CompositeDerivation)
    requires ChainsDown(t) && CompositeIn(t, a) && CompositeIn(t, b) && CompositeSub(t, a, b)
    ensures DerivesComposite(t, d, a, b)
  {
    match a {
      case Array(field) =>
        FieldSubIsMatching(t, field, b.field);
        var f :| DerivesField(t, f, field, b.field);
        d := ArrayRule(f);
      case Func(params, results) =>
        var ps := ValsDerived(t, b.params, params);
        var rs := ValsDerived(t, results, b.results);
        d := FuncRule(ps, rs);
      case Struct(fields) =>
        var fs := FieldsDerived(t, fields, b.fields);
        d := StructRule(fs);
    }
  }

  lemma DerivedComposite(t: seq<SubType>, d: CompositeDerivation, a: CompositeInner, b: CompositeInner)
    requires ChainsDown(t) && CompositeIn(t, a) && CompositeIn(t, b) && DerivesComposite(t, d, a, b)
    ensures CompositeSub(t, a, b)
  {
    hide FieldSub;
    hide ValSub;
    match d {
      case ArrayRule(_) =>
        FieldSubIsMatching(t, a.field, b.field);
      case FuncRule(params, results) =>
        forall i | 0 <= i < |params|
          ensures ValSub(t, b.params[i], a.params[i])
        {
          ValSubIsMatching(t, b.params[i], a.params[i]);
        }
        forall i | 0 <= i < |results|
          ensures ValSub(t, a.results[i], b.results[i])
        {
          ValSubIsMatching(t, a.results[i], b.results[i]);
        }
      case StructRule(fields) =>
        forall i | 0 <= i < |fields|
          ensures FieldSub(t, a.fields[i], b.fields[i])
        {
          FieldSubIsMatching(t, a.fields[i], b.fields[i]);
        }
    }
  }

  /** What a declared subtype has to satisfy is what the standard's rules for composite types derive. */
  lemma CompositeSubIsMatching(t: seq<SubType>, a: CompositeInner, b: CompositeInner)
    requires ChainsDown(t) && CompositeIn(t, a) && CompositeIn(t, b)
    ensures CompositeSub(t, a, b) <==> exists d :: DerivesComposite(t, d, a, b)
  {
    if CompositeSub(t, a, b) {
      var d := CompositeDerived(t, a, b);
    }
    if d :| DerivesComposite(t, d, a, b) {
      DerivedComposite(t, d, a, b);
    }
  }
}
