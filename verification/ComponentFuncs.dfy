/**
 wasm-smith's component functions: one index space of component and core functions, kept apart
 by lists of positions, and the lifting and lowering of functions on scalars between them.
 */
module ComponentFuncs {
  import opened Common

  datatype Primitive = Char | Bool | S8 | U8 | S16 | U16 | S32 | U32 | S64 | U64 | Float32 | Float64 | Text

  datatype CompVal = PrimVal(prim: Primitive) | TypeVal(index: nat)

  datatype CoreVal = I32 | I64 | F32 | F64 | V128 | RefVal

  datatype FuncType = FuncType(params: seq<(string, CompVal)>, results: seq<(Option<string>, CompVal)>)

  datatype CoreFunc = CoreFunc(params: seq<CoreVal>, results: seq<CoreVal>)

  predicate ScalarVal(v: CompVal) {
    v.PrimVal? && v.prim != Text
  }

  predicate Scalar(f: FuncType) {
    && (forall i :: 0 <= i < |f.params| ==> ScalarVal(f.params[i].1))
    && |f.results| == 1 && ScalarVal(f.results[0].1)
  }

  /** Core types that the canonical ABI uses for scalars. */
  predicate ScalarCore(v: CoreVal) {
    v != V128 && v != RefVal
  }

  predicate ScalarCoreFunc(f: CoreFunc) {
    && (forall i :: 0 <= i < |f.params| ==> ScalarCore(f.params[i]))
    && |f.results| == 1 && ScalarCore(f.results[0])
  }

  // ----- the canonical ABI of scalars -----

  /** `None` where the source is unimplemented. */
  function ToCore(v: CompVal): Option<CoreVal> {
    match v
    case PrimVal(p) =>
      (match p
       case S64 => Some(I64)
       case U64 => Some(I64)
       case Float32 => Some(F32)
       case Float64 => Some(F64)
       case Text => None
       case _ => Some(I32))
    case TypeVal(_) => None
  }

  predicate Supported(f: FuncType) {
    && (forall i :: 0 <= i < |f.params| ==> ToCore(f.params[i].1).Some?)
    && (forall i :: 0 <= i < |f.results| ==> ToCore(f.results[i].1).Some?)
  }

  function CanonicalAbi(f: FuncType): Option<CoreFunc> {
    if Supported(f) then
      Some(CoreFunc(seq(|f.params|, i requires 0 <= i < |f.params| && ToCore(f.params[i].1).Some? =>
                        ToCore(f.params[i].1).value),
                    seq(|f.results|, i requires 0 <= i < |f.results| && ToCore(f.results[i].1).Some? =>
                        ToCore(f.results[i].1).value)))
    else None
  }

  /** Lowering works on scalar functions, and on one-result functions only on those. */
  lemma ScalarLowers(f: FuncType)
    ensures Scalar(f) ==> CanonicalAbi(f).Some? && ScalarCoreFunc(CanonicalAbi(f).value)
    ensures CanonicalAbi(f).Some? && |f.results| == 1 ==> Scalar(f)
  {
    assert forall v: CompVal :: ToCore(v).Some? <==> ScalarVal(v);
    assert forall v: CompVal :: ToCore(v).Some? ==> ScalarCore(ToCore(v).value);
  }

  method Choose<T>(from: seq<T>) returns (x: T)
    requires from != []
    ensures x in from
  {
    var i: nat := *;
    return from[i % |from|];
  }

  /** Any component type that lowers to the core type. */
  method FromCore(v: CoreVal) returns (r: Option<CompVal>)
    ensures r.Some? <==> ScalarCore(v)
    ensures r.Some? ==> ToCore(r.value) == Some(v)
  {
    match v {
      case I32 =>
        var p := Choose([Char, Bool, S8, U8, S16, U16, S32, U32]);
        return Some(PrimVal(p));
      case I64 =>
        var p := Choose([S64, U64]);
        return Some(PrimVal(p));
      case F32 =>
        return Some(PrimVal(Float32));
      case F64 =>
        return Some(PrimVal(Float64));
      case V128 =>
        return None;
      case RefVal =>
        return None;
    }
  }

  /** Lifting a core function type: lowering the answer gives that type back. */
  method InverseAbi(core: CoreFunc) returns (r: Option<FuncType>)
    ensures r.Some? <==> |core.results| <= 1 && (forall i :: 0 <= i < |core.params| ==> ScalarCore(core.params[i]))
                         && (|core.results| == 1 ==> ScalarCore(core.results[0]))
    ensures r.Some? ==> CanonicalAbi(r.value) == Some(core)
  {
    var params: seq<(string, CompVal)> := [];
    for i := 0 to |core.params|
      invariant |params| == i
      invariant forall j :: 0 <= j < i ==> ScalarCore(core.params[j]) && ToCore(params[j].1) == Some(core.params[j])
    {
      var v := FromCore(core.params[i]);
      if v.None? {
        return None;
      }
      var name: string := *;
      params := params + [(name, v.value)];
    }
    var results: seq<(Option<string>, CompVal)> := [];
    if |core.results| > 1 {
      return None;
    }
    if |core.results| == 1 {
      var v := FromCore(core.results[0]);
      if v.None? {
        return None;
      }
      var name: Option<string> := *;
      results := [(name, v.value)];
    }
    r := Some(FuncType(params, results));
    assert Supported(r.value);
    assert CanonicalAbi(r.value).value.params == core.params;
    assert CanonicalAbi(r.value).value.results == core.results;
  }

  // ----- one component -----

  datatype AnyFunc = ComponentFunc(ty: FuncType) | CoreWasm(core: CoreFunc)

  datatype AnyType = FuncTy(func: FuncType) | OtherTy

  datatype Canon = Lift(coreIndex: nat, ty: nat) | Lower(func: nat)

  datatype Context = Context(
    types: seq<AnyType>,
    typeIndices: map<FuncType, seq<nat>>,
    funcs: seq<AnyFunc>,
    componentFuncs: seq<nat>,
    scalarFuncs: seq<nat>,
    coreFuncs: seq<nat>,
    canon: seq<Canon>)

  const EmptyContext := Context([], map[], [], [], [], [], [])

  ghost predicate Increasing(s: seq<nat>) {
    forall i, j :: 0 <= i < j < |s| ==> s[i] < s[j]
  }

  /** The index of a function type leads to it. */
  ghost predicate TypesOk(c: Context) {
    forall f :: f in c.typeIndices ==>
      && c.typeIndices[f] != []
      && forall i :: 0 <= i < |c.typeIndices[f]| ==>
          c.typeIndices[f][i] < |c.types| && c.types[c.typeIndices[f][i]] == FuncTy(f)
  }

  /** Both lists together are the index space, each position once. */
  ghost predicate Partition(c: Context) {
    && Increasing(c.componentFuncs) && Increasing(c.coreFuncs)
    && (forall p :: p in c.componentFuncs || p in c.coreFuncs ==> p < |c.funcs|)
    && (forall p: nat :: p < |c.funcs| ==> (c.funcs[p].ComponentFunc? <==> p in c.componentFuncs))
    && (forall p: nat :: p < |c.funcs| ==> (c.funcs[p].CoreWasm? <==> p in c.coreFuncs))
  }

  /** The scalar list holds exactly the component functions on scalars. */
  ghost predicate ScalarsOk(c: Context) {
    && Increasing(c.scalarFuncs) && (forall s :: s in c.scalarFuncs ==> s < |c.componentFuncs|)
    && forall i: nat :: i < |c.componentFuncs| ==>
         && c.componentFuncs[i] < |c.funcs| && c.funcs[c.componentFuncs[i]].ComponentFunc?
         && (i in c.scalarFuncs <==> Scalar(c.funcs[c.componentFuncs[i]].ty))
  }

  /** Core functions are scalar with one result. */
  ghost predicate CoresOk(c: Context) {
    forall p :: 0 <= p < |c.funcs| && c.funcs[p].CoreWasm? ==> ScalarCoreFunc(c.funcs[p].core)
  }

  /** A lifted function has the type its core function implements; lowered ones are scalar. */
  ghost predicate CanonItemOk(c: Context, x: Canon) {
    match x
    case Lift(coreIndex, ty) =>
      && coreIndex < |c.coreFuncs| && c.coreFuncs[coreIndex] < |c.funcs| && c.funcs[c.coreFuncs[coreIndex]].CoreWasm?
      && ty < |c.types| && c.types[ty].FuncTy?
      && CanonicalAbi(c.types[ty].func) == Some(c.funcs[c.coreFuncs[coreIndex]].core)
    case Lower(func) =>
      && func < |c.componentFuncs| && c.componentFuncs[func] < |c.funcs|
      && c.funcs[c.componentFuncs[func]].ComponentFunc?
      && Scalar(c.funcs[c.componentFuncs[func]].ty)
  }

  ghost predicate Valid(c: Context) {
    && TypesOk(c) && Partition(c) && ScalarsOk(c) && CoresOk(c)
    && forall i :: 0 <= i < |c.canon| ==> CanonItemOk(c, c.canon[i])
  }

  function WithType(c: Context, t: AnyType): Context {
    c.(types := c.types + [t],
       typeIndices := if t.FuncTy? then
                        c.typeIndices[t.func :=
                                      (if t.func in c.typeIndices then c.typeIndices[t.func] else []) + [|c.types|]]
                      else c.typeIndices)
  }

  lemma WithTypeKeeps(c: Context, t: AnyType)
    requires Valid(c)
    ensures Valid(WithType(c, t))
  {
    hide CanonicalAbi;
    hide Scalar;
    var r := WithType(c, t);
    forall i | 0 <= i < |r.canon|
      ensures CanonItemOk(r, r.canon[i])
    {
      assert CanonItemOk(c, c.canon[i]);
    }
    assert Partition(r) && ScalarsOk(r) && CoresOk(r);
  }

  /** A component function, imported or lifted. */
  function WithComponentFunc(c: Context, f: FuncType): Context {
    c.(funcs := c.funcs + [ComponentFunc(f)], componentFuncs := c.componentFuncs + [|c.funcs|],
       scalarFuncs := if Scalar(f) then c.scalarFuncs + [|c.componentFuncs|] else c.scalarFuncs)
  }

  lemma CanonItemKept(c: Context, d: Context, x: Canon)
    requires CanonItemOk(c, x) && c.types <= d.types && c.funcs <= d.funcs
    requires c.componentFuncs <= d.componentFuncs && c.coreFuncs <= d.coreFuncs
    ensures CanonItemOk(d, x)
  {
    hide CanonicalAbi;
    hide Scalar;
  }

  lemma WithComponentFuncKeeps(c: Context, f: FuncType)
    requires Valid(c)
    ensures Valid(WithComponentFunc(c, f))
  {
    hide Scalar;
    var r := WithComponentFunc(c, f);
    ComponentFuncPartition(c, f);
    hide Partition;
    forall i | 0 <= i < |r.canon|
      ensures CanonItemOk(r, r.canon[i])
    {
      CanonItemKept(c, r, c.canon[i]);
    }
    hide CanonItemOk;
    ComponentFuncScalars(c, f);
    hide ScalarsOk;
  }

  lemma IncreasingMore(s: seq<nat>, n: nat)
    requires Increasing(s) && forall p :: p in s ==> p < n
    ensures Increasing(s + [n])
  {
    assert forall i :: 0 <= i < |s| ==> s[i] in s;
  }

  lemma ComponentFuncPartition(c: Context, f: FuncType)
    requires Partition(c)
    ensures Partition(WithComponentFunc(c, f))
  {
    IncreasingMore(c.componentFuncs, |c.funcs|);
    var r := WithComponentFunc(c, f);
    forall p: nat | p < |r.funcs|
      ensures r.funcs[p].ComponentFunc? <==> p in r.componentFuncs
      ensures r.funcs[p].CoreWasm? <==> p in r.coreFuncs
    {
      if p == |c.funcs| {
        assert r.componentFuncs[|c.componentFuncs|] == p;
      }
    }
  }

  lemma ComponentFuncScalars(c: Context, f: FuncType)
    requires ScalarsOk(c)
    ensures ScalarsOk(WithComponentFunc(c, f))
  {
    hide Scalar;
    var r := WithComponentFunc(c, f);
    var n := |c.componentFuncs|;
    IncreasingMore(c.scalarFuncs, n);
    forall i: nat | i < |r.componentFuncs|
      ensures r.componentFuncs[i] < |r.funcs| && r.funcs[r.componentFuncs[i]].ComponentFunc?
      ensures i in r.scalarFuncs <==> Scalar(r.funcs[r.componentFuncs[i]].ty)
    {
      if i == n {
        assert n !in c.scalarFuncs;
      } else {
        assert r.componentFuncs[i] == c.componentFuncs[i];
        assert r.funcs[c.componentFuncs[i]] == c.funcs[c.componentFuncs[i]];
        assert i in r.scalarFuncs <==> i in c.scalarFuncs;
      }
    }
  }

  function WithCoreFunc(c: Context, f: CoreFunc): Context {
    c.(funcs := c.funcs + [CoreWasm(f)], coreFuncs := c.coreFuncs + [|c.funcs|])
  }

  lemma CoreFuncPartition(c: Context, f: CoreFunc)
    requires Partition(c)
    ensures Partition(WithCoreFunc(c, f))
  {
    IncreasingMore(c.coreFuncs, |c.funcs|);
    var r := WithCoreFunc(c, f);
    forall p: nat | p < |r.funcs|
      ensures r.funcs[p].ComponentFunc? <==> p in r.componentFuncs
      ensures r.funcs[p].CoreWasm? <==> p in r.coreFuncs
    {
      if p == |c.funcs| {
        assert r.coreFuncs[|c.coreFuncs|] == p;
      }
    }
  }

  lemma WithCoreFuncKeeps(c: Context, f: CoreFunc)
    requires Valid(c) && ScalarCoreFunc(f)
    ensures Valid(WithCoreFunc(c, f))
  {
    hide Scalar;
    hide ScalarCoreFunc;
    var r := WithCoreFunc(c, f);
    CoreFuncPartition(c, f);
    CoreFuncScalars(c, f);
    hide Partition;
    hide ScalarsOk;
    forall i | 0 <= i < |r.canon|
      ensures CanonItemOk(r, r.canon[i])
    {
      CanonItemKept(c, r, c.canon[i]);
    }
    hide CanonItemOk;
  }

  lemma CoreFuncScalars(c: Context, f: CoreFunc)
    requires ScalarsOk(c)
    ensures ScalarsOk(WithCoreFunc(c, f))
  {
    hide Scalar;
  }

  lemma WithCanonKeeps(c: Context, x: Canon)
    requires Valid(c) && CanonItemOk(c, x)
    ensures Valid(c.(canon := c.canon + [x]))
  {
    hide Scalar;
    hide CanonicalAbi;
    var r := c.(canon := c.canon + [x]);
    forall i | 0 <= i < |r.canon|
      ensures CanonItemOk(r, r.canon[i])
    {
      CanonItemKept(c, r, if i < |c.canon| then c.canon[i] else x);
    }
    hide CanonItemOk;
    assert Partition(r) && ScalarsOk(r) && TypesOk(r) && CoresOk(r);
  }

  /** The function that a canonical definition makes. */
  ghost function CanonFunc(c: Context, x: Canon): AnyFunc
    requires CanonItemOk(c, x)
  {
    match x
    case Lift(_, ty) => ComponentFunc(c.types[ty].func)
    case Lower(func) => ScalarLowers(c.funcs[c.componentFuncs[func]].ty);
                        CoreWasm(CanonicalAbi(c.funcs[c.componentFuncs[func]].ty).value)
  }

  /** The definition `x` and its function are the only additions; nothing that was there has moved. */
  ghost predicate Appends(a: Context, x: Canon, b: Context) {
    && b.canon == a.canon + [x] && CanonItemOk(b, x) && b.funcs == a.funcs + [CanonFunc(b, x)]
    && a.types <= b.types && a.componentFuncs <= b.componentFuncs && a.coreFuncs <= b.coreFuncs
    && a.scalarFuncs <= b.scalarFuncs
  }

  /** One more canonical definition, of whatever kind. */
  ghost predicate AppendsOne(a: Context, b: Context) {
    |b.canon| == |a.canon| + 1 && Appends(a, b.canon[|a.canon|], b)
  }

  /** Nothing can be lifted or lowered. */
  predicate Stuck(c: Context) {
    c.scalarFuncs == [] && c.coreFuncs == []
  }

  // ----- the builder -----

  /** The components being built, the innermost last. */
  class ComponentBuilder {
    var components: seq<Context>

    ghost predicate AllValid()
      reads this
    {
      components != [] && forall i :: 0 <= i < |components| ==> Valid(components[i])
    }

    constructor ()
      ensures AllValid()
    {
      components := [EmptyContext];
    }

    ghost function Outer(): seq<Context>
      reads this
      requires components != []
    {
      components[..|components| - 1]
    }

    function Current(): Context
      reads this
      requires components != []
    {
      components[|components| - 1]
    }

    method Update(c: Context)
      requires AllValid() && Valid(c)
      modifies this
      ensures AllValid() && Current() == c && Outer() == old(Outer())
    {
      hide Valid;
      components := components[..|components| - 1] + [c];
    }

    method StartComponent()
      requires AllValid()
      modifies this
      ensures AllValid() && Current() == EmptyContext && Outer() == old(components)
    {
      assert Valid(EmptyContext);
      hide Valid;
      components := components + [EmptyContext];
    }

    method FinishComponent() returns (finished: Context)
      requires AllValid() && |components| > 1
      modifies this
      ensures AllValid() && components == old(Outer()) && Valid(finished) && finished == old(Current())
    {
      hide Valid;
      finished := Current();
      components := components[..|components| - 1];
    }

    method PushType(t: AnyType) returns (index: nat)
      requires AllValid()
      modifies this
      ensures AllValid() && Outer() == old(Outer()) && Current() == WithType(old(Current()), t)
      ensures index == old(|Current().types|)
    {
      hide Valid;
      index := |Current().types|;
      WithTypeKeeps(Current(), t);
      Update(WithType(Current(), t));
    }

    /** An imported function of a function type of the scope. */
    method PushImportedFunc(ty: nat)
      requires AllValid() && ty < |Current().types| && Current().types[ty].FuncTy?
      modifies this
      ensures AllValid() && Outer() == old(Outer())
      ensures Current() == WithComponentFunc(old(Current()), old(Current()).types[ty].func)
    {
      hide Valid;
      WithComponentFuncKeeps(Current(), Current().types[ty].func);
      Update(WithComponentFunc(Current(), Current().types[ty].func));
    }

    method PushFunc(x: Canon)
      requires AllValid() && CanonItemOk(Current(), x)
      modifies this
      ensures AllValid() && Outer() == old(Outer()) && Current().types == old(Current()).types
      ensures Appends(old(Current()), x, Current())
    {
      hide Valid;
      var c := Current();
      match x {
        case Lift(coreIndex, ty) =>
          WithComponentFuncKeeps(c, c.types[ty].func);
          var d := WithComponentFunc(c, c.types[ty].func);
          CanonItemKept(c, d, x);
          WithCanonKeeps(d, x);
          Update(d.(canon := d.canon + [x]));
        case Lower(func) =>
          ScalarLowers(c.funcs[c.componentFuncs[func]].ty);
          var core := CanonicalAbi(c.funcs[c.componentFuncs[func]].ty).value;
          WithCoreFuncKeeps(c, core);
          var d := WithCoreFunc(c, core);
          CanonItemKept(c, d, x);
          WithCanonKeeps(d, x);
          Update(d.(canon := d.canon + [x]));
      }
    }

    /**
     One round of the canonical section: lower a scalar function or lift a core one. Only when
     no further type may be defined can a round end without a new definition.
     */
    method CanonicalRound(maxTypes: nat) returns (more: bool)
      requires AllValid()
      modifies this
      ensures AllValid() && Outer() == old(Outer())
      ensures !more <==> Stuck(old(Current()))
      ensures AppendsOne(old(Current()), Current()) || Current() == old(Current())
      ensures !more ==> Current() == old(Current())
      ensures |Current().types| <= old(|Current().types|) + 1
      ensures more && Current() == old(Current()) ==> maxTypes <= |Current().types| && Current().coreFuncs != []
    {
      hide Valid;
      hide CanonFunc;
      var c := Current();
      if c.scalarFuncs == [] && c.coreFuncs == [] {
        return false;
      }
      var lower: bool := *;
      if c.coreFuncs == [] || (c.scalarFuncs != [] && lower) {
        var func := Choose(c.scalarFuncs);
        ScalarChoice(c, func);
        PushFunc(Lower(func));
        return true;
      }
      var coreIndex: nat := *;
      coreIndex := coreIndex % |c.coreFuncs|;
      CoreChoice(c, coreIndex);
      var core := c.funcs[c.coreFuncs[coreIndex]].core;
      var f := InverseAbi(core);
      // The type of a core function is always one that can be lifted.
      assert f.Some?;
      var ty: nat;
      if f.value in c.typeIndices {
        IndexedType(c, f.value);
        ty := Choose(c.typeIndices[f.value]);
      } else if |c.types| < maxTypes {
        ty := PushType(FuncTy(f.value));
      } else {
        return true;
      }
      assert CanonItemOk(Current(), Lift(coreIndex, ty));
      PushFunc(Lift(coreIndex, ty));
      return true;
    }

    /**
     A canonical section: `min` rounds, then as many more as the input asks for, up to `max`.
     It fails exactly if rounds are demanded and there is nothing to lift or lower; every
     definition makes one function; and the minimum is met if enough types may be defined.
     */
    method CanonicalSection(min: nat, max: nat, maxTypes: nat) returns (ok: bool)
      requires AllValid() && min <= max
      modifies this
      ensures AllValid() && Outer() == old(Outer())
      ensures !ok <==> min > 0 && Stuck(old(Current()))
      ensures Progressed(old(Current()), Current(), max)
      ensures ok && old(|Current().types|) + min <= maxTypes ==> |Current().canon| >= old(|Current().canon|) + min
    {
      hide Valid;
      hide CanonItemOk;
      hide CanonFunc;
      ghost var before := Current();
      for i := 0 to min
        invariant AllValid() && Outer() == old(Outer()) && Progressed(before, Current(), i)
        invariant i > 0 ==> !Stuck(before)
        invariant |before.types| + min <= maxTypes ==> |Current().canon| == |before.canon| + i
      {
        var more := CanonicalRound(maxTypes);
        if !more {
          return false;
        }
      }
      for i := 0 to max - min
        invariant AllValid() && Outer() == old(Outer()) && Progressed(before, Current(), min + i)
        invariant |before.types| + min <= maxTypes ==> |Current().canon| >= |before.canon| + min
      {
        var goOn: bool := *;
        if !goOn {
          break;
        }
        var more := CanonicalRound(maxTypes);
        if !more {
          break;
        }
      }
      return true;
    }
  }

  /** After at most `n` rounds: as many new functions as definitions, and nothing old has changed. */
  ghost predicate Progressed(a: Context, b: Context, n: nat) {
    && a.canon <= b.canon && a.funcs <= b.funcs && |b.canon| - |a.canon| == |b.funcs| - |a.funcs| <= n
    && a.types <= b.types && |b.types| <= |a.types| + n
    && a.scalarFuncs <= b.scalarFuncs && a.coreFuncs <= b.coreFuncs && (Stuck(a) ==> b == a)
  }

  lemma ScalarChoice(c: Context, func: nat)
    requires Valid(c) && func in c.scalarFuncs
    ensures CanonItemOk(c, Lower(func))
  {
    hide Scalar;
  }

  lemma CoreChoice(c: Context, coreIndex: nat)
    requires Valid(c) && coreIndex < |c.coreFuncs|
    ensures c.coreFuncs[coreIndex] < |c.funcs| && c.funcs[c.coreFuncs[coreIndex]].CoreWasm?
    ensures ScalarCoreFunc(c.funcs[c.coreFuncs[coreIndex]].core)
  {
    hide Scalar;
    assert c.coreFuncs[coreIndex] in c.coreFuncs;
  }

  lemma IndexedType(c: Context, f: FuncType)
    requires Valid(c) && f in c.typeIndices
    ensures c.typeIndices[f] != [] && forall i :: i in c.typeIndices[f] ==> i < |c.types| && c.types[i] == FuncTy(f)
  {
    hide Scalar;
    hide CanonicalAbi;
  }
}
