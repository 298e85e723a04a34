/**
 Component types on both sides of wasm-compose's translation. The source is an arena of
 definitions per component, with aliases; the target is a list of items with index spaces,
 nested bodies and aliases of two kinds. Both have a meaning without any indices.
 */
module ComponentTypes {
  import opened Common

  // ----- the source -----

  datatype ValRef = Prim(prim: nat) | Ref(id: nat)

  /** `TypeE` exports or imports a type: `created` is the new name of `referenced`. */
  datatype Entity =
    | FuncE(id: nat) | ValueE(ty: ValRef) | TypeE(created: nat, referenced: nat)
    | InstanceE(id: nat) | ComponentE(id: nat)

  datatype Named = Named(name: string, entity: Entity)

  /** `Ctor` stands for every type whose parts are value types: records, lists, functions, ... */
  datatype Def =
    | Alias(target: nat)
    | Ctor(shape: string, args: seq<ValRef>)
    | Instance(exports: seq<Named>)
    | Component(imports: seq<Named>, exports: seq<Named>)

  /** A type of one of the components. */
  datatype Key = Key(comp: nat, id: nat)

  type Types = seq<Def>

  /** The end of the chain of aliases that starts at `id`. */
  function Peel(ts: Types, id: nat): (r: nat)
    requires id < |ts|
    ensures r <= id
  {
    if ts[id].Alias? && ts[id].target < id then Peel(ts, ts[id].target) else id
  }

  ghost predicate ValOk(ts: Types, v: ValRef, bound: nat) {
    v.Ref? ==> v.id < bound <= |ts| && ts[Peel(ts, v.id)].Ctor?
  }

  /** The largest type an entity names. */
  function Top(e: Entity): nat {
    match e
    case FuncE(id) => id
    case ValueE(v) => if v.Ref? then v.id else 0
    case TypeE(created, _) => created
    case InstanceE(id) => id
    case ComponentE(id) => id
  }

  /** The type that a reference to the entity names, if it is not a primitive type. */
  function KeyOf(e: Entity): Option<nat> {
    match e
    case FuncE(id) => Some(id)
    case ValueE(v) => if v.Ref? then Some(v.id) else None
    case TypeE(_, referenced) => Some(referenced)
    case InstanceE(id) => Some(id)
    case ComponentE(id) => Some(id)
  }

  ghost predicate EntityOk(ts: Types, e: Entity, bound: nat) {
    && bound <= |ts|
    && match e
       case FuncE(id) => id < bound && ts[Peel(ts, id)].Ctor?
       case ValueE(v) => ValOk(ts, v, bound)
       case TypeE(created, referenced) => referenced < created < bound && ts[created] == Alias(referenced)
       case InstanceE(id) => id < bound && ts[Peel(ts, id)].Instance?
       case ComponentE(id) => id < bound && ts[Peel(ts, id)].Component?
  }

  ghost predicate NamedOk(ts: Types, ns: seq<Named>, bound: nat) {
    && (forall i :: 0 <= i < |ns| ==> EntityOk(ts, ns[i].entity, bound))
    && (forall i, j :: 0 <= i < j < |ns| ==> ns[i].name != ns[j].name)
  }

  /** A type export creates a type that nothing before it in the list could know. */
  ghost predicate Created(before: seq<Named>, ns: seq<Named>) {
    && (forall i, j :: 0 <= i < |before| && 0 <= j < |ns| && ns[j].entity.TypeE? ==>
          Top(before[i].entity) < ns[j].entity.created)
    && (forall i, j :: 0 <= i < j < |ns| && ns[j].entity.TypeE? ==> Top(ns[i].entity) < ns[j].entity.created)
  }

  /** Types only refer to earlier ones. */
  ghost predicate DefOk(ts: Types, id: nat)
    requires id < |ts|
  {
    match ts[id]
    case Alias(t) => t < id
    case Ctor(_, args) => forall i :: 0 <= i < |args| ==> ValOk(ts, args[i], id)
    case Instance(exports) => NamedOk(ts, exports, id) && Created([], exports)
    case Component(imports, exports) =>
      NamedOk(ts, imports, id) && NamedOk(ts, exports, id) && Created(imports, exports)
  }

  /** The types that the instance type `id` creates by exporting them. */
  ghost predicate Creates(ts: Types, id: nat, created: nat) {
    && id < |ts| && ts[id].Instance?
    && exists j :: 0 <= j < |ts[id].exports| && ts[id].exports[j].entity.TypeE?
                && ts[id].exports[j].entity.created == created
  }

  ghost predicate TypesOk(ts: Types) {
    && (forall id: nat :: id < |ts| ==> DefOk(ts, id))
    && (forall id, id', created :: Creates(ts, id, created) && Creates(ts, id', created) ==> id == id')
  }

  // ----- meaning of the source -----

  datatype Kind = KFunc | KValue | KType | KInstance | KComponent

  datatype Meaning =
    | MPrim(prim: nat)
    | MCtor(shape: string, args: seq<Meaning>)
    | MInstance(exports: seq<MNamed>)
    | MComponent(imports: seq<MNamed>, exports: seq<MNamed>)

  datatype MNamed = MNamed(name: string, kind: Kind, meaning: Meaning)

  ghost function Unfold(ts: Types, id: nat): Meaning
    requires TypesOk(ts) && id < |ts|
    decreases id
  {
    assert DefOk(ts, id);
    match ts[id]
    case Alias(t) => Unfold(ts, t)
    case Ctor(shape, args) => MCtor(shape, seq(|args|, i requires 0 <= i < |args| => UnfoldVal(ts, args[i], id)))
    case Instance(exports) => MInstance(UnfoldNamed(ts, exports, id))
    case Component(imports, exports) => MComponent(UnfoldNamed(ts, imports, id), UnfoldNamed(ts, exports, id))
  }

  ghost function UnfoldVal(ts: Types, v: ValRef, bound: nat): Meaning
    requires TypesOk(ts) && ValOk(ts, v, bound)
    decreases bound, 0
  {
    match v
    case Prim(p) => MPrim(p)
    case Ref(id) => Unfold(ts, id)
  }

  ghost function UnfoldEntity(ts: Types, e: Entity, bound: nat): (Kind, Meaning)
    requires TypesOk(ts) && EntityOk(ts, e, bound)
    decreases bound, 1
  {
    match e
    case FuncE(id) => (KFunc, Unfold(ts, id))
    case ValueE(v) => (KValue, UnfoldVal(ts, v, bound))
    case TypeE(_, referenced) => (KType, Unfold(ts, referenced))
    case InstanceE(id) => (KInstance, Unfold(ts, id))
    case ComponentE(id) => (KComponent, Unfold(ts, id))
  }

  ghost function UnfoldNamed(ts: Types, ns: seq<Named>, bound: nat): (r: seq<MNamed>)
    requires TypesOk(ts) && NamedOk(ts, ns, bound)
    ensures |r| == |ns|
    decreases bound, 2
  {
    seq(|ns|, i requires 0 <= i < |ns| =>
      var (kind, m) := UnfoldEntity(ts, ns[i].entity, bound); MNamed(ns[i].name, kind, m))
  }

  lemma {:induction false} UnfoldPeeled(ts: Types, id: nat)
    requires TypesOk(ts) && id < |ts|
    ensures !ts[Peel(ts, id)].Alias?
    ensures Unfold(ts, id) == Unfold(ts, Peel(ts, id))
    decreases id
  {
    assert DefOk(ts, id);
    if ts[id].Alias? {
      UnfoldPeeled(ts, ts[id].target);
    }
  }

  // ----- what translating a type may look up -----

  /** The type `x` is `id` or one that it is made of. */
  ghost predicate Touches(ts: Types, id: nat, x: nat)
    requires TypesOk(ts) && id < |ts|
    decreases id
  {
    assert DefOk(ts, id);
    x == id ||
    match ts[id]
    case Alias(t) => Touches(ts, t, x)
    case Ctor(_, args) => exists i :: 0 <= i < |args| && TouchesVal(ts, args[i], id, x)
    case Instance(exports) => TouchesNamed(ts, exports, id, x)
    case Component(imports, exports) => TouchesNamed(ts, imports, id, x) || TouchesNamed(ts, exports, id, x)
  }

  ghost predicate TouchesVal(ts: Types, v: ValRef, bound: nat, x: nat)
    requires TypesOk(ts) && ValOk(ts, v, bound)
    decreases bound, 0
  {
    v.Ref? && Touches(ts, v.id, x)
  }

  ghost predicate TouchesEntity(ts: Types, e: Entity, bound: nat, x: nat)
    requires TypesOk(ts) && EntityOk(ts, e, bound)
    decreases bound, 1
  {
    KeyOf(e).Some? && Touches(ts, KeyOf(e).value, x)
  }

  ghost predicate TouchesNamed(ts: Types, ns: seq<Named>, bound: nat, x: nat)
    requires TypesOk(ts) && NamedOk(ts, ns, bound)
    decreases bound, 2
  {
    exists i :: 0 <= i < |ns| && TouchesEntity(ts, ns[i].entity, bound, x)
  }

  // ----- the target -----

  datatype TVal = TPrim(prim: nat) | TIdx(index: nat)

  datatype TRef =
    | TFunc(index: nat) | TValue(ty: TVal) | TType(index: nat) | TInstance(index: nat) | TComponent(index: nat)

  datatype Item =
    | DefCtor(shape: string, args: seq<TVal>)
    | DefInstance(body: seq<Item>)
    | DefComponent(body: seq<Item>)
    | AliasExport(instance: nat, name: string)
    | AliasOuter(count: nat, index: nat)
    | ImportItem(name: string, item: TRef)
    | ExportItem(name: string, item: TRef)

  /** The index spaces of a list of items, and what it imports and exports. */
  datatype Env = Env(types: seq<Meaning>, instances: seq<Meaning>, imports: seq<MNamed>, exports: seq<MNamed>)

  const EmptyEnv := Env([], [], [], [])

  function ValMeaning(types: seq<Meaning>, v: TVal): Option<Meaning> {
    match v
    case TPrim(p) => Some(MPrim(p))
    case TIdx(i) => if i < |types| then Some(types[i]) else None
  }

  function ValMeanings(types: seq<Meaning>, vs: seq<TVal>): Option<seq<Meaning>> {
    if forall i :: 0 <= i < |vs| ==> ValMeaning(types, vs[i]).Some?
    then Some(seq(|vs|, i requires 0 <= i < |vs| && ValMeaning(types, vs[i]).Some? => ValMeaning(types, vs[i]).value))
    else None
  }

  function RefMeaning(types: seq<Meaning>, r: TRef): Option<(Kind, Meaning)> {
    match r
    case TFunc(i) => if i < |types| then Some((KFunc, types[i])) else None
    case TValue(v) => if ValMeaning(types, v).Some? then Some((KValue, ValMeaning(types, v).value)) else None
    case TType(i) => if i < |types| then Some((KType, types[i])) else None
    case TInstance(i) => if i < |types| && types[i].MInstance? then Some((KInstance, types[i])) else None
    case TComponent(i) => if i < |types| && types[i].MComponent? then Some((KComponent, types[i])) else None
  }

  /** The type that is exported under a name, if any. */
  function TypeExport(exports: seq<MNamed>, name: string): Option<Meaning> {
    if exports == [] then None
    else
      var last := exports[|exports| - 1];
      if last.name == name then (if last.kind == KType then Some(last.meaning) else None)
      else TypeExport(exports[..|exports| - 1], name)
  }

  /** Imports and exports of types and instances define new ones. */
  function Defining(env: Env, kind: Kind, m: Meaning): Env {
    match kind
    case KType => env.(types := env.types + [m])
    case KInstance => env.(instances := env.instances + [m])
    case _ => env
  }

  /** One more item; `outer` holds the types of the enclosing bodies, the innermost last. */
  function Step(env: Env, item: Item, outer: seq<seq<Meaning>>): Option<Env>
    decreases item
  {
    match item
    case DefCtor(shape, args) =>
      (match ValMeanings(env.types, args)
       case None => None
       case Some(ms) => Some(env.(types := env.types + [MCtor(shape, ms)])))
    case DefInstance(body) =>
      (match Eval(body, outer + [env.types])
       case None => None
       case Some(inner) => Some(env.(types := env.types + [MInstance(inner.exports)])))
    case DefComponent(body) =>
      (match Eval(body, outer + [env.types])
       case None => None
       case Some(inner) => Some(env.(types := env.types + [MComponent(inner.imports, inner.exports)])))
    case AliasExport(instance, name) =>
      if instance < |env.instances| && env.instances[instance].MInstance?
         && TypeExport(env.instances[instance].exports, name).Some?
      then Some(env.(types := env.types + [TypeExport(env.instances[instance].exports, name).value]))
      else None
    case AliasOuter(count, index) =>
      if 1 <= count <= |outer| && index < |outer[|outer| - count]|
      then Some(env.(types := env.types + [outer[|outer| - count][index]]))
      else None
    case ImportItem(name, item) =>
      (match RefMeaning(env.types, item)
       case None => None
       case Some((kind, m)) => Some(Defining(env.(imports := env.imports + [MNamed(name, kind, m)]), kind, m)))
    case ExportItem(name, item) =>
      (match RefMeaning(env.types, item)
       case None => None
       case Some((kind, m)) => Some(Defining(env.(exports := env.exports + [MNamed(name, kind, m)]), kind, m)))
  }

  /** Items refer to what is defined before them; anything else has no meaning. */
  function Eval(items: seq<Item>, outer: seq<seq<Meaning>>): Option<Env>
    decreases items
  {
    if items == [] then Some(EmptyEnv)
    else
      match Eval(items[..|items| - 1], outer)
      case None => None
      case Some(env) => Step(env, items[|items| - 1], outer)
  }

  lemma EvalMore(items: seq<Item>, item: Item, outer: seq<seq<Meaning>>)
    ensures Eval(items + [item], outer) ==
            match Eval(items, outer) { case None => None case Some(env) => Step(env, item, outer) }
  {
    assert (items + [item])[..|items|] == items;
  }

  /** The enclosing index spaces may have grown. */
  ghost predicate Wider(a: seq<seq<Meaning>>, b: seq<seq<Meaning>>) {
    |a| == |b| && forall i :: 0 <= i < |a| ==> a[i] <= b[i]
  }

  /** A meaning does not change when enclosing index spaces grow at their ends. */
  lemma {:induction false} EvalWider(items: seq<Item>, a: seq<seq<Meaning>>, b: seq<seq<Meaning>>)
    requires Wider(a, b) && Eval(items, a).Some?
    ensures Eval(items, b) == Eval(items, a)
    decreases items, 1
  {
    if items != [] {
      var n := |items| - 1;
      EvalWider(items[..n], a, b);
      StepWider(Eval(items[..n], a).value, items[n], a, b);
    }
  }

  lemma {:induction false} StepWider(env: Env, item: Item, a: seq<seq<Meaning>>, b: seq<seq<Meaning>>)
    requires Wider(a, b) && Step(env, item, a).Some?
    ensures Step(env, item, b) == Step(env, item, a)
    decreases item, 0
  {
    if item.DefInstance? || item.DefComponent? {
      EvalWider(item.body, a + [env.types], b + [env.types]);
    }
  }

  // ----- counters -----

  predicate DefinesType(item: Item) {
    match item
    case ImportItem(_, r) => r.TType?
    case ExportItem(_, r) => r.TType?
    case _ => true
  }

  predicate DefinesInstance(item: Item) {
    match item
    case ImportItem(_, r) => r.TInstance?
    case ExportItem(_, r) => r.TInstance?
    case _ => false
  }

  function TypeCount(items: seq<Item>): nat {
    if items == [] then 0
    else TypeCount(items[..|items| - 1]) + if DefinesType(items[|items| - 1]) then 1 else 0
  }

  function InstanceCount(items: seq<Item>): nat {
    if items == [] then 0
    else InstanceCount(items[..|items| - 1]) + if DefinesInstance(items[|items| - 1]) then 1 else 0
  }

  /** The counters of the encoders are the sizes of the index spaces. */
  lemma {:induction false} CountsMatch(items: seq<Item>, outer: seq<seq<Meaning>>)
    requires Eval(items, outer).Some?
    ensures TypeCount(items) == |Eval(items, outer).value.types|
    ensures InstanceCount(items) == |Eval(items, outer).value.instances|
  {
    if items != [] {
      CountsMatch(items[..|items| - 1], outer);
      StepCounts(Eval(items[..|items| - 1], outer).value, items[|items| - 1], outer);
    }
  }

  lemma StepCounts(env: Env, item: Item, outer: seq<seq<Meaning>>)
    requires Step(env, item, outer).Some?
    ensures |Step(env, item, outer).value.types| == |env.types| + if DefinesType(item) then 1 else 0
    ensures |Step(env, item, outer).value.instances| == |env.instances| + if DefinesInstance(item) then 1 else 0
  {
    hide Eval;
  }
}
