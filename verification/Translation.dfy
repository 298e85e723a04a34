/**
 wasm-compose's translation of component types as functions of its state. A type is translated
 once per scope; types that an instance exports are reached by aliases. Where the code asserts
 that something is inserted for the first time, the outcome is a panic if it is not.
 */
module Translation {
  import opened Common
  import opened ComponentTypes
  import opened TypeScopes

  /** The scope that is being filled, and those around it, the outermost first. */
  datatype TState = TState(scopes: seq<Scope>, cur: Scope)

  datatype Outcome<T> = Panics | Done(st: TState, value: T)

  function Emit(st: TState, item: Item): TState {
    st.(cur := st.cur.(items := st.cur.items + [item]))
  }

  // ----- finding a type that is there already -----

  function FirstCached(typeDefs: map<Key, nat>, keys: seq<Key>): Option<nat> {
    if keys == [] then None
    else if keys[0] in typeDefs then Some(typeDefs[keys[0]])
    else FirstCached(typeDefs, keys[1..])
  }

  /** An export of the same name by another component may have defined the type already. */
  function FindExported(s: Scope, k: Key): Option<nat> {
    if k in s.typeExports && s.typeExports[k] in s.typeExportsRev
    then FirstCached(s.typeDefs, s.typeExportsRev[s.typeExports[k]])
    else None
  }

  /** The innermost scope with an instance that exports the type. */
  function Holder(scopes: seq<Scope>, k: Key): (r: Option<nat>)
    ensures r.Some? ==> r.value < |scopes| && k in scopes[r.value].instanceExports
    ensures forall i :: 0 <= i < |scopes| && (r.Some? ==> r.value < i) ==> k !in scopes[i].instanceExports
  {
    if scopes == [] then None
    else if k in scopes[|scopes| - 1].instanceExports then Some(|scopes| - 1)
    else Holder(scopes[..|scopes| - 1], k)
  }

  /** Two aliases lead to a type that an instance of an outer scope exports. */
  function AliasFrom(st: TState, level: nat, k: Key): (TState, nat)
    requires level < |st.scopes| && k in st.scopes[level].instanceExports
  {
    var outer := st.scopes[level];
    var (instance, name) := outer.instanceExports[k];
    var scopes := st.scopes[level := outer.(items := outer.items + [AliasExport(instance, name)])];
    (Emit(TState(scopes, st.cur), AliasOuter(|st.scopes| - level, TypeCount(outer.items))), TypeCount(st.cur.items))
  }

  function Find(st: TState, k: Key): Option<(TState, nat)> {
    if FindExported(st.cur, k).Some? then Some((st, FindExported(st.cur, k).value))
    else if Holder(st.scopes, k).Some? then Some(AliasFrom(st, Holder(st.scopes, k).value, k))
    else if k in st.cur.instanceExports then
      var (instance, name) := st.cur.instanceExports[k];
      Some((Emit(st, AliasExport(instance, name)), TypeCount(st.cur.items)))
    else None
  }

  // ----- translating a type -----

  function Ty(w: World, st: TState, c: nat, id: nat): Outcome<nat>
    requires WorldOk(w) && c < |w| && id < |w[c]|
    decreases id, 6
  {
    var k := Key(c, id);
    if k in st.cur.typeDefs then Done(st, st.cur.typeDefs[k])
    else
      match TyInner(w, st, c, id)
      case Panics => Panics
      case Done(st', index) =>
        if k in st'.cur.typeDefs then Panics
        else Done(st'.(cur := st'.cur.(typeDefs := st'.cur.typeDefs[k := index])), index)
  }

  /** Along the chain of aliases, the first type that can be found; otherwise it is defined. */
  function TyInner(w: World, st: TState, c: nat, id: nat): Outcome<nat>
    requires WorldOk(w) && c < |w| && id < |w[c]|
    decreases id, 5
  {
    match Find(st, Key(c, id))
    case Some((st', index)) => Done(st', index)
    case None =>
      assert DefOk(w[c], id);
      if w[c][id].Alias? then TyInner(w, st, c, w[c][id].target) else Define(w, st, c, id)
  }

  /** A type that is no alias is defined in the current scope. */
  function Define(w: World, st: TState, c: nat, id: nat): Outcome<nat>
    requires WorldOk(w) && c < |w| && id < |w[c]| && !w[c][id].Alias?
    decreases id, 4
  {
    assert DefOk(w[c], id);
    match w[c][id]
    case Ctor(shape, args) =>
      (match ValTypes(w, st, c, args, id)
       case Panics => Panics
       case Done(st', vs) => Done(Emit(st', DefCtor(shape, vs)), TypeCount(st'.cur.items)))
    case Instance(exports) =>
      (match Body(w, st, c, InstanceBody, [], exports, id)
       case Panics => Panics
       case Done(st', body) => Done(Emit(st', DefInstance(body)), TypeCount(st'.cur.items)))
    case Component(imports, exports) =>
      (match Body(w, st, c, ComponentBody, imports, exports, id)
       case Panics => Panics
       case Done(st', body) => Done(Emit(st', DefComponent(body)), TypeCount(st'.cur.items)))
  }

  function ValTypes(w: World, st: TState, c: nat, args: seq<ValRef>, bound: nat): Outcome<seq<TVal>>
    requires WorldOk(w) && c < |w| && forall i :: 0 <= i < |args| ==> ValOk(w[c], args[i], bound)
    decreases bound, 1, |args|
  {
    if args == [] then Done(st, [])
    else
      var n := |args| - 1;
      match ValTypes(w, st, c, args[..n], bound)
      case Panics => Panics
      case Done(st', vs) =>
        match ValType(w, st', c, args[n], bound)
        case Panics => Panics
        case Done(st'', v) => Done(st'', vs + [v])
  }

  function ValType(w: World, st: TState, c: nat, v: ValRef, bound: nat): Outcome<TVal>
    requires WorldOk(w) && c < |w| && ValOk(w[c], v, bound)
    decreases bound, 0
  {
    match v
    case Prim(p) => Done(st, TPrim(p))
    case Ref(id) =>
      match Ty(w, st, c, id)
      case Panics => Panics
      case Done(st', index) => Done(st', TIdx(index))
  }

  function RefOf(e: Entity, index: nat): TRef {
    match e
    case FuncE(_) => TFunc(index)
    case ValueE(v) => TValue(if v.Ref? then TIdx(index) else TPrim(v.prim))
    case TypeE(_, _) => TType(index)
    case InstanceE(_) => TInstance(index)
    case ComponentE(_) => TComponent(index)
  }

  function EntityRef(w: World, st: TState, c: nat, e: Entity, bound: nat): Outcome<TRef>
    requires WorldOk(w) && c < |w| && EntityOk(w[c], e, bound)
    decreases bound, 1
  {
    if KeyOf(e).None? then Done(st, RefOf(e, 0))
    else
      match Ty(w, st, c, KeyOf(e).value)
      case Panics => Panics
      case Done(st', index) => Done(st', RefOf(e, index))
  }

  // ----- imports and exports of a body -----

  function ImportInto(w: World, st: TState, c: nat, name: string, e: Entity, bound: nat): Outcome<()>
    requires WorldOk(w) && c < |w| && EntityOk(w[c], e, bound)
    decreases bound, 2
  {
    match EntityRef(w, st, c, e, bound)
    case Panics => Panics
    case Done(st', r) => Done(Emit(st', Declaration(true, name, r)), ())
  }

  /** An exported type is from now on found at its export. */
  function ExportInto(w: World, st: TState, c: nat, name: string, e: Entity, bound: nat): Outcome<()>
    requires WorldOk(w) && c < |w| && EntityOk(w[c], e, bound)
    decreases bound, 2
  {
    match EntityRef(w, st, c, e, bound)
    case Panics => Panics
    case Done(st', r) =>
      var st'' := Emit(st', Declaration(false, name, r));
      if e.TypeE? then RegisterExport(st'', Key(c, e.created), name, TypeCount(st'.cur.items)) else Done(st'', ())
  }

  function RegisterExport(st: TState, k: Key, name: string, value: nat): Outcome<()> {
    if k in st.cur.typeDefs then Panics
    else AddTypeExport(st.(cur := st.cur.(typeDefs := st.cur.typeDefs[k := value])), k, name)
  }

  function AddTypeExport(st: TState, k: Key, name: string): Outcome<()> {
    if k in st.cur.typeExports then Panics else Done(st.(cur := Exporting(st.cur, k, name)), ())
  }

  function ImportAll(w: World, st: TState, c: nat, imports: seq<Named>, bound: nat): Outcome<()>
    requires WorldOk(w) && c < |w| && NamedOk(w[c], imports, bound)
    decreases bound, 3, |imports|
  {
    if imports == [] then Done(st, ())
    else
      var n := |imports| - 1;
      match ImportAll(w, st, c, imports[..n], bound)
      case Panics => Panics
      case Done(st', _) => ImportInto(w, st', c, imports[n].name, imports[n].entity, bound)
  }

  function ExportAll(w: World, st: TState, c: nat, exports: seq<Named>, bound: nat): Outcome<()>
    requires WorldOk(w) && c < |w| && NamedOk(w[c], exports, bound)
    decreases bound, 3, |exports|
  {
    if exports == [] then Done(st, ())
    else
      var n := |exports| - 1;
      match ExportAll(w, st, c, exports[..n], bound)
      case Panics => Panics
      case Done(st', _) => ExportInto(w, st', c, exports[n].name, exports[n].entity, bound)
  }

  function Push(st: TState, kind: BodyKind): TState {
    TState(st.scopes + [st.cur], NewScope(kind))
  }

  /**
   Leaving an instance body registers its exported types for the instance that comes next, and
   asserts that none of them was registered.
   */
  function Pop(st: TState): Outcome<seq<Item>> {
    var n := |st.scopes| - 1;
    if st.scopes == [] then Panics
    else if st.cur.kind.InstanceBody? && !(st.cur.typeExports.Keys !! st.scopes[n].instanceExports.Keys) then Panics
    else
      var outer := if st.cur.kind.InstanceBody? then Registered(st.scopes[n], st.cur.typeExports) else st.scopes[n];
      Done(TState(st.scopes[..n], outer), st.cur.items)
  }

  /** The body of an instance or component type, in a scope of its own. */
  function Body(w: World, st: TState, c: nat, kind: BodyKind, imports: seq<Named>, exports: seq<Named>, bound: nat):
    Outcome<seq<Item>>
    requires WorldOk(w) && c < |w| && NamedOk(w[c], imports, bound) && NamedOk(w[c], exports, bound)
    decreases bound, 4, 0
  {
    match ImportAll(w, Push(st, kind), c, imports, bound)
    case Panics => Panics
    case Done(st', _) =>
      match ExportAll(w, st', c, exports, bound)
      case Panics => Panics
      case Done(st'', _) => Pop(st'')
  }
}
