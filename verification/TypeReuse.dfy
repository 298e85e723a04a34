/**
 Which item a reference to a type leads to. A type that is exported in a scope, by whichever
 component, is never translated a second time there: every reference to it leads to its export.
 */
module TypeReuse {
  import opened Common
  import opened ComponentTypes
  import opened TypeScopes
  import opened TypeMeaning
  import opened TypeImports
  import T = Translation

  // ----- what translating a type leaves alone -----

  predicate IsCached(s: Scope, name: string, k: Key) {
    k in s.typeDefs && k in s.typeExports && s.typeExports[k] == name
  }

  /** Some type that is exported under the name is cached with this index. */
  ghost predicate CachedAs(s: Scope, name: string, index: nat) {
    exists k :: IsCached(s, name, k) && s.typeDefs[k] == index
  }

  ghost predicate HasCached(s: Scope, name: string) {
    exists k :: IsCached(s, name, k)
  }

  /** Both maps of exports agree, and of the types exported under a name one is cached. */
  ghost predicate Linked(s: Scope) {
    && (forall k :: k in s.typeExports ==>
          && s.typeExports[k] in s.typeExportsRev && k in s.typeExportsRev[s.typeExports[k]]
          && HasCached(s, s.typeExports[k]))
    && (forall n, k :: n in s.typeExportsRev && k in s.typeExportsRev[n] ==>
          k in s.typeExports && s.typeExports[k] == n)
  }

  /** New items export nothing. */
  ghost predicate NoExports(a: seq<Item>, b: seq<Item>) {
    a <= b && forall p :: |a| <= p < |b| ==> !b[p].ExportItem?
  }

  /** Outer scopes only get more items, which export nothing. */
  ghost predicate OuterSame(a: T.TState, b: T.TState) {
    && |a.scopes| == |b.scopes|
    && forall i :: 0 <= i < |a.scopes| ==>
         NoExports(a.scopes[i].items, b.scopes[i].items) && b.scopes[i] == a.scopes[i].(items := b.scopes[i].items)
  }

  /**
   Types of component `c` below `bound` are cached; one that is exported gets the index of what
   was exported under its name.
   */
  ghost predicate Reuses(a: Scope, b: Scope, c: nat, bound: nat) {
    && NoExports(a.items, b.items) && b.kind == a.kind
    && b.typeExports == a.typeExports && b.typeExportsRev == a.typeExportsRev
    && (forall k :: k in a.typeDefs ==> k in b.typeDefs && b.typeDefs[k] == a.typeDefs[k])
    && (forall k :: k in b.typeDefs && k !in a.typeDefs ==>
          && k.comp == c && k.id < bound
          && (k in a.typeExports ==> CachedAs(a, a.typeExports[k], b.typeDefs[k])))
  }

  lemma ReusesSelf(a: Scope, c: nat, bound: nat)
    ensures Reuses(a, a, c, bound)
  {
  }

  lemma CachedBefore(a: Scope, b: Scope, c: nat, bound: nat, name: string, index: nat)
    requires Reuses(a, b, c, bound) && CachedAs(b, name, index)
    ensures CachedAs(a, name, index)
  {
    var k :| IsCached(b, name, k) && b.typeDefs[k] == index;
    if k in a.typeDefs {
      assert IsCached(a, name, k);
    }
  }

  lemma CachedStays(a: Scope, b: Scope, c: nat, bound: nat, name: string)
    requires Reuses(a, b, c, bound) && HasCached(a, name)
    ensures HasCached(b, name)
  {
    var k :| IsCached(a, name, k);
    assert IsCached(b, name, k);
  }

  lemma NoExportsTransitive(a: seq<Item>, b: seq<Item>, c: seq<Item>)
    requires NoExports(a, b) && NoExports(b, c)
    ensures NoExports(a, c)
  {
    forall p | |a| <= p < |c|
      ensures !c[p].ExportItem?
    {
      assert p < |b| ==> c[p] == b[p];
    }
  }

  lemma ReusesTransitive(a: Scope, b: Scope, d: Scope, c: nat, bound: nat)
    requires Reuses(a, b, c, bound) && Reuses(b, d, c, bound)
    ensures Reuses(a, d, c, bound)
  {
    hide CachedAs;
    forall k | k in d.typeDefs && k !in a.typeDefs && k in a.typeExports
      ensures CachedAs(a, a.typeExports[k], d.typeDefs[k])
    {
      if k !in b.typeDefs {
        CachedBefore(a, b, c, bound, a.typeExports[k], d.typeDefs[k]);
      }
    }
    NoExportsTransitive(a.items, b.items, d.items);
  }

  lemma ReusesWider(a: Scope, b: Scope, c: nat, small: nat, bound: nat)
    requires Reuses(a, b, c, small) && small <= bound
    ensures Reuses(a, b, c, bound)
  {
    hide CachedAs;
  }

  lemma LinkedStays(a: Scope, b: Scope, c: nat, bound: nat)
    requires Linked(a) && Reuses(a, b, c, bound)
    ensures Linked(b)
  {
    hide HasCached;
    hide CachedAs;
    forall k | k in b.typeExports
      ensures HasCached(b, b.typeExports[k])
    {
      CachedStays(a, b, c, bound, a.typeExports[k]);
    }
  }

  lemma OuterTransitive(a: T.TState, b: T.TState, c: T.TState)
    requires OuterSame(a, b) && OuterSame(b, c)
    ensures OuterSame(a, c)
  {
    hide NoExports;
    forall i | 0 <= i < |a.scopes|
      ensures NoExports(a.scopes[i].items, c.scopes[i].items)
    {
      NoExportsTransitive(a.scopes[i].items, b.scopes[i].items, c.scopes[i].items);
    }
  }

  lemma LinkedNew(kind: BodyKind)
    ensures Linked(NewScope(kind))
  {
  }

  /** Nothing but items, which export nothing. */
  lemma EmitReuses(s: Scope, item: Item, c: nat, bound: nat)
    requires !item.ExportItem?
    ensures Reuses(s, s.(items := s.items + [item]), c, bound)
  {
    hide CachedAs;
  }

  // ----- finding an exported type -----

  lemma {:induction false} FirstCachedFound(typeDefs: map<Key, nat>, keys: seq<Key>, k: Key)
    requires k in keys && k in typeDefs
    ensures T.FirstCached(typeDefs, keys).Some?
  {
    if keys[0] !in typeDefs {
      FirstCachedFound(typeDefs, keys[1..], k);
    }
  }

  /** A type that is exported in the scope is found where another one of its name is. */
  lemma ExportedFound(st: T.TState, k: Key)
    requires Linked(st.cur) && k in st.cur.typeExports
    ensures T.Find(st, k).Some? && T.Find(st, k).value.0 == st
    ensures CachedAs(st.cur, st.cur.typeExports[k], T.Find(st, k).value.1)
  {
    var name := st.cur.typeExports[k];
    var keys := st.cur.typeExportsRev[name];
    var k' :| IsCached(st.cur, name, k');
    FirstCachedFound(st.cur.typeDefs, keys, k');
    FirstCachedIs(st.cur.typeDefs, keys);
    var j :| 0 <= j < |keys| && keys[j] in st.cur.typeDefs
             && st.cur.typeDefs[keys[j]] == T.FirstCached(st.cur.typeDefs, keys).value;
    assert IsCached(st.cur, name, keys[j]);
  }

  /** Whatever is found, at most aliases are emitted. */
  lemma FindReuses(st: T.TState, k: Key, c: nat, bound: nat)
    requires T.Find(st, k).Some?
    ensures OuterSame(st, T.Find(st, k).value.0) && Reuses(st.cur, T.Find(st, k).value.0.cur, c, bound)
  {
    hide CachedAs;
    hide T.FindExported;
    ReusesSelf(st.cur, c, bound);
  }

  /** Translating does this to a state. */
  ghost predicate Kept(a: T.TState, b: T.TState, c: nat, bound: nat) {
    OuterSame(a, b) && Reuses(a.cur, b.cur, c, bound)
  }

  lemma KeptTransitive(a: T.TState, b: T.TState, d: T.TState, c: nat, bound: nat)
    requires Kept(a, b, c, bound) && Kept(b, d, c, bound)
    ensures Kept(a, d, c, bound)
  {
    hide Reuses;
    hide OuterSame;
    OuterTransitive(a, b, d);
    ReusesTransitive(a.cur, b.cur, d.cur, c, bound);
  }

  // ----- translating -----

  lemma {:induction false} TyReuses(w: World, st: T.TState, c: nat, id: nat)
    requires WorldOk(w) && c < |w| && id < |w[c]| && Linked(st.cur) && T.Ty(w, st, c, id).Done?
    ensures Kept(st, T.Ty(w, st, c, id).st, c, id + 1)
    ensures Key(c, id) in st.cur.typeExports ==>
              var r := T.Ty(w, st, c, id);
              && CachedAs(st.cur, st.cur.typeExports[Key(c, id)], r.value)
              && r.st == st.(cur := st.cur.(typeDefs := st.cur.typeDefs[Key(c, id) := r.value]))
    decreases id, 6
  {
    hide T.TyInner;
    hide Linked;
    var k := Key(c, id);
    if k in st.cur.typeDefs {
      ReusesSelf(st.cur, c, id + 1);
      assert st.cur.typeDefs[k := st.cur.typeDefs[k]] == st.cur.typeDefs;
    } else {
      TyInnerReuses(w, st, c, id);
      var mid, now := T.TyInner(w, st, c, id), T.Ty(w, st, c, id);
      ReusesWider(st.cur, mid.st.cur, c, id, id + 1);
      CacheReuses(st.cur, mid.st.cur, k, mid.value, c, id + 1);
    }
  }

  lemma CacheReuses(a: Scope, b: Scope, k: Key, index: nat, c: nat, bound: nat)
    requires Reuses(a, b, c, bound) && k !in b.typeDefs && k.comp == c && k.id < bound
    requires k in a.typeExports ==> CachedAs(a, a.typeExports[k], index)
    ensures Reuses(a, b.(typeDefs := b.typeDefs[k := index]), c, bound)
  {
    hide CachedAs;
  }

  lemma {:induction false} TyInnerReuses(w: World, st: T.TState, c: nat, id: nat)
    requires WorldOk(w) && c < |w| && id < |w[c]| && Linked(st.cur) && T.TyInner(w, st, c, id).Done?
    ensures Kept(st, T.TyInner(w, st, c, id).st, c, id)
    ensures Key(c, id) in st.cur.typeExports ==>
              && T.TyInner(w, st, c, id).st == st
              && CachedAs(st.cur, st.cur.typeExports[Key(c, id)], T.TyInner(w, st, c, id).value)
    decreases id, 5
  {
    hide T.Find;
    hide T.Define;
    hide Linked;
    hide Reuses;
    hide OuterSame;
    hide CachedAs;
    var k := Key(c, id);
    if k in st.cur.typeExports {
      ExportedFound(st, k);
    }
    if T.Find(st, k).Some? {
      FindReuses(st, k, c, id);
    } else {
      assert DefOk(w[c], id);
      if w[c][id].Alias? {
        var target := w[c][id].target;
        TyInnerReuses(w, st, c, target);
        ReusesWider(st.cur, T.TyInner(w, st, c, target).st.cur, c, target, id);
      } else {
        DefineReuses(w, st, c, id);
      }
    }
  }

  lemma {:induction false} DefineReuses(w: World, st: T.TState, c: nat, id: nat)
    requires WorldOk(w) && c < |w| && id < |w[c]| && !w[c][id].Alias? && Linked(st.cur) && T.Define(w, st, c, id).Done?
    ensures Kept(st, T.Define(w, st, c, id).st, c, id)
    decreases id, 4
  {
    hide T.ValTypes;
    hide T.Body;
    hide Linked;
    hide Reuses;
    assert DefOk(w[c], id);
    var now := T.Define(w, st, c, id).st;
    match w[c][id] {
      case Ctor(shape, args) =>
        ValTypesReuse(w, st, c, args, id);
        var mid := T.ValTypes(w, st, c, args, id);
        EmitReuses(mid.st.cur, DefCtor(shape, mid.value), c, id);
        ReusesTransitive(st.cur, mid.st.cur, now.cur, c, id);
      case Instance(exports) =>
        BodyReuses(w, st, c, InstanceBody, [], exports, id);
        var mid := T.Body(w, st, c, InstanceBody, [], exports, id);
        EmitReuses(mid.st.cur, DefInstance(mid.value), c, id);
        ReusesTransitive(st.cur, mid.st.cur, now.cur, c, id);
      case Component(imports, exports) =>
        BodyReuses(w, st, c, ComponentBody, imports, exports, id);
        var mid := T.Body(w, st, c, ComponentBody, imports, exports, id);
        EmitReuses(mid.st.cur, DefComponent(mid.value), c, id);
        ReusesTransitive(st.cur, mid.st.cur, now.cur, c, id);
    }
  }

  lemma {:induction false} ValTypesReuse(w: World, st: T.TState, c: nat, args: seq<ValRef>, bound: nat)
    requires WorldOk(w) && c < |w| && (forall i :: 0 <= i < |args| ==> ValOk(w[c], args[i], bound))
    requires Linked(st.cur) && T.ValTypes(w, st, c, args, bound).Done?
    ensures Kept(st, T.ValTypes(w, st, c, args, bound).st, c, bound)
    decreases bound, 1, |args|
  {
    hide T.Ty;
    hide Linked;
    hide Reuses;
    hide OuterSame;
    if args == [] {
      KeptSelf(st, c, bound);
    } else {
      var n := |args| - 1;
      ValTypesReuse(w, st, c, args[..n], bound);
      var mid, now := T.ValTypes(w, st, c, args[..n], bound).st, T.ValTypes(w, st, c, args, bound).st;
      LinkedStays(st.cur, mid.cur, c, bound);
      assert ValOk(w[c], args[n], bound);
      if args[n].Ref? {
        TyReuses(w, mid, c, args[n].id);
        ReusesWider(mid.cur, now.cur, c, args[n].id + 1, bound);
        KeptTransitive(st, mid, now, c, bound);
      }
    }
  }

  lemma KeptSelf(st: T.TState, c: nat, bound: nat)
    ensures Kept(st, st, c, bound)
  {
    ReusesSelf(st.cur, c, bound);
  }

  lemma {:induction false} EntityRefReuses(w: World, st: T.TState, c: nat, e: Entity, bound: nat)
    requires WorldOk(w) && c < |w| && EntityOk(w[c], e, bound) && Linked(st.cur)
    requires T.EntityRef(w, st, c, e, bound).Done?
    ensures Kept(st, T.EntityRef(w, st, c, e, bound).st, c, if KeyOf(e).Some? then KeyOf(e).value + 1 else 0)
    decreases bound, 1
  {
    hide T.Ty;
    hide Linked;
    hide Reuses;
    hide OuterSame;
    KeyInRange(w[c], e, bound);
    if KeyOf(e).Some? {
      TyReuses(w, st, c, KeyOf(e).value);
    } else {
      KeptSelf(st, c, 0);
    }
  }

  /** A body that is being filled: outer scopes keep their maps, and the exports stay linked. */
  ghost predicate Filling(a: T.TState, b: T.TState) {
    OuterSame(a, b) && Linked(b.cur)
  }

  lemma {:induction false} ImportIntoFills(w: World, st: T.TState, c: nat, name: string, e: Entity, bound: nat)
    requires WorldOk(w) && c < |w| && EntityOk(w[c], e, bound) && Linked(st.cur)
    requires T.ImportInto(w, st, c, name, e, bound).Done?
    ensures Filling(st, T.ImportInto(w, st, c, name, e, bound).st)
    decreases bound, 2
  {
    hide T.EntityRef;
    hide Linked;
    hide Reuses;
    EntityRefReuses(w, st, c, e, bound);
    var mid := T.EntityRef(w, st, c, e, bound);
    var b := if KeyOf(e).Some? then KeyOf(e).value + 1 else 0;
    LinkedStays(st.cur, mid.st.cur, c, b);
    LinkedItems(mid.st.cur, mid.st.cur.items + [Declaration(true, name, mid.value)]);
  }

  lemma LinkedItems(s: Scope, items: seq<Item>)
    requires Linked(s)
    ensures Linked(s.(items := items))
  {
    var now := s.(items := items);
    forall k | k in s.typeExports
      ensures HasCached(now, s.typeExports[k])
    {
      var k' :| IsCached(s, s.typeExports[k], k');
      assert IsCached(now, s.typeExports[k], k');
    }
  }

  lemma LinkedCached(s: Scope, k: Key, index: nat)
    requires Linked(s) && k !in s.typeDefs
    ensures Linked(s.(typeDefs := s.typeDefs[k := index]))
  {
    var now := s.(typeDefs := s.typeDefs[k := index]);
    forall k' | k' in s.typeExports
      ensures HasCached(now, s.typeExports[k'])
    {
      var k'' :| IsCached(s, s.typeExports[k'], k'');
      assert IsCached(now, s.typeExports[k'], k'');
    }
  }

  /** A type that is cached, or of a name of which one is cached, is exported. */
  lemma LinkedExporting(s: Scope, k: Key, name: string)
    requires Linked(s) && k !in s.typeExports && (k in s.typeDefs || HasCached(s, name))
    ensures Linked(Exporting(s, k, name))
  {
    hide HasCached;
    var now := Exporting(s, k, name);
    assert now.typeExportsRev[name][|now.typeExportsRev[name]| - 1] == k;
    forall k' | k' in now.typeExports
      ensures HasCached(now, now.typeExports[k'])
      ensures now.typeExports[k'] in now.typeExportsRev && k' in now.typeExportsRev[now.typeExports[k']]
    {
      CachedExporting(s, k, name, now.typeExports[k']);
    }
  }

  lemma CachedExporting(s: Scope, k: Key, name: string, n: string)
    requires k !in s.typeExports
    ensures HasCached(s, n) || (n == name && k in s.typeDefs) ==> HasCached(Exporting(s, k, name), n)
  {
    if n == name && k in s.typeDefs {
      assert IsCached(Exporting(s, k, name), n, k);
    } else if HasCached(s, n) {
      var k' :| IsCached(s, n, k');
      assert IsCached(Exporting(s, k, name), n, k');
    }
  }

  lemma {:induction false} ExportIntoFills(w: World, st: T.TState, c: nat, name: string, e: Entity, bound: nat)
    requires WorldOk(w) && c < |w| && EntityOk(w[c], e, bound) && Linked(st.cur)
    requires T.ExportInto(w, st, c, name, e, bound).Done?
    ensures Filling(st, T.ExportInto(w, st, c, name, e, bound).st)
    decreases bound, 2
  {
    hide T.EntityRef;
    hide Linked;
    hide Reuses;
    EntityRefReuses(w, st, c, e, bound);
    var mid := T.EntityRef(w, st, c, e, bound);
    var b := if KeyOf(e).Some? then KeyOf(e).value + 1 else 0;
    LinkedStays(st.cur, mid.st.cur, c, b);
    var s := mid.st.cur.(items := mid.st.cur.items + [Declaration(false, name, mid.value)]);
    LinkedItems(mid.st.cur, s.items);
    if e.TypeE? {
      var k, index := Key(c, e.created), TypeCount(mid.st.cur.items);
      LinkedCached(s, k, index);
      LinkedExporting(s.(typeDefs := s.typeDefs[k := index]), k, name);
    }
  }

  lemma {:induction false} ImportAllFills(w: World, st: T.TState, c: nat, imports: seq<Named>, bound: nat)
    requires WorldOk(w) && c < |w| && NamedOk(w[c], imports, bound) && Linked(st.cur)
    requires T.ImportAll(w, st, c, imports, bound).Done?
    ensures Filling(st, T.ImportAll(w, st, c, imports, bound).st)
    decreases bound, 3, |imports|
  {
    hide T.ImportInto;
    hide Linked;
    hide EntityOk;
    if imports != [] {
      var n := |imports| - 1;
      NamedPrefix(w[c], imports, bound);
      ImportAllFills(w, st, c, imports[..n], bound);
      var mid := T.ImportAll(w, st, c, imports[..n], bound).st;
      ImportIntoFills(w, mid, c, imports[n].name, imports[n].entity, bound);
      OuterTransitive(st, mid, T.ImportAll(w, st, c, imports, bound).st);
    }
  }

  lemma {:induction false} ExportAllFills(w: World, st: T.TState, c: nat, exports: seq<Named>, bound: nat)
    requires WorldOk(w) && c < |w| && NamedOk(w[c], exports, bound) && Linked(st.cur)
    requires T.ExportAll(w, st, c, exports, bound).Done?
    ensures Filling(st, T.ExportAll(w, st, c, exports, bound).st)
    decreases bound, 3, |exports|
  {
    hide T.ExportInto;
    hide Linked;
    hide EntityOk;
    if exports != [] {
      var n := |exports| - 1;
      NamedPrefix(w[c], exports, bound);
      ExportAllFills(w, st, c, exports[..n], bound);
      var mid := T.ExportAll(w, st, c, exports[..n], bound).st;
      ExportIntoFills(w, mid, c, exports[n].name, exports[n].entity, bound);
      OuterTransitive(st, mid, T.ExportAll(w, st, c, exports, bound).st);
    }
  }

  /** The scope around a body keeps all it knows, and gets aliases at most. */
  lemma {:induction false} BodyReuses(w: World, st: T.TState, c: nat, kind: BodyKind, imports: seq<Named>,
      exports: seq<Named>, bound: nat)
    requires WorldOk(w) && c < |w| && NamedOk(w[c], imports, bound) && NamedOk(w[c], exports, bound) && Linked(st.cur)
    requires T.Body(w, st, c, kind, imports, exports, bound).Done?
    ensures Kept(st, T.Body(w, st, c, kind, imports, exports, bound).st, c, bound)
    decreases bound, 4, 0
  {
    hide T.ImportAll;
    hide T.ExportAll;
    hide Linked;
    hide NamedOk;
    var pushed := T.Push(st, kind);
    LinkedNew(kind);
    ImportAllFills(w, pushed, c, imports, bound);
    var mid := T.ImportAll(w, pushed, c, imports, bound).st;
    ExportAllFills(w, mid, c, exports, bound);
    var full := T.ExportAll(w, mid, c, exports, bound).st;
    OuterTransitive(pushed, mid, full);
    PopReuses(st, kind, full, c, bound);
  }

  lemma PopReuses(st: T.TState, kind: BodyKind, full: T.TState, c: nat, bound: nat)
    requires OuterSame(T.Push(st, kind), full) && T.Pop(full).Done?
    ensures Kept(st, T.Pop(full).st, c, bound)
  {
    var n, now := |st.scopes|, T.Pop(full).st;
    assert T.Push(st, kind).scopes[n] == st.cur;
    assert NoExports(st.cur.items, full.scopes[n].items);
    assert now.cur == st.cur.(items := now.cur.items, instanceExports := now.cur.instanceExports);
    forall i | 0 <= i < n
      ensures NoExports(st.scopes[i].items, now.scopes[i].items)
      ensures now.scopes[i] == st.scopes[i].(items := now.scopes[i].items)
    {
      assert T.Push(st, kind).scopes[i] == st.scopes[i] && now.scopes[i] == full.scopes[i];
    }
  }

  // ----- references lead to exports -----

  predicate IsTypeExport(items: seq<Item>, p: int, name: string) {
    0 <= p < |items| && items[p].ExportItem? && items[p].name == name && items[p].item.TType?
  }

  /** The index is that of the type that an export of this name defines. */
  ghost predicate AtExport(items: seq<Item>, name: string, index: nat) {
    exists p :: IsTypeExport(items, p, name) && index == TypeCount(items[..p])
  }

  ghost predicate AtExports(s: Scope) {
    forall k :: k in s.typeExports && k in s.typeDefs ==> AtExport(s.items, s.typeExports[k], s.typeDefs[k])
  }

  lemma AtExportMore(a: seq<Item>, b: seq<Item>, name: string, index: nat)
    requires a <= b && AtExport(a, name, index)
    ensures AtExport(b, name, index)
  {
    var p :| IsTypeExport(a, p, name) && index == TypeCount(a[..p]);
    assert b[..p] == a[..p] && IsTypeExport(b, p, name);
  }

  /** Of any number of translations in the scope, by any components. */
  ghost predicate Later(a: Scope, b: Scope) {
    && NoExports(a.items, b.items)
    && b.typeExports == a.typeExports && b.typeExportsRev == a.typeExportsRev
    && (forall k :: k in a.typeDefs ==> k in b.typeDefs && b.typeDefs[k] == a.typeDefs[k])
    && (forall k :: k in b.typeDefs && k !in a.typeDefs && k in a.typeExports ==>
          CachedAs(a, a.typeExports[k], b.typeDefs[k]))
  }

  lemma ReusesIsLater(a: Scope, b: Scope, c: nat, bound: nat)
    requires Reuses(a, b, c, bound)
    ensures Later(a, b)
  {
    hide CachedAs;
  }

  lemma LaterTransitive(a: Scope, b: Scope, d: Scope)
    requires Later(a, b) && Later(b, d)
    ensures Later(a, d)
  {
    hide NoExports;
    NoExportsTransitive(a.items, b.items, d.items);
    forall k | k in d.typeDefs && k !in a.typeDefs && k in a.typeExports
      ensures CachedAs(a, a.typeExports[k], d.typeDefs[k])
    {
      if k !in b.typeDefs {
        var k' :| IsCached(b, a.typeExports[k], k') && b.typeDefs[k'] == d.typeDefs[k];
        if k' in a.typeDefs {
          assert IsCached(a, a.typeExports[k], k');
        }
      }
    }
  }

  lemma LaterKeeps(a: Scope, b: Scope)
    requires Later(a, b) && Linked(a) && AtExports(a)
    ensures Linked(b) && AtExports(b)
  {
    hide CachedAs;
    hide AtExport;
    hide TypeCount;
    forall k | k in b.typeExports
      ensures HasCached(b, b.typeExports[k])
    {
      var k' :| IsCached(a, a.typeExports[k], k');
      assert IsCached(b, a.typeExports[k], k');
    }
    forall k | k in b.typeExports && k in b.typeDefs
      ensures AtExport(b.items, b.typeExports[k], b.typeDefs[k])
    {
      if k !in a.typeDefs {
        CachedAtExport(a, a.typeExports[k], b.typeDefs[k]);
      }
      AtExportMore(a.items, b.items, b.typeExports[k], b.typeDefs[k]);
    }
  }

  lemma CachedAtExport(s: Scope, name: string, index: nat)
    requires AtExports(s) && CachedAs(s, name, index)
    ensures AtExport(s.items, name, index)
  {
    var k :| IsCached(s, name, k) && s.typeDefs[k] == index;
  }

  // ----- a merged instance -----

  /** What the code can know before it translates: types are created after everything that comes before them. */
  ghost predicate ViewsFresh(exports: seq<MergedExport>) {
    forall i, j, a :: 0 <= i <= j < |exports| && 0 <= a < |exports[j].views| && (i < j || a > 0) ==>
      exports[i].views != [] && InOrder(exports[i].views[0], exports[j].views[a])
  }

  /** No name is exported twice, and only those of the first exports. */
  ghost predicate ExportsListed(items: seq<Item>, exports: seq<MergedExport>, n: nat) {
    && (forall p, q :: 0 <= p < q < |items| && items[p].ExportItem? && items[q].ExportItem? ==>
          items[p].name != items[q].name)
    && (forall p :: 0 <= p < |items| && items[p].ExportItem? ==> IsNameOf(exports, n, items[p].name))
  }

  ghost predicate IsNameOf(exports: seq<MergedExport>, n: nat, name: string) {
    exists i :: 0 <= i < n && i < |exports| && exports[i].name == name
  }

  /** After the first exports and, of the next one, some views. */
  ghost predicate Merging(exports: seq<MergedExport>, n: nat, j: nat, a: nat, s: Scope) {
    && n <= |exports| && Linked(s) && AtExports(s) && ExportsListed(s.items, exports, n)
    && ExportedViews(s.typeExports, exports, j, a) && CachedFrom(s.typeDefs, exports[..n])
  }

  lemma NothingMerged(exports: seq<MergedExport>)
    ensures Merging(exports, 0, 0, 0, NewScope(InstanceBody))
  {
    LinkedNew(InstanceBody);
  }

  lemma ListedMore(a: seq<Item>, b: seq<Item>, exports: seq<MergedExport>, n: nat, item: Item)
    requires ExportsListed(a, exports, n) && NoExports(a, b) && n < |exports| && item.ExportItem?
    requires item.name == exports[n].name && forall i :: 0 <= i < n ==> exports[i].name != item.name
    ensures ExportsListed(b + [item], exports, n + 1)
  {
    var now := b + [item];
    forall p | 0 <= p < |now| && now[p].ExportItem?
      ensures p < |a| ==> now[p] == a[p] && now[p].name != item.name
      ensures p >= |a| ==> p == |b|
      ensures IsNameOf(exports, n + 1, now[p].name)
    {
      if p < |a| {
        assert IsNameOf(exports, n, a[p].name);
      }
    }
  }

  lemma FirstCachedFrom(w: World, a: Scope, b: Scope, exports: seq<MergedExport>, j: nat, index: nat)
    requires j < |exports| && exports[j].views != [] && ViewOk(w, exports[j].views[0])
    requires var v := exports[j].views[0];
             Reuses(a, b, v.comp, if KeyOf(v.entity).Some? then KeyOf(v.entity).value + 1 else 0)
    requires CachedFrom(a.typeDefs, exports[..j])
    ensures CachedFrom(b.typeDefs, exports[..j + 1])
    ensures var v := exports[j].views[0];
            v.entity.TypeE? ==>
              CachedFrom(b.typeDefs[Key(v.comp, v.entity.created) := index], exports[..j + 1])
  {
    var v, now, was := exports[j].views[0], exports[..j + 1], exports[..j];
    assert KeyOf(v.entity).Some? ==> KeyOf(v.entity).value <= Top(v.entity);
    assert now[j] == exports[j];
    forall k | k in b.typeDefs || (v.entity.TypeE? && k == Key(v.comp, v.entity.created))
      ensures exists i :: 0 <= i < |now| && Covers(now[i], k)
    {
      if k in a.typeDefs {
        var i :| 0 <= i < |was| && Covers(was[i], k);
        assert now[i] == was[i];
      } else {
        assert Covers(now[j], k);
      }
    }
  }

  /** The first view is translated and exported. */
  lemma FirstViewMerges(w: World, st: T.TState, exports: seq<MergedExport>, j: nat)
    requires WorldOk(w) && MergedOk(w, exports) && j < |exports| && MergedExportOk(w, exports[j])
    requires Merging(exports, j, j, 0, st.cur)
    requires var v := exports[j].views[0]; T.ExportInto(w, st, v.comp, exports[j].name, v.entity, |w[v.comp]|).Done?
    ensures var v := exports[j].views[0];
            Merging(exports, j + 1, j, 1, T.ExportInto(w, st, v.comp, exports[j].name, v.entity, |w[v.comp]|).st.cur)
  {
    hide T.EntityRef;
    hide Linked;
    hide MergedOk;
    hide ExportedViews;
    hide CachedFrom;
    hide ExportsListed;
    hide AtExports;
    hide Reuses;
    hide EntityOk;
    var x, v := exports[j], exports[j].views[0];
    var c, e, bound := v.comp, v.entity, |w[v.comp]|;
    assert ViewOk(w, v);
    ExportIntoFills(w, st, c, x.name, e, bound);
    EntityRefReuses(w, st, c, e, bound);
    var mid := T.EntityRef(w, st, c, e, bound);
    var b := if KeyOf(e).Some? then KeyOf(e).value + 1 else 0;
    ReusesIsLater(st.cur, mid.st.cur, c, b);
    LaterKeeps(st.cur, mid.st.cur);
    FirstCachedFrom(w, st.cur, mid.st.cur, exports, j, TypeCount(mid.st.cur.items));
    var item := Declaration(false, x.name, mid.value);
    NamesApart(w, exports, j);
    LaterItems(st.cur, mid.st.cur);
    ListedMore(st.cur.items, mid.st.cur.items, exports, j, item);
    ViewsMore(st.cur.typeExports, T.ExportInto(w, st, c, x.name, e, bound).st.cur.typeExports, exports, j, 0);
    RefIs(w, st, c, e, bound);
    ExportAtExports(mid.st.cur, x.name, mid.value, if e.TypeE? then Some(Key(c, e.created)) else None);
  }

  lemma NamesApart(w: World, exports: seq<MergedExport>, j: nat)
    requires MergedOk(w, exports) && j < |exports|
    ensures forall i :: 0 <= i < j ==> exports[i].name != exports[j].name
  {
  }

  lemma LaterItems(a: Scope, b: Scope)
    requires Later(a, b)
    ensures NoExports(a.items, b.items) && b.typeExports == a.typeExports
  {
  }

  lemma RefIs(w: World, st: T.TState, c: nat, e: Entity, bound: nat)
    requires WorldOk(w) && c < |w| && EntityOk(w[c], e, bound) && T.EntityRef(w, st, c, e, bound).Done?
    ensures T.EntityRef(w, st, c, e, bound).value.TType? <==> e.TypeE?
  {
    hide T.Ty;
  }

  /** The type that is exported is cached where its export defines it. */
  lemma ExportAtExports(s: Scope, name: string, r: TRef, k: Option<Key>)
    requires AtExports(s) && (k.Some? ==> r.TType?)
    ensures var now := s.(items := s.items + [Declaration(false, name, r)]);
            && AtExports(now)
            && (k.Some? ==>
                  AtExports(Exporting(now.(typeDefs := s.typeDefs[k.value := TypeCount(s.items)]), k.value, name)))
  {
    hide AtExport;
    hide TypeCount;
    var item := Declaration(false, name, r);
    var items := s.items + [item];
    forall n, index | AtExport(s.items, n, index)
      ensures AtExport(items, n, index)
    {
      AtExportMore(s.items, items, n, index);
    }
    if k.Some? {
      NewAtExport(s.items, name, r);
    }
  }

  lemma NewAtExport(items: seq<Item>, name: string, r: TRef)
    requires r.TType?
    ensures AtExport(items + [Declaration(false, name, r)], name, TypeCount(items))
  {
    var now := items + [Declaration(false, name, r)];
    assert now[..|items|] == items && IsTypeExport(now, |items|, name);
  }

  /** No other view of the export was translated before. */
  lemma ViewIsFresh(exports: seq<MergedExport>, j: nat, a: nat, typeDefs: map<Key, nat>)
    requires ViewsFresh(exports) && j < |exports| && CachedFrom(typeDefs, exports[..j + 1])
    requires 0 < a < |exports[j].views| && exports[j].views[a].entity.TypeE?
    ensures Key(exports[j].views[a].comp, exports[j].views[a].entity.created) !in typeDefs
  {
    var v, done := exports[j].views[a], exports[..j + 1];
    forall k | k in typeDefs && k.comp == v.comp
      ensures k.id < v.entity.created
    {
      var i :| 0 <= i < |done| && Covers(done[i], k);
      assert done[i] == exports[i] && InOrder(exports[i].views[0], v);
    }
  }

  /** All views of an export are of types if one is. */
  lemma AllTypes(w: World, x: MergedExport, a: nat)
    requires MergedExportOk(w, x) && a < |x.views|
    ensures x.views[a].entity.TypeE? <==> x.views[0].entity.TypeE?
  {
    assert ViewMeaning(w, x.views[a]) == ViewMeaning(w, x.views[0]);
    var u, v := x.views[a], x.views[0];
    EntityKind(w[u.comp], u.entity, |w[u.comp]|);
    EntityKind(w[v.comp], v.entity, |w[v.comp]|);
  }

  /** Another view only registers its own key under the name. */
  lemma {:induction false} OtherViewsMerge(w: World, st: T.TState, exports: seq<MergedExport>, j: nat, n: nat)
    requires WorldOk(w) && MergedOk(w, exports) && ViewsFresh(exports) && j < |exports| && MergedExportOk(w, exports[j])
    requires 1 <= n <= |exports[j].views| && Merging(exports, j + 1, j, 1, st.cur)
    requires OtherViews(st, exports[j].name, exports[j].views[1..n]).Done?
    ensures Merging(exports, j + 1, j, n, OtherViews(st, exports[j].name, exports[j].views[1..n]).st.cur)
    ensures var s := OtherViews(st, exports[j].name, exports[j].views[1..n]).st.cur;
            s.typeDefs == st.cur.typeDefs && s.items == st.cur.items
    decreases n
  {
    hide Linked;
    hide ViewsFresh;
    hide ExportedViews;
    hide CachedFrom;
    hide ExportsListed;
    hide MergedExportOk;
    hide MergedOk;
    var views, name := exports[j].views, exports[j].name;
    if n > 1 {
      assert views[1..n][..|views[1..n]| - 1] == views[1..n - 1] && views[1..n][|views[1..n]| - 1] == views[n - 1];
      OtherViewsMerge(w, st, exports, j, n - 1);
      var mid := OtherViews(st, name, views[1..n - 1]).st.cur;
      var now := OtherViews(st, name, views[1..n]).st.cur;
      var v := views[n - 1];
      AllTypes(w, exports[j], n - 1);
      if v.entity.TypeE? {
        var k := Key(v.comp, v.entity.created);
        NameIsCached(w, mid, exports, j, n - 1);
        ViewIsFresh(exports, j, n - 1, mid.typeDefs);
        LinkedExporting(mid, k, name);
      }
      ViewsMore(mid.typeExports, now.typeExports, exports, j, n - 1);
    }
  }

  /** The first view of the export is known, and with it its name. */
  lemma NameIsCached(w: World, s: Scope, exports: seq<MergedExport>, j: nat, a: nat)
    requires j < |exports| && 0 < a && exports[j].views != [] && exports[j].views[0].entity.TypeE?
    requires MergedOk(w, exports) && Linked(s) && ExportedViews(s.typeExports, exports, j, a)
    ensures HasCached(s, exports[j].name)
  {
    var v := exports[j].views[0];
    var k := Key(v.comp, v.entity.created);
    assert Earlier(j, 0, j, a) && InView(exports, j, 0, k);
    ViewsName(w, s.typeExports, exports, j, a, j, 0, k);
  }

  /** A view is registered under the name of its export. */
  lemma ViewsName(w: World, typeExports: map<Key, string>, exports: seq<MergedExport>, j: nat, a: nat, i: nat, b: nat,
      k: Key)
    requires MergedOk(w, exports) && ExportedViews(typeExports, exports, j, a)
    requires InView(exports, i, b, k) && Earlier(i, b, j, a)
    ensures k in typeExports && typeExports[k] == exports[i].name
  {
    var i', b' :| Earlier(i', b', j, a) && InView(exports, i', b', k) && typeExports[k] == exports[i'].name;
    assert i' == i;
  }

  lemma {:induction false} AllMerge(w: World, st: T.TState, exports: seq<MergedExport>, n: nat)
    requires WorldOk(w) && MergedOk(w, exports) && ViewsFresh(exports) && FirstViewsOk(w, exports) && n <= |exports|
    requires AllExported(w, T.Push(st, InstanceBody), exports[..n]).Done?
    ensures Merging(exports, n, n, 0, AllExported(w, T.Push(st, InstanceBody), exports[..n]).st.cur)
    decreases n
  {
    hide Merging;
    hide ViewsFresh;
    hide MergedOk;
    hide T.ExportInto;
    hide OtherViews;
    var start := T.Push(st, InstanceBody);
    if n == 0 {
      NothingMerged(exports);
    } else {
      assert exports[..n][..n - 1] == exports[..n - 1];
      AllMerge(w, st, exports, n - 1);
      var mid := AllExported(w, start, exports[..n - 1]).st;
      var x := exports[n - 1];
      ExportIsOk(w, exports, n - 1);
      FirstViewMerges(w, mid, exports, n - 1);
      var v := x.views[0];
      var first := T.ExportInto(w, mid, v.comp, x.name, v.entity, |w[v.comp]|).st;
      assert x.views[1..|x.views|] == x.views[1..];
      OtherViewsMerge(w, first, exports, n - 1, |x.views|);
      ViewsAllDone(exports, n, OtherViews(first, x.name, x.views[1..]).st.cur);
    }
  }

  lemma ExportIsOk(w: World, exports: seq<MergedExport>, j: nat)
    requires MergedOk(w, exports) && j < |exports|
    ensures MergedExportOk(w, exports[j])
  {
  }

  lemma ViewsAllDone(exports: seq<MergedExport>, n: nat, s: Scope)
    requires 0 < n <= |exports| && Merging(exports, n, n - 1, |exports[n - 1].views|, s)
    ensures Merging(exports, n, n, 0, s)
  {
    hide ExportedViews;
    ViewsDone(s.typeExports, exports, n - 1);
  }

  /** There is one export of the name, and the index is that of the type it defines. */
  ghost predicate IsTheExport(items: seq<Item>, name: string, index: nat) {
    exists p ::
      && IsTypeExport(items, p, name) && index == TypeCount(items[..p])
      && forall q :: IsTypeExport(items, q, name) ==> q == p
  }

  lemma OnlyExport(items: seq<Item>, later: seq<Item>, exports: seq<MergedExport>, n: nat, name: string, index: nat)
    requires ExportsListed(items, exports, n) && NoExports(items, later) && AtExport(later, name, index)
    ensures IsTheExport(later, name, index)
  {
    var p :| IsTypeExport(later, p, name) && index == TypeCount(later[..p]);
    forall q | IsTypeExport(later, q, name)
      ensures q == p
    {
      assert items[p] == later[p] && items[q] == later[q];
    }
  }

  /** A type that is exported and of whose name one is cached is returned, and nothing is emitted. */
  lemma ExportedTy(w: World, st: T.TState, k: Key)
    requires WorldOk(w) && InWorld(w, k) && Linked(st.cur) && k in st.cur.typeExports
    ensures var r := T.Ty(w, st, k.comp, k.id);
            && r.Done? && r.st == st.(cur := st.cur.(typeDefs := st.cur.typeDefs[k := r.value]))
            && CachedAs(st.cur, st.cur.typeExports[k], r.value)
  {
    hide T.Find;
    hide CachedAs;
    hide Linked;
    ExportedFound(st, k);
    assert k == Key(k.comp, k.id);
    assert T.TyInner(w, st, k.comp, k.id) == T.Done(st, T.Find(st, k).value.1);
    TyReuses(w, st, k.comp, k.id);
  }

  /**
   In the body of a merged instance every reference to a type that some component's view exports
   under a name, by any component and at any later time, leads to the one export of that name, and
   nothing is emitted for it.
   */
  lemma ReferenceIsExport(w: World, st: T.TState, exports: seq<MergedExport>, n: nat, now: T.TState, i: nat, a: nat,
      k: Key)
    requires WorldOk(w) && MergedOk(w, exports) && ViewsFresh(exports) && FirstViewsOk(w, exports) && i < n <= |exports|
    requires AllExported(w, T.Push(st, InstanceBody), exports[..n]).Done? && InView(exports, i, a, k)
    requires Later(AllExported(w, T.Push(st, InstanceBody), exports[..n]).st.cur, now.cur)
    ensures InWorld(w, k)
    ensures var r := T.Ty(w, now, k.comp, k.id);
            && r.Done? && r.st == now.(cur := now.cur.(typeDefs := now.cur.typeDefs[k := r.value]))
            && IsTheExport(now.cur.items, exports[i].name, r.value)
  {
    hide MergedOk;
    hide ViewsFresh;
    hide Linked;
    hide AllExported;
    hide CachedFrom;
    hide ExportsListed;
    hide AtExports;
    hide IsTheExport;
    hide CachedAs;
    hide ExportedViews;
    var done := AllExported(w, T.Push(st, InstanceBody), exports[..n]).st.cur;
    AllMerge(w, st, exports, n);
    ViewInWorld(w, exports, i, a, k);
    ViewsName(w, done.typeExports, exports, n, 0, i, a, k);
    LaterKeeps(done, now.cur);
    LaterItems(done, now.cur);
    ExportedTy(w, now, k);
    var r := T.Ty(w, now, k.comp, k.id);
    CachedAtExport(now.cur, exports[i].name, r.value);
    OnlyExport(done.items, now.cur.items, exports, n, exports[i].name, r.value);
  }

  lemma ViewInWorld(w: World, exports: seq<MergedExport>, i: nat, a: nat, k: Key)
    requires WorldOk(w) && MergedOk(w, exports) && InView(exports, i, a, k)
    ensures InWorld(w, k)
  {
    assert MergedExportOk(w, exports[i]);
    assert ViewOk(w, exports[i].views[a]);
  }

  /** However much more is translated in the body, by whichever components, that is a later time. */
  lemma TranslatingIsLater(w: World, done: Scope, st: T.TState, c: nat, id: nat)
    requires WorldOk(w) && c < |w| && id < |w[c]| && Later(done, st.cur) && Linked(st.cur) && T.Ty(w, st, c, id).Done?
    ensures Later(done, T.Ty(w, st, c, id).st.cur) && Linked(T.Ty(w, st, c, id).st.cur)
  {
    hide T.Ty;
    hide Later;
    hide Linked;
    hide Reuses;
    var now := T.Ty(w, st, c, id).st.cur;
    TyReuses(w, st, c, id);
    ReusesIsLater(st.cur, now, c, id + 1);
    LinkedStays(st.cur, now, c, id + 1);
    LaterTransitive(done, st.cur, now);
  }

  // ----- types that instances export -----

  /**
   A type that is neither cached nor exported in the scope, but exported by an instance of a scope
   around it, is not defined again: it is an alias through the innermost such scope.
   */
  lemma OuterTypeIsAliased(w: World, st: T.TState, c: nat, id: nat, level: nat)
    requires WorldOk(w) && c < |w| && id < |w[c]| && level < |st.scopes|
    requires Key(c, id) !in st.cur.typeDefs && Key(c, id) !in st.cur.typeExports
    requires Key(c, id) in st.scopes[level].instanceExports
    requires forall i :: level < i < |st.scopes| ==> Key(c, id) !in st.scopes[i].instanceExports
    ensures var (instance, name) := st.scopes[level].instanceExports[Key(c, id)];
            var outer, index := st.scopes[level], TypeCount(st.cur.items);
            var items := st.cur.items + [AliasOuter(|st.scopes| - level, TypeCount(outer.items))];
            T.Ty(w, st, c, id)
            == T.Done(T.TState(st.scopes[level := outer.(items := outer.items + [AliasExport(instance, name)])],
                               st.cur.(typeDefs := st.cur.typeDefs[Key(c, id) := index], items := items)),
                      index)
  {
    hide TypeCount;
    assert T.Holder(st.scopes, Key(c, id)) == Some(level);
    assert T.TyInner(w, st, c, id).Done?;
  }

  /** Only if there is none around it an instance of the scope itself is used. */
  lemma InstanceTypeIsAliased(w: World, st: T.TState, c: nat, id: nat)
    requires WorldOk(w) && c < |w| && id < |w[c]|
    requires Key(c, id) !in st.cur.typeDefs && Key(c, id) !in st.cur.typeExports
    requires Key(c, id) in st.cur.instanceExports
    requires forall i :: 0 <= i < |st.scopes| ==> Key(c, id) !in st.scopes[i].instanceExports
    ensures var (instance, name) := st.cur.instanceExports[Key(c, id)];
            var index := TypeCount(st.cur.items);
            var items := st.cur.items + [AliasExport(instance, name)];
            T.Ty(w, st, c, id)
            == T.Done(st.(cur := st.cur.(typeDefs := st.cur.typeDefs[Key(c, id) := index], items := items)), index)
  {
    hide TypeCount;
    assert T.Holder(st.scopes, Key(c, id)).None?;
    assert T.TyInner(w, st, c, id).Done?;
  }
}
