/**
 The state of wasm-compose's type translation: a stack of scopes, each with its maps and the
 items emitted so far, and what must hold of it: every entry of every map denotes, in the index
 spaces of its scope, what the source type means.
 */
module TypeScopes {
  import opened Common
  import opened ComponentTypes

  type World = seq<Types>

  ghost predicate WorldOk(w: World) {
    forall c :: 0 <= c < |w| ==> TypesOk(w[c])
  }

  ghost predicate InWorld(w: World, k: Key) {
    WorldOk(w) && k.comp < |w| && k.id < |w[k.comp]|
  }

  /** Types that come into being by being exported are names for others. */
  ghost predicate IsAlias(w: World, k: Key) {
    InWorld(w, k) && w[k.comp][k.id].Alias?
  }

  ghost function Meant(w: World, k: Key): Meaning
    requires InWorld(w, k)
  {
    Unfold(w[k.comp], k.id)
  }

  datatype BodyKind = Builder | InstanceBody | ComponentBody

  datatype Scope = Scope(
    typeDefs: map<Key, nat>,
    typeExports: map<Key, string>,
    typeExportsRev: map<string, seq<Key>>,
    instanceExports: map<Key, (nat, string)>,
    kind: BodyKind,
    items: seq<Item>)

  function NewScope(kind: BodyKind): Scope {
    Scope(map[], map[], map[], map[], kind, [])
  }

  // ----- one scope -----

  /** Cached types are where the cache says. */
  ghost predicate DefsOk(w: World, typeDefs: map<Key, nat>, types: seq<Meaning>) {
    forall k :: k in typeDefs ==> InWorld(w, k) && typeDefs[k] < |types| && types[typeDefs[k]] == Meant(w, k)
  }

  /** Exported types are exported under their names, and both maps agree. */
  ghost predicate ExportsOk(w: World, s: Scope, exports: seq<MNamed>) {
    && (forall k :: k in s.typeExports ==>
          && IsAlias(w, k) && TypeExport(exports, s.typeExports[k]) == Some(Meant(w, k))
          && s.typeExports[k] in s.typeExportsRev && k in s.typeExportsRev[s.typeExports[k]])
    && (forall n, k :: n in s.typeExportsRev && k in s.typeExportsRev[n] ==>
          k in s.typeExports && s.typeExports[k] == n)
  }

  ghost predicate Offers(instance: Meaning, name: string, m: Meaning) {
    instance.MInstance? && TypeExport(instance.exports, name) == Some(m)
  }

  /** Entries name an instance that exports the type, or one that is still to be made. */
  ghost predicate InstancesOk(w: World, instanceExports: map<Key, (nat, string)>, instances: seq<Meaning>) {
    forall k :: k in instanceExports ==>
      && IsAlias(w, k)
      && var (i, name) := instanceExports[k];
         i <= |instances| && (i < |instances| ==> Offers(instances[i], name, Meant(w, k)))
  }

  /** The type was registered for an instance that has not been made. */
  ghost predicate Pending(s: Scope, env: Env, k: Key) {
    k in s.instanceExports && s.instanceExports[k].0 >= |env.instances|
  }

  /** An instance of this meaning exports everything that waits for an instance. */
  ghost predicate Awaited(w: World, s: Scope, env: Env, m: Meaning) {
    forall k :: Pending(s, env, k) ==> InWorld(w, k) && Offers(m, s.instanceExports[k].1, Meant(w, k))
  }

  ghost predicate ScopeOk(w: World, s: Scope, env: Env) {
    && DefsOk(w, s.typeDefs, env.types) && ExportsOk(w, s, env.exports)
    && InstancesOk(w, s.instanceExports, env.instances)
  }

  // ----- all scopes -----

  /** `envs` are the index spaces of the scopes, the outermost first and the current one last. */
  datatype Snapshot = Snapshot(scopes: seq<Scope>, cur: Scope, envs: seq<Env>)

  ghost function Outers(envs: seq<Env>): (r: seq<seq<Meaning>>)
    ensures |r| == |envs| && forall i :: 0 <= i < |envs| ==> r[i] == envs[i].types
  {
    seq(|envs|, i requires 0 <= i < |envs| => envs[i].types)
  }

  ghost function Level(s: Snapshot, k: nat): Scope
    requires k <= |s.scopes|
  {
    if k == |s.scopes| then s.cur else s.scopes[k]
  }

  ghost predicate Evaluates(s: Snapshot) {
    && |s.envs| == |s.scopes| + 1
    && forall k: nat :: k <= |s.scopes| ==> Eval(Level(s, k).items, Outers(s.envs[..k])) == Some(s.envs[k])
  }

  ghost predicate OuterOk(w: World, s: Snapshot) {
    |s.envs| == |s.scopes| + 1 && forall k :: 0 <= k < |s.scopes| ==> ScopeOk(w, s.scopes[k], s.envs[k])
  }

  ghost predicate Inv(w: World, s: Snapshot) {
    && WorldOk(w) && Evaluates(s) && OuterOk(w, s) && ScopeOk(w, s.cur, s.envs[|s.scopes|])
  }

  ghost function CurEnv(s: Snapshot): Env
    requires |s.envs| == |s.scopes| + 1
  {
    s.envs[|s.scopes|]
  }

  // ----- what translation may change -----

  ghost predicate EnvGrew(a: Env, b: Env) {
    a.types <= b.types && a.instances == b.instances && a.imports == b.imports && a.exports == b.exports
  }

  /** Outer scopes only get more items, which only define more types. */
  ghost predicate OuterKept(a: Snapshot, b: Snapshot) {
    && |a.scopes| == |b.scopes| && |a.envs| == |a.scopes| + 1 && |b.envs| == |b.scopes| + 1
    && forall k :: 0 <= k < |a.scopes| ==>
         && a.scopes[k].items <= b.scopes[k].items
         && b.scopes[k] == a.scopes[k].(items := b.scopes[k].items)
         && EnvGrew(a.envs[k], b.envs[k])
  }

  /** The current scope gets more types, and cached types; the instances stay. */
  ghost predicate CurKept(a: Snapshot, b: Snapshot)
    requires |a.envs| == |a.scopes| + 1 && |b.envs| == |b.scopes| + 1
  {
    && a.cur.items <= b.cur.items && b.cur.kind == a.cur.kind
    && b.cur.typeExports == a.cur.typeExports && b.cur.typeExportsRev == a.cur.typeExportsRev
    && (forall k :: k in a.cur.typeDefs ==> k in b.cur.typeDefs && b.cur.typeDefs[k] == a.cur.typeDefs[k])
    && (forall k :: k in a.cur.instanceExports ==>
          k in b.cur.instanceExports && b.cur.instanceExports[k] == a.cur.instanceExports[k])
    && EnvGrew(CurEnv(a), CurEnv(b))
  }

  ghost predicate Kept(a: Snapshot, b: Snapshot) {
    OuterKept(a, b) && CurKept(a, b)
  }

  /** The type is an instance type, or a name for one. */
  ghost predicate NamesInstance(w: World, k: Key) {
    InWorld(w, k) && w[k.comp][Peel(w[k.comp], k.id)].Instance?
  }

  /** New cached types are of component `c` and at most `top`; only `keys` are instance types or names for them. */
  ghost predicate Added(w: World, a: Scope, b: Scope, c: nat, top: int, keys: set<nat>) {
    forall k :: k in b.typeDefs && k !in a.typeDefs ==>
      k.comp == c && k.id <= top && (NamesInstance(w, k) ==> k.id in keys)
  }

  /** New entries are of types that the instance type `maker` creates, and wait for an instance of it. */
  ghost predicate Announced(w: World, a: Snapshot, b: Snapshot, c: nat, maker: Option<nat>)
    requires |b.envs| == |b.scopes| + 1
  {
    forall k :: k in b.cur.instanceExports && k !in a.cur.instanceExports ==>
      && maker.Some? && k.comp == c && InWorld(w, k) && Creates(w[c], maker.value, k.id)
      && b.cur.instanceExports[k].0 == |CurEnv(b).instances|
      && Offers(Unfold(w[c], maker.value), b.cur.instanceExports[k].1, Meant(w, k))
  }

  lemma KeptSelf(w: World, a: Snapshot, c: nat, top: int, keys: set<nat>, maker: Option<nat>)
    requires |a.envs| == |a.scopes| + 1
    ensures Kept(a, a) && Added(w, a.cur, a.cur, c, top, keys) && Announced(w, a, a, c, maker)
  {
  }

  lemma KeptTransitive(a: Snapshot, b: Snapshot, d: Snapshot)
    requires Kept(a, b) && Kept(b, d)
    ensures Kept(a, d)
  {
    hide CurKept;
    OuterKeptTransitive(a, b, d);
    CurKeptTransitive(a, b, d);
  }

  lemma OuterKeptTransitive(a: Snapshot, b: Snapshot, d: Snapshot)
    requires OuterKept(a, b) && OuterKept(b, d)
    ensures OuterKept(a, d)
  {
  }

  lemma CurKeptTransitive(a: Snapshot, b: Snapshot, d: Snapshot)
    requires |a.envs| == |a.scopes| + 1 && |b.envs| == |b.scopes| + 1 && |d.envs| == |d.scopes| + 1
    requires CurKept(a, b) && CurKept(b, d)
    ensures CurKept(a, d)
  {
  }

  lemma AddedTransitive(w: World, a: Scope, b: Scope, d: Scope, c: nat, top: int, keys: set<nat>)
    requires Added(w, a, b, c, top, keys) && Added(w, b, d, c, top, keys)
    ensures Added(w, a, d, c, top, keys)
  {
  }

  lemma AddedWeaker(w: World, a: Scope, b: Scope, c: nat, top: int, keys: set<nat>, top': int, keys': set<nat>)
    requires Added(w, a, b, c, top, keys) && top <= top' && keys <= keys'
    ensures Added(w, a, b, c, top', keys')
  {
  }

  lemma AnnouncedTransitive(w: World, a: Snapshot, b: Snapshot, d: Snapshot, c: nat, maker: Option<nat>)
    requires |b.envs| == |b.scopes| + 1 && |d.envs| == |d.scopes| + 1
    requires Announced(w, a, b, c, None) && Announced(w, b, d, c, maker)
    ensures Announced(w, a, d, c, maker)
  {
  }

  // ----- emitting into the current scope -----

  ghost function Emitted(s: Snapshot, item: Item, env: Env): Snapshot
    requires |s.envs| == |s.scopes| + 1
  {
    Snapshot(s.scopes, s.cur.(items := s.cur.items + [item]), s.envs[|s.scopes| := env])
  }

  lemma EmittedEvaluates(s: Snapshot, item: Item, env: Env)
    requires Evaluates(s)
    requires Step(CurEnv(s), item, Outers(s.envs[..|s.scopes|])) == Some(env)
    ensures Evaluates(Emitted(s, item, env))
  {
    hide Eval;
    hide Step;
    var r := Emitted(s, item, env);
    var n := |s.scopes|;
    EvalMore(s.cur.items, item, Outers(s.envs[..n]));
    forall k: nat | k <= n
      ensures Eval(Level(r, k).items, Outers(r.envs[..k])) == Some(r.envs[k])
    {
      assert r.envs[..k] == s.envs[..k];
      assert Eval(Level(s, k).items, Outers(s.envs[..k])) == Some(s.envs[k]);
    }
  }

  lemma GrewScopeOk(w: World, s: Scope, a: Env, b: Env)
    requires ScopeOk(w, s, a) && EnvGrew(a, b)
    ensures ScopeOk(w, s, b)
  {
    hide TypeExport;
  }

  /** The maps do not depend on the items. */
  lemma ItemsApart(w: World, s: Scope, items: seq<Item>, env: Env)
    requires ScopeOk(w, s, env)
    ensures ScopeOk(w, s.(items := items), env)
  {
    hide TypeExport;
  }

  /** An item that only defines a type. */
  lemma EmitKeeps(w: World, s: Snapshot, item: Item, env: Env)
    requires Inv(w, s) && EnvGrew(CurEnv(s), env)
    requires Step(CurEnv(s), item, Outers(s.envs[..|s.scopes|])) == Some(env)
    ensures Inv(w, Emitted(s, item, env)) && Kept(s, Emitted(s, item, env))
  {
    hide Eval;
    hide Step;
    hide ScopeOk;
    EmittedEvaluates(s, item, env);
    GrewScopeOk(w, s.cur, CurEnv(s), env);
    ItemsApart(w, s.cur, s.cur.items + [item], env);
    EmitOuterOk(w, s, item, env);
  }

  lemma EmitOuterOk(w: World, s: Snapshot, item: Item, env: Env)
    requires OuterOk(w, s)
    ensures OuterOk(w, Emitted(s, item, env))
  {
    hide ScopeOk;
    var r := Emitted(s, item, env);
    forall k | 0 <= k < |r.scopes|
      ensures ScopeOk(w, r.scopes[k], r.envs[k])
    {
      assert r.envs[k] == s.envs[k];
    }
  }

  // ----- emitting an alias into an outer scope -----

  ghost function OuterEmitted(s: Snapshot, k: nat, item: Item, m: Meaning): Snapshot
    requires |s.envs| == |s.scopes| + 1 && k < |s.scopes|
  {
    Snapshot(s.scopes[k := s.scopes[k].(items := s.scopes[k].items + [item])], s.cur,
             s.envs[k := s.envs[k].(types := s.envs[k].types + [m])])
  }

  lemma OuterEmittedEvaluates(s: Snapshot, k: nat, item: Item, m: Meaning)
    requires Evaluates(s) && k < |s.scopes|
    requires Step(s.envs[k], item, Outers(s.envs[..k])) == Some(s.envs[k].(types := s.envs[k].types + [m]))
    ensures Evaluates(OuterEmitted(s, k, item, m))
  {
    hide Eval;
    hide Step;
    var r := OuterEmitted(s, k, item, m);
    EvalMore(s.scopes[k].items, item, Outers(s.envs[..k]));
    forall j: nat | j <= |s.scopes|
      ensures Eval(Level(r, j).items, Outers(r.envs[..j])) == Some(r.envs[j])
    {
      assert Eval(Level(s, j).items, Outers(s.envs[..j])) == Some(s.envs[j]);
      if j <= k {
        assert r.envs[..j] == s.envs[..j];
        assert Level(s, k) == s.scopes[k];
      } else {
        assert Wider(Outers(s.envs[..j]), Outers(r.envs[..j]));
        EvalWider(Level(s, j).items, Outers(s.envs[..j]), Outers(r.envs[..j]));
      }
    }
  }

  lemma OuterEmitKeeps(w: World, s: Snapshot, k: nat, item: Item, m: Meaning)
    requires Inv(w, s) && k < |s.scopes|
    requires Step(s.envs[k], item, Outers(s.envs[..k])) == Some(s.envs[k].(types := s.envs[k].types + [m]))
    ensures Inv(w, OuterEmitted(s, k, item, m)) && Kept(s, OuterEmitted(s, k, item, m))
  {
    hide Eval;
    hide Step;
    hide ScopeOk;
    var r := OuterEmitted(s, k, item, m);
    OuterEmittedEvaluates(s, k, item, m);
    GrewScopeOk(w, s.scopes[k], s.envs[k], r.envs[k]);
    ItemsApart(w, s.scopes[k], r.scopes[k].items, r.envs[k]);
    forall j | 0 <= j < |r.scopes|
      ensures ScopeOk(w, r.scopes[j], r.envs[j])
    {
      if j != k {
        assert r.scopes[j] == s.scopes[j] && r.envs[j] == s.envs[j];
      }
    }
  }

  // ----- caching -----

  ghost function Cached(s: Snapshot, k: Key, index: nat): Snapshot {
    s.(cur := s.cur.(typeDefs := s.cur.typeDefs[k := index]))
  }

  lemma CachedEvaluates(s: Snapshot, k: Key, index: nat)
    requires Evaluates(s)
    ensures Evaluates(Cached(s, k, index))
  {
    hide Eval;
    var r := Cached(s, k, index);
    forall j: nat | j <= |r.scopes|
      ensures Eval(Level(r, j).items, Outers(r.envs[..j])) == Some(r.envs[j])
    {
      assert Level(r, j).items == Level(s, j).items;
    }
  }

  lemma CachedScopeOk(w: World, s: Scope, env: Env, k: Key, index: nat)
    requires ScopeOk(w, s, env) && InWorld(w, k)
    requires index < |env.types| && env.types[index] == Meant(w, k)
    ensures ScopeOk(w, s.(typeDefs := s.typeDefs[k := index]), env)
  {
    hide TypeExport;
    hide Meant;
    hide WorldOk;
    hide InstancesOk;
  }

  lemma CacheKeeps(w: World, s: Snapshot, k: Key, index: nat)
    requires Inv(w, s) && InWorld(w, k) && k !in s.cur.typeDefs
    requires index < |CurEnv(s).types| && CurEnv(s).types[index] == Meant(w, k)
    ensures Inv(w, Cached(s, k, index)) && Kept(s, Cached(s, k, index))
  {
    hide Eval;
    hide ScopeOk;
    hide Meant;
    CachedEvaluates(s, k, index);
    CachedScopeOk(w, s.cur, CurEnv(s), k, index);
    hide Evaluates;
  }

  // ----- entering and leaving a body -----

  ghost function Pushed(s: Snapshot, kind: BodyKind): Snapshot {
    Snapshot(s.scopes + [s.cur], NewScope(kind), s.envs + [EmptyEnv])
  }

  lemma PushedEvaluates(s: Snapshot, kind: BodyKind)
    requires Evaluates(s)
    ensures Evaluates(Pushed(s, kind))
  {
    hide Step;
    var r := Pushed(s, kind);
    var n := |s.scopes|;
    forall k: nat | k <= n + 1
      ensures Eval(Level(r, k).items, Outers(r.envs[..k])) == Some(r.envs[k])
    {
      if k <= n {
        assert r.envs[..k] == s.envs[..k];
        assert Level(r, k) == Level(s, k);
        assert Eval(Level(s, k).items, Outers(s.envs[..k])) == Some(s.envs[k]);
      } else {
        EvalNothing(Outers(r.envs[..k]));
      }
    }
  }

  lemma EvalNothing(outer: seq<seq<Meaning>>)
    ensures Eval([], outer) == Some(EmptyEnv)
  {
  }

  lemma PushKeeps(w: World, s: Snapshot, kind: BodyKind)
    requires Inv(w, s)
    ensures Inv(w, Pushed(s, kind))
  {
    hide Eval;
    hide ScopeOk;
    var r := Pushed(s, kind);
    PushedEvaluates(s, kind);
    forall k | 0 <= k < |r.scopes|
      ensures ScopeOk(w, r.scopes[k], r.envs[k])
    {
      assert r.envs[k] == s.envs[k];
    }
    NewScopeOk(w, kind);
  }

  lemma NewScopeOk(w: World, kind: BodyKind)
    ensures ScopeOk(w, NewScope(kind), EmptyEnv)
  {
  }

  /** The types an instance exports become available in the scope where it is about to be made. */
  function Registered(outer: Scope, exported: map<Key, string>): Scope {
    var added := map k | k in exported :: (InstanceCount(outer.items), exported[k]);
    outer.(instanceExports := outer.instanceExports + added)
  }

  ghost function Popped(s: Snapshot): Snapshot
    requires s.scopes != [] && |s.envs| == |s.scopes| + 1
  {
    var n := |s.scopes| - 1;
    Snapshot(s.scopes[..n],
             if s.cur.kind.InstanceBody? then Registered(s.scopes[n], s.cur.typeExports) else s.scopes[n],
             s.envs[..n + 1])
  }

  lemma PoppedEvaluates(s: Snapshot)
    requires Evaluates(s) && s.scopes != []
    ensures Evaluates(Popped(s))
    ensures Eval(s.cur.items, Outers(Popped(s).envs)) == Some(CurEnv(s))
  {
    hide Eval;
    var r := Popped(s);
    var n := |s.scopes| - 1;
    forall k: nat | k <= n
      ensures Eval(Level(r, k).items, Outers(r.envs[..k])) == Some(r.envs[k])
    {
      assert r.envs[..k] == s.envs[..k];
      assert Level(s, k).items == Level(r, k).items;
      assert Eval(Level(s, k).items, Outers(s.envs[..k])) == Some(s.envs[k]);
    }
    assert Eval(Level(s, n + 1).items, Outers(s.envs[..n + 1])) == Some(s.envs[n + 1]);
  }

  lemma RegisteredScopeOk(w: World, outer: Scope, env: Env, inner: Scope, exports: seq<MNamed>)
    requires ScopeOk(w, outer, env) && ExportsOk(w, inner, exports)
    requires InstanceCount(outer.items) == |env.instances|
    ensures ScopeOk(w, Registered(outer, inner.typeExports), env)
    ensures forall k :: k in inner.typeExports ==>
              && IsAlias(w, k)
              && Registered(outer, inner.typeExports).instanceExports[k] == (|env.instances|, inner.typeExports[k])
              && Offers(MInstance(exports), inner.typeExports[k], Meant(w, k))
  {
    hide TypeExport;
    hide WorldOk;
    hide Meant;
    var r := Registered(outer, inner.typeExports);
    forall k | k in r.instanceExports
      ensures IsAlias(w, k)
      ensures var (i, name) := r.instanceExports[k];
              i <= |env.instances| && (i < |env.instances| ==> Offers(env.instances[i], name, Meant(w, k)))
    {
      if k !in inner.typeExports {
        assert r.instanceExports[k] == outer.instanceExports[k];
      }
    }
  }

  /** After an instance body its types are registered for the next instance of the outer scope. */
  lemma PopKeeps(w: World, s: Snapshot)
    requires Inv(w, s) && s.scopes != []
    ensures Inv(w, Popped(s)) && Eval(s.cur.items, Outers(Popped(s).envs)) == Some(CurEnv(s))
    ensures s.cur.kind.InstanceBody? ==> forall k :: k in s.cur.typeExports ==>
              && IsAlias(w, k)
              && k in Popped(s).cur.instanceExports
              && Popped(s).cur.instanceExports[k] == (|CurEnv(Popped(s)).instances|, s.cur.typeExports[k])
              && Offers(MInstance(CurEnv(s).exports), s.cur.typeExports[k], Meant(w, k))
  {
    hide Eval;
    hide ScopeOk;
    hide Meant;
    hide Offers;
    var r := Popped(s);
    var n := |s.scopes| - 1;
    PoppedEvaluates(s);
    assert Eval(Level(s, n).items, Outers(s.envs[..n])) == Some(s.envs[n]);
    CountsMatch(s.scopes[n].items, Outers(s.envs[..n]));
    hide Evaluates;
    InnerExportsOk(w, s);
    if s.cur.kind.InstanceBody? {
      RegisteredScopeOk(w, s.scopes[n], s.envs[n], s.cur, CurEnv(s).exports);
    }
  }

  lemma InnerExportsOk(w: World, s: Snapshot)
    requires Inv(w, s)
    ensures ExportsOk(w, s.cur, CurEnv(s).exports)
  {
  }

  /** What a body leaves changed in the scope around it. */
  lemma BodyKept(a: Snapshot, kind: BodyKind, b: Snapshot)
    requires |a.envs| == |a.scopes| + 1 && OuterKept(Pushed(a, kind), b) && b.cur.kind == kind
    requires kind.InstanceBody? ==> b.cur.typeExports.Keys !! a.cur.instanceExports.Keys
    ensures Kept(a, Popped(b)) && Popped(b).cur.typeDefs == a.cur.typeDefs
    ensures forall k :: k in Popped(b).cur.instanceExports && k !in a.cur.instanceExports ==>
              kind.InstanceBody? && k in b.cur.typeExports
    ensures kind.InstanceBody? ==> forall k :: k in b.cur.typeExports ==> k in Popped(b).cur.instanceExports
  {
    var p, r := Pushed(a, kind), Popped(b);
    var n := |a.scopes|;
    assert p.scopes[n] == a.cur && p.envs[n] == a.envs[n];
    forall k | 0 <= k < n
      ensures a.scopes[k].items <= r.scopes[k].items && r.scopes[k] == a.scopes[k].(items := r.scopes[k].items)
      ensures EnvGrew(a.envs[k], r.envs[k])
    {
      assert p.scopes[k] == a.scopes[k] && p.envs[k] == a.envs[k];
    }
  }

  // ----- declaring imports and exports -----

  /** The index spaces after an import or export of something of the given kind and meaning. */
  ghost function Declared(env: Env, importing: bool, name: string, kind: Kind, m: Meaning): Env {
    Defining(if importing then env.(imports := env.imports + [MNamed(name, kind, m)])
             else env.(exports := env.exports + [MNamed(name, kind, m)]), kind, m)
  }

  lemma OtherExport(exports: seq<MNamed>, last: MNamed, name: string)
    ensures name != last.name ==> TypeExport(exports + [last], name) == TypeExport(exports, name)
    ensures name == last.name && last.kind == KType ==> TypeExport(exports + [last], name) == Some(last.meaning)
  {
    assert (exports + [last])[..|exports|] == exports;
  }

  /** A new name, and for an instance one that was waited for, if any was. */
  lemma DeclaredScopeOk(w: World, s: Scope, env: Env, importing: bool, name: string,
      kind: Kind, m: Meaning)
    requires ScopeOk(w, s, env)
    requires importing || forall k :: k in s.typeExports ==> s.typeExports[k] != name
    requires kind == KInstance ==> Awaited(w, s, env, m)
    ensures ScopeOk(w, s, Declared(env, importing, name, kind, m))
  {
    hide Meant;
    hide WorldOk;
    hide TypeExport;
    var r := Declared(env, importing, name, kind, m);
    forall k | k in s.typeExports
      ensures TypeExport(r.exports, s.typeExports[k]) == TypeExport(env.exports, s.typeExports[k])
    {
      if !importing {
        OtherExport(env.exports, MNamed(name, kind, m), s.typeExports[k]);
      }
    }
  }

  function Declaration(importing: bool, name: string, r: TRef): Item {
    if importing then ImportItem(name, r) else ExportItem(name, r)
  }

  lemma DeclarationSteps(env: Env, importing: bool, name: string, r: TRef, outer: seq<seq<Meaning>>)
    requires RefMeaning(env.types, r).Some?
    ensures var (kind, m) := RefMeaning(env.types, r).value;
            Step(env, Declaration(importing, name, r), outer) == Some(Declared(env, importing, name, kind, m))
  {
    hide Eval;
  }

  lemma DeclareKeeps(w: World, s: Snapshot, importing: bool, name: string, r: TRef)
    requires Inv(w, s) && RefMeaning(CurEnv(s).types, r).Some?
    requires importing || forall k :: k in s.cur.typeExports ==> s.cur.typeExports[k] != name
    requires var (kind, m) := RefMeaning(CurEnv(s).types, r).value;
             kind == KInstance ==> Awaited(w, s.cur, CurEnv(s), m)
    ensures var (kind, m) := RefMeaning(CurEnv(s).types, r).value;
            var env := Declared(CurEnv(s), importing, name, kind, m);
            Inv(w, Emitted(s, Declaration(importing, name, r), env))
  {
    hide Eval;
    hide Step;
    hide ScopeOk;
    hide RefMeaning;
    hide Declared;
    var (kind, m) := RefMeaning(CurEnv(s).types, r).value;
    var env := Declared(CurEnv(s), importing, name, kind, m);
    var item := Declaration(importing, name, r);
    DeclarationSteps(CurEnv(s), importing, name, r, Outers(s.envs[..|s.scopes|]));
    EmittedEvaluates(s, item, env);
    DeclaredScopeOk(w, s.cur, CurEnv(s), importing, name, kind, m);
    ItemsApart(w, s.cur, s.cur.items + [item], env);
    EmitOuterOk(w, s, item, env);
    hide Evaluates;
  }

  // ----- registering exported types -----

  /** `add_type_export`. */
  function Exporting(s: Scope, k: Key, name: string): Scope {
    s.(typeExports := s.typeExports[k := name],
       typeExportsRev :=
         s.typeExportsRev[name := (if name in s.typeExportsRev then s.typeExportsRev[name] else []) + [k]])
  }

  lemma ExportingScopeOk(w: World, s: Scope, env: Env, k: Key, name: string)
    requires ScopeOk(w, s, env) && IsAlias(w, k) && k !in s.typeExports
    requires TypeExport(env.exports, name) == Some(Meant(w, k))
    ensures ScopeOk(w, Exporting(s, k, name), env)
  {
    hide TypeExport;
    hide WorldOk;
    hide Meant;
    hide InstancesOk;
    hide DefsOk;
    var r := Exporting(s, k, name);
    forall k' | k' in r.typeExports
      ensures r.typeExports[k'] in r.typeExportsRev && k' in r.typeExportsRev[r.typeExports[k']]
    {
      if k' == k {
        assert r.typeExportsRev[name][|r.typeExportsRev[name]| - 1] == k;
      } else if s.typeExports[k'] == name {
        assert k' in s.typeExportsRev[name];
      }
    }
  }

  ghost function ExportingNow(s: Snapshot, k: Key, name: string): Snapshot {
    s.(cur := Exporting(s.cur, k, name))
  }

  lemma ExportingKeeps(w: World, s: Snapshot, k: Key, name: string)
    requires Inv(w, s) && IsAlias(w, k) && k !in s.cur.typeExports
    requires TypeExport(CurEnv(s).exports, name) == Some(Meant(w, k))
    ensures Inv(w, ExportingNow(s, k, name))
  {
    hide Eval;
    hide ScopeOk;
    hide TypeExport;
    var r := ExportingNow(s, k, name);
    ExportingScopeOk(w, s.cur, CurEnv(s), k, name);
    forall j: nat | j <= |r.scopes|
      ensures Eval(Level(r, j).items, Outers(r.envs[..j])) == Some(r.envs[j])
    {
      assert Level(r, j).items == Level(s, j).items;
      assert Eval(Level(s, j).items, Outers(s.envs[..j])) == Some(s.envs[j]);
    }
  }
}
