/**
 What the translation of component types keeps: every scope evaluates, every entry of every map
 denotes what the source type means, and so do the types and entities that are translated.
 */
module TypeMeaning {
  import opened Common
  import opened ComponentTypes
  import opened TypeScopes
  import opened TypeOrder
  import T = Translation

  ghost function StateOf(s: Snapshot): T.TState {
    T.TState(s.scopes, s.cur)
  }

  // ----- what must not be looked up -----

  /** Nothing that waits for an instance, in a scope around the current one, is part of the type. */
  ghost predicate OuterClear(w: World, s: Snapshot, c: nat, id: nat)
    requires c < |w| && TypesOk(w[c]) && id < |w[c]|
  {
    |s.envs| == |s.scopes| + 1 &&
    forall level, k :: 0 <= level < |s.scopes| && Pending(s.scopes[level], s.envs[level], k) && k.comp == c ==>
      !Touches(w[c], id, k.id)
  }

  ghost predicate CurClear(w: World, s: Snapshot, c: nat, id: nat)
    requires c < |w| && TypesOk(w[c]) && id < |w[c]|
  {
    |s.envs| == |s.scopes| + 1 &&
    forall k :: Pending(s.cur, CurEnv(s), k) && k.comp == c ==> !Touches(w[c], id, k.id)
  }

  ghost predicate Clear(w: World, s: Snapshot, c: nat, id: nat)
    requires c < |w| && TypesOk(w[c]) && id < |w[c]|
  {
    OuterClear(w, s, c, id) && CurClear(w, s, c, id)
  }

  /** What the type would register, if it is an instance type or a name for one, is not registered. */
  ghost predicate Unregistered(w: World, s: Scope, c: nat, id: nat)
    requires c < |w| && id < |w[c]|
  {
    forall x: nat :: Creates(w[c], Peel(w[c], id), x) ==> Key(c, x) !in s.instanceExports
  }

  ghost predicate AllRegistered(w: World, s: Scope, c: nat, id: nat)
    requires c < |w| && id < |w[c]|
  {
    forall x: nat :: Creates(w[c], Peel(w[c], id), x) ==> Key(c, x) in s.instanceExports
  }

  /** Some type on the chain of aliases is there already. */
  ghost predicate FoundOnChain(w: World, st: T.TState, c: nat, id: nat)
    requires WorldOk(w) && c < |w| && id < |w[c]|
    decreases id
  {
    assert DefOk(w[c], id);
    T.Find(st, Key(c, id)).Some? || (w[c][id].Alias? && FoundOnChain(w, st, c, w[c][id].target))
  }

  ghost predicate Ready(w: World, s: Snapshot, c: nat, id: nat)
    requires c < |w| && TypesOk(w[c]) && id < |w[c]|
  {
    Key(c, id) in s.cur.typeDefs || (Unregistered(w, s.cur, c, id) && Clear(w, s, c, id))
  }

  /** The instance type whose exported types are registered when `id` is translated. */
  ghost function Maker(ts: Types, id: nat): Option<nat>
    requires id < |ts|
  {
    if ts[Peel(ts, id)].Instance? then Some(Peel(ts, id)) else None
  }

  /** The snapshot after translating `id` of component `c`. */
  ghost predicate Translated(w: World, a: Snapshot, b: Snapshot, c: nat, id: nat, index: nat)
    requires InWorld(w, Key(c, id))
  {
    && Inv(w, b) && Kept(a, b) && Announced(w, a, b, c, Maker(w[c], id))
    && index < |CurEnv(b).types| && CurEnv(b).types[index] == Unfold(w[c], id)
  }

  lemma InvShape(w: World, s: Snapshot)
    requires Inv(w, s)
    ensures WorldOk(w) && |s.envs| == |s.scopes| + 1
  {
  }

  /** The counters of the current scope are the sizes of its index spaces. */
  lemma CurCounts(w: World, s: Snapshot)
    requires Inv(w, s)
    ensures TypeCount(s.cur.items) == |CurEnv(s).types| && InstanceCount(s.cur.items) == |CurEnv(s).instances|
  {
    hide Eval;
    hide ScopeOk;
    var n := |s.scopes|;
    assert Eval(Level(s, n).items, Outers(s.envs[..n])) == Some(s.envs[n]);
    CountsMatch(s.cur.items, Outers(s.envs[..n]));
  }

  // ----- parts of a type -----

  lemma AliasFacts(ts: Types, id: nat)
    requires TypesOk(ts) && id < |ts| && ts[id].Alias?
    ensures ts[id].target < id && Unfold(ts, ts[id].target) == Unfold(ts, id)
    ensures Peel(ts, ts[id].target) == Peel(ts, id)
    ensures forall x: nat :: Touches(ts, ts[id].target, x) ==> Touches(ts, id, x)
  {
    assert DefOk(ts, id);
  }

  lemma AliasClear(w: World, s: Snapshot, c: nat, id: nat)
    requires WorldOk(w) && c < |w| && id < |w[c]| && w[c][id].Alias? && Clear(w, s, c, id)
    ensures w[c][id].target < id && Clear(w, s, c, w[c][id].target)
  {
    hide Touches;
    AliasFacts(w[c], id);
  }

  lemma CtorFacts(ts: Types, id: nat)
    requires TypesOk(ts) && id < |ts| && ts[id].Ctor?
    ensures forall i :: 0 <= i < |ts[id].args| ==> ValOk(ts, ts[id].args[i], id)
    ensures forall i, x: nat :: 0 <= i < |ts[id].args| && TouchesVal(ts, ts[id].args[i], id, x) ==> Touches(ts, id, x)
    ensures var args := ts[id].args;
            Unfold(ts, id) == MCtor(ts[id].shape, seq(|args|, i requires 0 <= i < |args| => UnfoldVal(ts, args[i], id)))
  {
    assert DefOk(ts, id);
    var args := ts[id].args;
    var ms := seq(|args|, i requires 0 <= i < |args| => UnfoldVal(ts, args[i], id));
    assert Unfold(ts, id).args == ms;
  }

  lemma InstanceFacts(ts: Types, id: nat)
    requires TypesOk(ts) && id < |ts| && ts[id].Instance?
    ensures NamedOk(ts, ts[id].exports, id) && Created([], ts[id].exports)
    ensures Unfold(ts, id) == MInstance(UnfoldNamed(ts, ts[id].exports, id))
    ensures forall x: nat :: TouchesNamed(ts, ts[id].exports, id, x) ==> Touches(ts, id, x)
  {
    hide UnfoldNamed;
    hide TouchesNamed;
    assert DefOk(ts, id);
  }

  lemma ComponentFacts(ts: Types, id: nat)
    requires TypesOk(ts) && id < |ts| && ts[id].Component?
    ensures NamedOk(ts, ts[id].imports, id) && NamedOk(ts, ts[id].exports, id)
    ensures Created(ts[id].imports, ts[id].exports)
    ensures Unfold(ts, id) == MComponent(UnfoldNamed(ts, ts[id].imports, id), UnfoldNamed(ts, ts[id].exports, id))
    ensures forall x: nat :: TouchesNamed(ts, ts[id].imports, id, x) ==> Touches(ts, id, x)
    ensures forall x: nat :: TouchesNamed(ts, ts[id].exports, id, x) ==> Touches(ts, id, x)
  {
    hide UnfoldNamed;
    hide TouchesNamed;
    assert DefOk(ts, id);
  }

  lemma TouchesItself(ts: Types, id: nat)
    requires TypesOk(ts) && id < |ts|
    ensures Touches(ts, id, id)
  {
  }

  // ----- finding a type -----

  lemma {:induction false} FirstCachedIs(typeDefs: map<Key, nat>, keys: seq<Key>)
    requires T.FirstCached(typeDefs, keys).Some?
    ensures exists j :: 0 <= j < |keys| && keys[j] in typeDefs
                     && typeDefs[keys[j]] == T.FirstCached(typeDefs, keys).value
  {
    if keys[0] !in typeDefs {
      FirstCachedIs(typeDefs, keys[1..]);
      var j :| 0 <= j < |keys[1..]| && keys[1..][j] in typeDefs
               && typeDefs[keys[1..][j]] == T.FirstCached(typeDefs, keys).value;
      assert keys[j + 1] == keys[1..][j];
    }
  }

  lemma ExportedMeans(w: World, s: Snapshot, k: Key)
    requires Inv(w, s) && T.FindExported(s.cur, k).Some?
    ensures IsAlias(w, k)
    ensures var index := T.FindExported(s.cur, k).value;
            index < |CurEnv(s).types| && CurEnv(s).types[index] == Meant(w, k)
  {
    hide Evaluates;
    hide Meant;
    var keys := s.cur.typeExportsRev[s.cur.typeExports[k]];
    FirstCachedIs(s.cur.typeDefs, keys);
    var j :| 0 <= j < |keys| && keys[j] in s.cur.typeDefs
             && s.cur.typeDefs[keys[j]] == T.FirstCached(s.cur.typeDefs, keys).value;
    assert s.cur.typeExports[keys[j]] == s.cur.typeExports[k];
  }

  lemma OuterAliasSteps(w: World, s: Snapshot, level: nat, k: Key)
    requires Inv(w, s) && level < |s.scopes| && k in s.scopes[level].instanceExports
    requires !Pending(s.scopes[level], s.envs[level], k)
    ensures IsAlias(w, k) && TypeCount(s.scopes[level].items) == |s.envs[level].types|
    ensures var (instance, name) := s.scopes[level].instanceExports[k];
            Step(s.envs[level], AliasExport(instance, name), Outers(s.envs[..level]))
            == Some(s.envs[level].(types := s.envs[level].types + [Meant(w, k)]))
  {
    hide Eval;
    hide Meant;
    hide TypeExport;
    assert ScopeOk(w, s.scopes[level], s.envs[level]);
    assert Eval(Level(s, level).items, Outers(s.envs[..level])) == Some(s.envs[level]);
    CountsMatch(s.scopes[level].items, Outers(s.envs[..level]));
  }

  lemma OuterAliasResolves(s: Snapshot, level: nat, index: nat, m: Meaning)
    requires |s.envs| == |s.scopes| + 1 && level < |s.scopes|
    requires index < |s.envs[level].types| && s.envs[level].types[index] == m
    ensures Step(CurEnv(s), AliasOuter(|s.scopes| - level, index), Outers(s.envs[..|s.scopes|]))
         == Some(CurEnv(s).(types := CurEnv(s).types + [m]))
  {
    hide Eval;
  }

  lemma CurrentAliasSteps(w: World, s: Snapshot, k: Key)
    requires Inv(w, s) && k in s.cur.instanceExports && !Pending(s.cur, CurEnv(s), k)
    ensures IsAlias(w, k)
    ensures var (instance, name) := s.cur.instanceExports[k];
            Step(CurEnv(s), AliasExport(instance, name), Outers(s.envs[..|s.scopes|]))
            == Some(CurEnv(s).(types := CurEnv(s).types + [Meant(w, k)]))
  {
    hide Eval;
    hide Evaluates;
    hide Meant;
    hide TypeExport;
  }

  /** The snapshot after an item that defines a type of the given meaning. */
  ghost function Defined(s: Snapshot, item: Item, m: Meaning): Snapshot
    requires |s.envs| == |s.scopes| + 1
  {
    Emitted(s, item, CurEnv(s).(types := CurEnv(s).types + [m]))
  }

  lemma DefinedKeeps(w: World, s: Snapshot, item: Item, m: Meaning)
    requires Inv(w, s)
    requires Step(CurEnv(s), item, Outers(s.envs[..|s.scopes|])) == Some(CurEnv(s).(types := CurEnv(s).types + [m]))
    ensures Inv(w, Defined(s, item, m)) && Kept(s, Defined(s, item, m))
    ensures StateOf(Defined(s, item, m)) == T.Emit(StateOf(s), item)
    ensures Defined(s, item, m).cur == s.cur.(items := s.cur.items + [item])
    ensures |CurEnv(Defined(s, item, m)).instances| == |CurEnv(s).instances|
    ensures TypeCount(s.cur.items) < |CurEnv(Defined(s, item, m)).types|
    ensures CurEnv(Defined(s, item, m)).types[TypeCount(s.cur.items)] == m
  {
    hide Eval;
    hide Step;
    EmitKeeps(w, s, item, CurEnv(s).(types := CurEnv(s).types + [m]));
    CurCounts(w, s);
  }

  /** A type of an instance of an outer scope: the two aliases mean it. */
  lemma OuterFoundMeans(w: World, s: Snapshot, level: nat, k: Key) returns (t: Snapshot)
    requires Inv(w, s) && level < |s.scopes| && k in s.scopes[level].instanceExports
    requires !Pending(s.scopes[level], s.envs[level], k)
    ensures T.AliasFrom(StateOf(s), level, k) == (StateOf(t), TypeCount(s.cur.items))
    ensures Inv(w, t) && Kept(s, t) && t.cur == s.cur.(items := t.cur.items) && IsAlias(w, k)
    ensures TypeCount(s.cur.items) < |CurEnv(t).types| && CurEnv(t).types[TypeCount(s.cur.items)] == Meant(w, k)
  {
    hide Inv;
    hide Kept;
    hide Meant;
    hide Step;
    hide Eval;
    InvShape(w, s);
    OuterAliasSteps(w, s, level, k);
    var (instance, name) := s.scopes[level].instanceExports[k];
    OuterEmitKeeps(w, s, level, AliasExport(instance, name), Meant(w, k));
    var mid := OuterEmitted(s, level, AliasExport(instance, name), Meant(w, k));
    InvShape(w, mid);
    var index := TypeCount(s.scopes[level].items);
    OuterAliasResolves(mid, level, index, Meant(w, k));
    DefinedKeeps(w, mid, AliasOuter(|s.scopes| - level, index), Meant(w, k));
    t := Defined(mid, AliasOuter(|s.scopes| - level, index), Meant(w, k));
    KeptTransitive(s, mid, t);
  }

  /** Whatever is found means the type, unless it waits for an instance. */
  lemma FoundMeans(w: World, s: Snapshot, k: Key) returns (t: Snapshot, index: nat)
    requires Inv(w, s) && T.Find(StateOf(s), k).Some?
    requires !Pending(s.cur, CurEnv(s), k)
    requires forall level :: 0 <= level < |s.scopes| ==> !Pending(s.scopes[level], s.envs[level], k)
    ensures T.Find(StateOf(s), k) == Some((StateOf(t), index))
    ensures Inv(w, t) && Kept(s, t) && t.cur == s.cur.(items := t.cur.items) && IsAlias(w, k)
    ensures index < |CurEnv(t).types| && CurEnv(t).types[index] == Meant(w, k)
  {
    hide Inv;
    hide Kept;
    hide Meant;
    hide Step;
    hide T.AliasFrom;
    hide T.FindExported;
    InvShape(w, s);
    if T.FindExported(s.cur, k).Some? {
      ExportedMeans(w, s, k);
      KeptSelf(w, s, 0, 0, {}, None);
      t, index := s, T.FindExported(s.cur, k).value;
    } else if T.Holder(s.scopes, k).Some? {
      t := OuterFoundMeans(w, s, T.Holder(s.scopes, k).value, k);
      index := TypeCount(s.cur.items);
    } else {
      var (instance, name) := s.cur.instanceExports[k];
      CurrentAliasSteps(w, s, k);
      DefinedKeeps(w, s, AliasExport(instance, name), Meant(w, k));
      t, index := Defined(s, AliasExport(instance, name), Meant(w, k)), TypeCount(s.cur.items);
    }
  }

  lemma FindClear(w: World, s: Snapshot, c: nat, id: nat)
    requires WorldOk(w) && c < |w| && id < |w[c]| && Clear(w, s, c, id)
    ensures !Pending(s.cur, CurEnv(s), Key(c, id))
    ensures forall level :: 0 <= level < |s.scopes| ==> !Pending(s.scopes[level], s.envs[level], Key(c, id))
  {
    TouchesItself(w[c], id);
  }

  // ----- what is declared in a scope -----

  /**
   The scope knows what was declared in it: entries come from declarations, what they name is
   cached, and what waits for an instance belongs to the instance type that is open.
   */
  ghost predicate Tracks(w: World, s: Snapshot, ds: seq<Decl>) {
    && |s.envs| == |s.scopes| + 1 && DeclsOk(w, ds)
    && (forall k :: k in s.cur.instanceExports ==> exists i :: 0 <= i < |ds| && Registers(w, ds[i], k))
    && (forall i, c: nat, id: nat :: 0 <= i < |ds| && Introduces(ds[i], c, id) ==> Key(c, id) in s.cur.typeDefs)
    && (forall k :: Pending(s.cur, CurEnv(s), k) ==> WaitsFor(w, s.cur, k, OpenAfter(w, ds)))
  }

  ghost predicate WaitsFor(w: World, s: Scope, k: Key, open: Option<Key>) {
    && open.Some? && k.comp == open.value.comp && InWorld(w, k) && InWorld(w, open.value)
    && Creates(w[k.comp], open.value.id, k.id)
    && k in s.instanceExports && Offers(Meant(w, open.value), s.instanceExports[k].1, Meant(w, k))
  }

  ghost function MakerFor(ts: Types, e: Entity, bound: nat): Option<nat>
    requires EntityOk(ts, e, bound)
  {
    if KeyOf(e).Some? then Maker(ts, KeyOf(e).value) else None
  }

  ghost function KeySet(e: Entity): set<nat> {
    if KeyOf(e).Some? then {KeyOf(e).value} else {}
  }

  /** The largest type that translating a reference to the entity touches. */
  function Touched(e: Entity): int {
    if KeyOf(e).Some? then KeyOf(e).value else -1
  }

  /** The snapshot after translating a reference to the entity. */
  ghost predicate Referenced(w: World, a: Snapshot, b: Snapshot, c: nat, e: Entity, bound: nat)
    requires c < |w| && EntityOk(w[c], e, bound)
  {
    && Inv(w, b) && Kept(a, b) && Added(w, a.cur, b.cur, c, Touched(e), KeySet(e))
    && Announced(w, a, b, c, MakerFor(w[c], e, bound))
    && (KeyOf(e).Some? ==> Key(c, KeyOf(e).value) in b.cur.typeDefs)
    && (KeyOf(e).Some? && Key(c, KeyOf(e).value) in a.cur.typeDefs ==> b == a)
  }

  /** What the entity's instance type exports is registered, if it was translated here. */
  ghost predicate Complete(w: World, a: Snapshot, b: Snapshot, c: nat, e: Entity, bound: nat)
    requires WorldOk(w) && c < |w| && EntityOk(w[c], e, bound)
  {
    KeyOf(e).Some? ==>
      || Key(c, KeyOf(e).value) in a.cur.typeDefs
      || FoundOnChain(w, StateOf(a), c, KeyOf(e).value)
      || AllRegistered(w, b.cur, c, KeyOf(e).value)
  }

  lemma KeyInRange(ts: Types, e: Entity, bound: nat)
    requires EntityOk(ts, e, bound)
    ensures KeyOf(e).Some? ==> KeyOf(e).value < bound <= |ts|
  {
  }

  /** What the order of the declarations is for: the next one can be translated. */
  lemma ReadyFor(w: World, s: Snapshot, ds: seq<Decl>, d: Decl)
    requires WorldOk(w) && Tracks(w, s, ds) && DeclOk(w, d) && d.OfEntity? && KeyOf(d.entity).Some?
    requires Timely(w, ds, d) && NoRepeat(w, ds, d)
    requires KeyOf(d.entity).value < |w[d.comp]| && OuterClear(w, s, d.comp, KeyOf(d.entity).value)
    ensures Ready(w, s, d.comp, KeyOf(d.entity).value)
    ensures Known(ds, d) ==> Key(d.comp, KeyOf(d.entity).value) in s.cur.typeDefs
  {
    hide OpenAfter;
    hide Touches;
    hide Offers;
    hide Meant;
    var c, id := d.comp, KeyOf(d.entity).value;
    if Known(ds, d) {
      var i :| 0 <= i < |ds| && Introduces(ds[i], c, id);
      assert Key(c, id) in s.cur.typeDefs;
    } else {
      forall x: nat | Creates(w[c], Peel(w[c], id), x)
        ensures Key(c, x) !in s.cur.instanceExports
      {
        assert Creating(w[c], Peel(w[c], id));
        assert Registers(w, d, Key(c, x));
      }
      forall k | Pending(s.cur, CurEnv(s), k) && k.comp == c
        ensures !Touches(w[c], id, k.id)
      {
        assert WaitsFor(w, s.cur, k, OpenAfter(w, ds));
      }
    }
  }

  /** An instance so declared exports everything that waits for one. */
  lemma AwaitedFor(w: World, s: Snapshot, t: Snapshot, ds: seq<Decl>, d: Decl)
    requires WorldOk(w) && Tracks(w, s, ds) && DeclOk(w, d) && d.OfEntity? && d.entity.InstanceE? && Timely(w, ds, d)
    requires Known(ds, d) ==> Key(d.comp, d.entity.id) in s.cur.typeDefs
    requires Referenced(w, s, t, d.comp, d.entity, |w[d.comp]|)
    ensures Awaited(w, t.cur, CurEnv(t), Unfold(w[d.comp], d.entity.id))
  {
    hide OpenAfter;
    hide Inv;
    hide OuterKept;
    hide Offers;
    hide Unfold;
    var c, id := d.comp, d.entity.id;
    InvShape(w, t);
    UnfoldPeeled(w[c], id);
    forall k | Pending(t.cur, CurEnv(t), k)
      ensures InWorld(w, k) && Offers(Unfold(w[c], id), t.cur.instanceExports[k].1, Meant(w, k))
    {
      if k in s.cur.instanceExports {
        assert Pending(s.cur, CurEnv(s), k);
        assert WaitsFor(w, s.cur, k, OpenAfter(w, ds));
        assert MakerOf(w, d) == OpenAfter(w, ds);
      }
    }
  }

  /** After the declaration the scope knows it too. */
  lemma TracksMore(w: World, s: Snapshot, t: Snapshot, u: Snapshot, ds: seq<Decl>, d: Decl)
    requires WorldOk(w) && Inv(w, s) && Tracks(w, s, ds) && DeclOk(w, d) && d.OfEntity? && Timely(w, ds, d)
    requires Known(ds, d) ==> Key(d.comp, KeyOf(d.entity).value) in s.cur.typeDefs
    requires Referenced(w, s, t, d.comp, d.entity, |w[d.comp]|)
    requires |u.envs| == |u.scopes| + 1 && u.cur.instanceExports == t.cur.instanceExports
    requires |CurEnv(u).instances| == |CurEnv(t).instances| + if d.entity.InstanceE? then 1 else 0
    requires forall k :: k in t.cur.typeDefs ==> k in u.cur.typeDefs
    requires d.exported && d.entity.TypeE? ==> Key(d.comp, d.entity.created) in u.cur.typeDefs
    ensures Tracks(w, u, ds + [d])
  {
    hide OuterKept;
    hide Offers;
    hide Unfold;
    hide Evaluates;
    hide OuterOk;
    hide ExportsOk;
    hide DefsOk;
    var now := ds + [d];
    assert now[..|ds|] == ds;
    forall k | k in u.cur.instanceExports
      ensures exists i :: 0 <= i < |now| && Registers(w, now[i], k)
    {
      if k in s.cur.instanceExports {
        var i :| 0 <= i < |ds| && Registers(w, ds[i], k);
        assert Registers(w, now[i], k);
      } else {
        NewIsRegistered(w, s, t, d, k);
        assert Registers(w, now[|ds|], k);
      }
    }
    forall i, c: nat, id: nat | 0 <= i < |now| && Introduces(now[i], c, id)
      ensures Key(c, id) in u.cur.typeDefs
    {
      if i < |ds| {
        assert Introduces(ds[i], c, id);
      }
    }
    forall k | Pending(u.cur, CurEnv(u), k)
      ensures WaitsFor(w, u.cur, k, OpenAfter(w, now))
    {
      PendingMore(w, s, t, ds, d, k);
    }
  }

  lemma NewIsRegistered(w: World, s: Snapshot, t: Snapshot, d: Decl, k: Key)
    requires WorldOk(w) && DeclOk(w, d) && d.OfEntity? && Referenced(w, s, t, d.comp, d.entity, |w[d.comp]|)
    requires k in t.cur.instanceExports && k !in s.cur.instanceExports
    ensures Registers(w, d, k) && MakerOf(w, d).Some? && KeyOf(d.entity).Some?
    ensures Key(d.comp, KeyOf(d.entity).value) !in s.cur.typeDefs
    ensures InWorld(w, MakerOf(w, d).value) && WaitsFor(w, t.cur, k, MakerOf(w, d))
  {
    hide Kept;
    hide Inv;
    hide Offers;
    hide Unfold;
    assert Creating(w[d.comp], Peel(w[d.comp], KeyOf(d.entity).value));
  }

  /** What waits after a declaration that makes no instance. */
  lemma PendingMore(w: World, s: Snapshot, t: Snapshot, ds: seq<Decl>, d: Decl, k: Key)
    requires WorldOk(w) && Inv(w, s) && Tracks(w, s, ds) && DeclOk(w, d) && d.OfEntity? && Timely(w, ds, d)
    requires Known(ds, d) ==> Key(d.comp, KeyOf(d.entity).value) in s.cur.typeDefs
    requires Referenced(w, s, t, d.comp, d.entity, |w[d.comp]|)
    requires k in t.cur.instanceExports
    requires t.cur.instanceExports[k].0 >= |CurEnv(t).instances| + if d.entity.InstanceE? then 1 else 0
    ensures DeclsOk(w, ds + [d]) && WaitsFor(w, t.cur, k, OpenAfter(w, ds + [d]))
  {
    hide OuterKept;
    hide Offers;
    hide Unfold;
    hide Evaluates;
    hide OuterOk;
    hide ExportsOk;
    hide DefsOk;
    var now := ds + [d];
    assert now[..|ds|] == ds && now[|ds|] == d;
    if k !in s.cur.instanceExports {
      NewIsRegistered(w, s, t, d, k);
      assert OpenAfter(w, now) == MakerOf(w, d);
    } else {
      assert t.cur.instanceExports[k] == s.cur.instanceExports[k];
      assert Pending(s.cur, CurEnv(s), k);
      assert WaitsFor(w, s.cur, k, OpenAfter(w, ds));
      assert OpenAfter(w, now) == OpenAfter(w, ds);
    }
  }

  // ----- the translation means what the source means -----

  lemma ClearKept(w: World, a: Snapshot, b: Snapshot, c: nat, id: nat, c': nat)
    requires c < |w| && TypesOk(w[c]) && id < |w[c]| && Kept(a, b) && Announced(w, a, b, c', None) && Clear(w, a, c, id)
    ensures Clear(w, b, c, id)
  {
    hide Touches;
    forall level, k | 0 <= level < |b.scopes| && Pending(b.scopes[level], b.envs[level], k) && k.comp == c
      ensures !Touches(w[c], id, k.id)
    {
      assert Pending(a.scopes[level], a.envs[level], k);
    }
    forall k | Pending(b.cur, CurEnv(b), k) && k.comp == c
      ensures !Touches(w[c], id, k.id)
    {
      assert Pending(a.cur, CurEnv(a), k);
    }
  }

  lemma ValueUnregistered(w: World, s: Scope, c: nat, id: nat)
    requires WorldOk(w) && c < |w| && id < |w[c]| && !w[c][Peel(w[c], id)].Instance?
    ensures Unregistered(w, s, c, id) && Maker(w[c], id) == None
  {
  }

  lemma ValMeaningKept(a: seq<Meaning>, b: seq<Meaning>, v: TVal)
    requires a <= b && ValMeaning(a, v).Some?
    ensures ValMeaning(b, v) == ValMeaning(a, v)
  {
  }

  lemma CtorSteps(env: Env, shape: string, vs: seq<TVal>, ms: seq<Meaning>, outer: seq<seq<Meaning>>)
    requires |vs| == |ms| && forall i :: 0 <= i < |vs| ==> ValMeaning(env.types, vs[i]) == Some(ms[i])
    ensures Step(env, DefCtor(shape, vs), outer) == Some(env.(types := env.types + [MCtor(shape, ms)]))
  {
    hide Eval;
    hide ValMeaning;
    assert ValMeanings(env.types, vs).value == ms;
  }

  lemma TypesKept(a: Snapshot, b: Snapshot)
    requires Kept(a, b)
    ensures |a.envs| == |a.scopes| + 1 && |b.envs| == |b.scopes| + 1 && CurEnv(a).types <= CurEnv(b).types
  {
  }

  lemma CachedMeans(w: World, s: Snapshot, k: Key)
    requires Inv(w, s) && k in s.cur.typeDefs
    ensures InWorld(w, k) && s.cur.typeDefs[k] < |CurEnv(s).types|
    ensures CurEnv(s).types[s.cur.typeDefs[k]] == Meant(w, k)
  {
  }

  /** A type is translated once per scope, and means what the source type means. */
  lemma {:induction false} TyMeans(w: World, s: Snapshot, c: nat, id: nat) returns (t: Snapshot, index: nat)
    requires BodiesOk(w) && Inv(w, s) && InWorld(w, Key(c, id)) && Ready(w, s, c, id)
    ensures T.Ty(w, StateOf(s), c, id) == T.Done(StateOf(t), index)
    ensures Translated(w, s, t, c, id, index) && Added(w, s.cur, t.cur, c, id, {id})
    ensures Key(c, id) in t.cur.typeDefs && (Key(c, id) in s.cur.typeDefs ==> t == s)
    ensures Key(c, id) in s.cur.typeDefs || FoundOnChain(w, StateOf(s), c, id) || AllRegistered(w, t.cur, c, id)
    decreases id, 6
  {
    hide Inv;
    hide Kept;
    hide Unfold;
    hide Announced;
    hide BodiesOk;
    hide T.TyInner;
    InvShape(w, s);
    var k := Key(c, id);
    if k in s.cur.typeDefs {
      CachedMeans(w, s, k);
      KeptSelf(w, s, c, id, {id}, Maker(w[c], id));
      t, index := s, s.cur.typeDefs[k];
    } else {
      var mid: Snapshot;
      mid, index := TyInnerMeans(w, s, c, id);
      InvShape(w, mid);
      // The insertion asserts that nothing was cached for the type meanwhile.
      assert k !in mid.cur.typeDefs;
      CacheKeeps(w, mid, k, index);
      t := Cached(mid, k, index);
      KeptTransitive(s, mid, t);
      AnnouncedCached(w, s, mid, k, index, c, Maker(w[c], id));
    }
  }

  lemma AnnouncedCached(w: World, a: Snapshot, b: Snapshot, k: Key, index: nat, c: nat, maker: Option<nat>)
    requires |b.envs| == |b.scopes| + 1 && Announced(w, a, b, c, maker)
    ensures Announced(w, a, Cached(b, k, index), c, maker)
  {
  }

  lemma AnnouncedSame(w: World, a: Snapshot, b: Snapshot, d: Snapshot, c: nat, maker: Option<nat>)
    requires |b.envs| == |b.scopes| + 1 && |d.envs| == |d.scopes| + 1 && Announced(w, a, b, c, maker)
    requires d.cur.instanceExports == b.cur.instanceExports && |CurEnv(d).instances| == |CurEnv(b).instances|
    ensures Announced(w, a, d, c, maker)
  {
  }

  lemma {:induction false} TyInnerMeans(w: World, s: Snapshot, c: nat, id: nat) returns (t: Snapshot, index: nat)
    requires BodiesOk(w) && Inv(w, s) && InWorld(w, Key(c, id))
    requires Unregistered(w, s.cur, c, id) && Clear(w, s, c, id)
    ensures T.TyInner(w, StateOf(s), c, id) == T.Done(StateOf(t), index)
    ensures Translated(w, s, t, c, id, index) && Added(w, s.cur, t.cur, c, id - 1, {})
    ensures FoundOnChain(w, StateOf(s), c, id) || AllRegistered(w, t.cur, c, id)
    decreases id, 5
  {
    hide Inv;
    hide Kept;
    hide Unfold;
    hide Announced;
    hide BodiesOk;
    hide Clear;
    hide T.Find;
    hide T.Define;
    hide Peel;
    hide Touches;
    InvShape(w, s);
    if T.Find(StateOf(s), Key(c, id)).Some? {
      FindClear(w, s, c, id);
      t, index := FoundMeans(w, s, Key(c, id));
      InvShape(w, t);
      NothingNew(w, s, t, c, id);
    } else if w[c][id].Alias? {
      AliasFacts(w[c], id);
      AliasClear(w, s, c, id);
      t, index := TyInnerMeans(w, s, c, w[c][id].target);
    } else {
      t, index := DefineMeans(w, s, c, id);
    }
  }

  lemma NothingNew(w: World, s: Snapshot, t: Snapshot, c: nat, id: nat)
    requires InWorld(w, Key(c, id)) && t.cur == s.cur.(items := t.cur.items) && |t.envs| == |t.scopes| + 1
    ensures Added(w, s.cur, t.cur, c, id - 1, {}) && Announced(w, s, t, c, Maker(w[c], id))
  {
  }

  lemma {:induction false} ValTypesMeans(w: World, s: Snapshot, c: nat, args: seq<ValRef>, bound: nat)
    returns (t: Snapshot, vs: seq<TVal>)
    requires BodiesOk(w) && Inv(w, s) && c < |w| && (forall i :: 0 <= i < |args| ==> ValOk(w[c], args[i], bound))
    requires forall i :: 0 <= i < |args| && args[i].Ref? ==> args[i].id < |w[c]| && Clear(w, s, c, args[i].id)
    ensures T.ValTypes(w, StateOf(s), c, args, bound) == T.Done(StateOf(t), vs)
    ensures Inv(w, t) && Kept(s, t) && Added(w, s.cur, t.cur, c, bound - 1, {}) && |t.envs| == |t.scopes| + 1
    ensures Announced(w, s, t, c, None) && |vs| == |args|
    ensures forall i :: 0 <= i < |args| ==> ValMeaning(CurEnv(t).types, vs[i]) == Some(UnfoldVal(w[c], args[i], bound))
    decreases bound, 1, |args|
  {
    hide Inv;
    hide Kept;
    hide Added;
    hide UnfoldVal;
    hide ValMeaning;
    hide ValOk;
    hide Clear;
    hide Announced;
    hide BodiesOk;
    InvShape(w, s);
    if args == [] {
      KeptSelf(w, s, c, bound - 1, {}, None);
      t, vs := s, [];
    } else {
      var n := |args| - 1;
      var mid, v;
      mid, vs := ValTypesMeans(w, s, c, args[..n], bound);
      if args[n].Ref? {
        ValRefInRange(w, c, args[n], bound);
        ClearKept(w, s, mid, c, args[n].id, c);
      }
      t, v := ValTypeMeans(w, mid, c, args[n], bound);
      InvShape(w, t);
      KeptTransitive(s, mid, t);
      AddedTransitive(w, s.cur, mid.cur, t.cur, c, bound - 1, {});
      AnnouncedTransitive(w, s, mid, t, c, None);
      TypesKept(mid, t);
      forall i | 0 <= i < n
        ensures ValMeaning(CurEnv(t).types, vs[i]) == Some(UnfoldVal(w[c], args[i], bound))
      {
        assert args[..n][i] == args[i];
        ValMeaningKept(CurEnv(mid).types, CurEnv(t).types, vs[i]);
      }
      vs := vs + [v];
    }
  }

  lemma ValRefInRange(w: World, c: nat, v: ValRef, bound: nat)
    requires c < |w| && ValOk(w[c], v, bound) && v.Ref?
    ensures v.id < bound <= |w[c]| && !w[c][Peel(w[c], v.id)].Instance?
  {
  }

  lemma {:induction false} ValTypeMeans(w: World, s: Snapshot, c: nat, v: ValRef, bound: nat)
    returns (t: Snapshot, r: TVal)
    requires BodiesOk(w) && Inv(w, s) && c < |w| && ValOk(w[c], v, bound) && (v.Ref? ==> Clear(w, s, c, v.id))
    ensures T.ValType(w, StateOf(s), c, v, bound) == T.Done(StateOf(t), r)
    ensures Inv(w, t) && Kept(s, t) && Added(w, s.cur, t.cur, c, bound - 1, {}) && |t.envs| == |t.scopes| + 1
    ensures Announced(w, s, t, c, None)
    ensures ValMeaning(CurEnv(t).types, r) == Some(UnfoldVal(w[c], v, bound))
    decreases bound, 0
  {
    hide Inv;
    hide Kept;
    hide Announced;
    hide Unfold;
    hide BodiesOk;
    hide Clear;
    InvShape(w, s);
    if v.Prim? {
      KeptSelf(w, s, c, bound - 1, {}, None);
      t, r := s, TPrim(v.prim);
    } else {
      var id, index := v.id, 0;
      ValueUnregistered(w, s.cur, c, id);
      t, index := TyMeans(w, s, c, id);
      InvShape(w, t);
      r := TIdx(index);
    }
  }

  /** What an import or export of the entity means. */
  ghost function Meaningful(ts: Types, name: string, e: Entity, bound: nat): MNamed
    requires TypesOk(ts) && EntityOk(ts, e, bound)
  {
    var (kind, m) := UnfoldEntity(ts, e, bound);
    MNamed(name, kind, m)
  }

  lemma EntityKind(ts: Types, e: Entity, bound: nat)
    requires TypesOk(ts) && EntityOk(ts, e, bound)
    ensures UnfoldEntity(ts, e, bound).0 == KInstance <==> e.InstanceE?
    ensures UnfoldEntity(ts, e, bound).0 == KType <==> e.TypeE?
    ensures e.InstanceE? ==> UnfoldEntity(ts, e, bound).1 == Unfold(ts, e.id)
  {
    hide Unfold;
    hide UnfoldVal;
  }

  /** The kind of a meaning is that of the definition at the end of the chain. */
  lemma MeaningKind(ts: Types, id: nat)
    requires TypesOk(ts) && id < |ts|
    ensures ts[Peel(ts, id)].Instance? ==> Unfold(ts, id).MInstance?
    ensures ts[Peel(ts, id)].Component? ==> Unfold(ts, id).MComponent?
  {
    UnfoldPeeled(ts, id);
    assert DefOk(ts, Peel(ts, id));
  }

  lemma {:induction false} EntityRefMeans(w: World, s: Snapshot, c: nat, e: Entity, bound: nat)
    returns (t: Snapshot, r: TRef)
    requires BodiesOk(w) && Inv(w, s) && c < |w| && TypesOk(w[c]) && EntityOk(w[c], e, bound)
    requires KeyOf(e).Some? ==> Ready(w, s, c, KeyOf(e).value)
    ensures T.EntityRef(w, StateOf(s), c, e, bound) == T.Done(StateOf(t), r)
    ensures Referenced(w, s, t, c, e, bound) && |t.envs| == |t.scopes| + 1
    ensures WorldOk(w) && Complete(w, s, t, c, e, bound)
    ensures RefMeaning(CurEnv(t).types, r) == Some(UnfoldEntity(w[c], e, bound))
    decreases bound, 1
  {
    hide Inv;
    hide Kept;
    hide Announced;
    hide Unfold;
    hide BodiesOk;
    hide Ready;
    hide Peel;
    hide Maker;
    hide T.Ty;
    InvShape(w, s);
    if KeyOf(e).None? {
      KeptSelf(w, s, c, Touched(e), {}, None);
      t, r := s, T.RefOf(e, 0);
    } else {
      var id, index := KeyOf(e).value, 0;
      MeaningKind(w[c], id);
      t, index := TyMeans(w, s, c, id);
      InvShape(w, t);
      r := T.RefOf(e, index);
    }
  }

  /** The snapshot after an import or export of an entity that was translated. */
  ghost function DeclaredNow(s: Snapshot, importing: bool, name: string, r: TRef): Snapshot
    requires |s.envs| == |s.scopes| + 1 && RefMeaning(CurEnv(s).types, r).Some?
  {
    var (kind, m) := RefMeaning(CurEnv(s).types, r).value;
    Emitted(s, Declaration(importing, name, r), Declared(CurEnv(s), importing, name, kind, m))
  }

  /** What a declaration changes in the snapshot. */
  lemma DeclaredParts(s: Snapshot, importing: bool, name: string, r: TRef)
    requires |s.envs| == |s.scopes| + 1 && RefMeaning(CurEnv(s).types, r).Some?
    ensures var t := DeclaredNow(s, importing, name, r);
            var (kind, m) := RefMeaning(CurEnv(s).types, r).value;
            && StateOf(t) == T.Emit(StateOf(s), Declaration(importing, name, r))
            && |t.envs| == |t.scopes| + 1 && OuterKept(s, t)
            && t.cur == s.cur.(items := t.cur.items)
            && |CurEnv(t).instances| == |CurEnv(s).instances| + (if kind == KInstance then 1 else 0)
            && (kind == KType ==> CurEnv(t).types == CurEnv(s).types + [m])
            && (importing ==> CurEnv(t).imports == CurEnv(s).imports + [MNamed(name, kind, m)])
            && (importing ==> CurEnv(t).exports == CurEnv(s).exports)
            && (!importing ==> CurEnv(t).exports == CurEnv(s).exports + [MNamed(name, kind, m)])
            && (!importing ==> CurEnv(t).imports == CurEnv(s).imports)
  {
    hide RefMeaning;
  }

  /** Declaring an entity changes the maps of the scope only so far. */
  ghost predicate Advanced(w: World, a: Snapshot, b: Snapshot, c: nat, e: Entity) {
    && |a.envs| == |a.scopes| + 1 && |b.envs| == |b.scopes| + 1
    && b.cur.kind == a.cur.kind
    && (forall k :: k in a.cur.typeDefs ==> k in b.cur.typeDefs)
    && (forall k :: k in a.cur.instanceExports ==> k in b.cur.instanceExports)
    && Added(w, a.cur, b.cur, c, Top(e), KeySet(e) + if e.TypeE? then {e.created} else {})
  }

  lemma AfterReference(w: World, a: Snapshot, b: Snapshot, c: nat, e: Entity, bound: nat)
    requires c < |w| && EntityOk(w[c], e, bound) && Referenced(w, a, b, c, e, bound)
    ensures Inv(w, b) && OuterKept(a, b) && Advanced(w, a, b, c, e)
    ensures b.cur.typeExports == a.cur.typeExports && EnvGrew(CurEnv(a), CurEnv(b))
    ensures e.TypeE? && Key(c, e.created) !in a.cur.typeDefs ==> Key(c, e.created) !in b.cur.typeDefs
  {
    hide Inv;
    AddedWeaker(w, a.cur, b.cur, c, Touched(e), KeySet(e), Top(e), KeySet(e) + if e.TypeE? then {e.created} else {});
  }

  /** An entity is imported under a name. */
  lemma {:induction false} ImportIntoMeans(w: World, s: Snapshot, ds: seq<Decl>, c: nat, name: string, e: Entity,
      bound: nat)
    returns (u: Snapshot)
    requires BodiesOk(w) && Inv(w, s) && c < |w| && TypesOk(w[c]) && EntityOk(w[c], e, bound) && Tracks(w, s, ds)
    requires DeclOk(w, OfEntity(c, e, false))
    requires Timely(w, ds, OfEntity(c, e, false)) && NoRepeat(w, ds, OfEntity(c, e, false))
    requires KeyOf(e).Some? ==> OuterClear(w, s, c, KeyOf(e).value)
    ensures T.ImportInto(w, StateOf(s), c, name, e, bound) == T.Done(StateOf(u), ())
    ensures Inv(w, u) && OuterKept(s, u) && Advanced(w, s, u, c, e) && Tracks(w, u, ds + [OfEntity(c, e, false)])
    ensures Added(w, s.cur, u.cur, c, Touched(e), KeySet(e)) && WorldOk(w) && Complete(w, s, u, c, e, bound)
    ensures u.cur.typeExports == s.cur.typeExports && CurEnv(u).exports == CurEnv(s).exports
    ensures CurEnv(u).imports == CurEnv(s).imports + [Meaningful(w[c], name, e, bound)]
    decreases bound, 2
  {
    hide Inv;
    hide Unfold;
    hide UnfoldEntity;
    hide RefMeaning;
    hide Referenced;
    hide BodiesOk;
    hide Tracks;
    hide Timely;
    hide NoRepeat;
    hide Known;
    hide OuterClear;
    hide Ready;
    hide T.EntityRef;
    hide DeclaredNow;
    hide OuterKept;
    hide Added;
    hide EntityOk;
    InvShape(w, s);
    var d := OfEntity(c, e, false);
    KeyInRange(w[c], e, bound);
    if KeyOf(e).Some? {
      ReadyFor(w, s, ds, d);
    }
    var t, r := EntityRefMeans(w, s, c, e, bound);
    EntityKind(w[c], e, bound);
    AfterReference(w, s, t, c, e, bound);
    ReferencedBound(w, s, t, c, e, bound);
    if e.InstanceE? {
      AwaitedFor(w, s, t, ds, d);
    }
    DeclareKeeps(w, t, true, name, r);
    u := DeclaredNow(t, true, name, r);
    DeclaredIs(t, true, name, r);
    DeclaredParts(t, true, name, r);
    KnownIsCached(w, s, ds, d);
    TracksMore(w, s, t, u, ds, d);
    AdvancedSame(w, s, t, u, c, e);
    SameMaps(w, s, t, u, c, e, bound);
  }

  lemma SameMaps(w: World, s: Snapshot, t: Snapshot, u: Snapshot, c: nat, e: Entity, bound: nat)
    requires WorldOk(w) && c < |w| && EntityOk(w[c], e, bound) && u.cur == t.cur.(items := u.cur.items)
    requires Referenced(w, s, t, c, e, bound) && Complete(w, s, t, c, e, bound)
    ensures Added(w, s.cur, u.cur, c, Touched(e), KeySet(e)) && Complete(w, s, u, c, e, bound)
  {
    hide Inv;
    hide Kept;
    hide Announced;
    hide FoundOnChain;
  }

  lemma DeclaredIs(s: Snapshot, importing: bool, name: string, r: TRef)
    requires |s.envs| == |s.scopes| + 1 && RefMeaning(CurEnv(s).types, r).Some?
    ensures var (kind, m) := RefMeaning(CurEnv(s).types, r).value;
            DeclaredNow(s, importing, name, r)
            == Emitted(s, Declaration(importing, name, r), Declared(CurEnv(s), importing, name, kind, m))
  {
  }

  lemma ReferencedBound(w: World, a: Snapshot, b: Snapshot, c: nat, e: Entity, bound: nat)
    requires c < |w| && EntityOk(w[c], e, bound) && Referenced(w, a, b, c, e, bound)
    ensures EntityOk(w[c], e, |w[c]|) && Referenced(w, a, b, c, e, |w[c]|)
  {
    hide Inv;
    hide Kept;
    hide Announced;
    EntityOkLater(w[c], e, bound);
    assert MakerFor(w[c], e, bound) == MakerFor(w[c], e, |w[c]|);
  }

  lemma KnownIsCached(w: World, s: Snapshot, ds: seq<Decl>, d: Decl)
    requires Tracks(w, s, ds)
    ensures Known(ds, d) ==> Key(d.comp, KeyOf(d.entity).value) in s.cur.typeDefs
  {
  }

  lemma AdvancedSame(w: World, a: Snapshot, b: Snapshot, d: Snapshot, c: nat, e: Entity)
    requires OuterKept(a, b) && OuterKept(b, d) && Advanced(w, a, b, c, e)
    requires d.cur == b.cur.(items := d.cur.items)
    ensures OuterKept(a, d) && Advanced(w, a, d, c, e)
  {
  }

  lemma CreatedMeaning(ts: Types, e: Entity, bound: nat)
    requires TypesOk(ts) && EntityOk(ts, e, bound) && e.TypeE?
    ensures UnfoldEntity(ts, e, bound) == (KType, Unfold(ts, e.created))
  {
    AliasFacts(ts, e.created);
  }

  /** The snapshot after a type was exported: it is cached and exported under the new key. */
  ghost function Registering(s: Snapshot, k: Key, name: string, value: nat): Snapshot {
    ExportingNow(Cached(s, k, value), k, name)
  }

  lemma RegisterKeeps(w: World, s: Snapshot, k: Key, name: string, value: nat)
    requires Inv(w, s) && IsAlias(w, k) && k !in s.cur.typeDefs && k !in s.cur.typeExports
    requires value < |CurEnv(s).types| && CurEnv(s).types[value] == Meant(w, k)
    requires TypeExport(CurEnv(s).exports, name) == Some(Meant(w, k))
    ensures Inv(w, Registering(s, k, name, value))
    ensures T.RegisterExport(StateOf(s), k, name, value) == T.Done(StateOf(Registering(s, k, name, value)), ())
  {
    hide Inv;
    hide Meant;
    hide TypeExport;
    InvShape(w, s);
    CacheKeeps(w, s, k, value);
    ExportingKeeps(w, Cached(s, k, value), k, name);
  }

  lemma AdvancedRegistering(w: World, a: Snapshot, b: Snapshot, c: nat, e: Entity, name: string, value: nat)
    requires OuterKept(a, b) && Advanced(w, a, b, c, e) && e.TypeE?
    ensures var t := Registering(b, Key(c, e.created), name, value);
            OuterKept(a, t) && Advanced(w, a, t, c, e)
  {
  }

  /** The name is new, and so is a type that the export creates. */
  ghost predicate NewExport(s: Scope, c: nat, name: string, e: Entity) {
    && (forall k :: k in s.typeExports ==> s.typeExports[k] != name)
    && (e.TypeE? ==> Key(c, e.created) !in s.typeDefs && Key(c, e.created) !in s.typeExports)
  }

  /** An entity is exported under a name; a type so exported is from now on found there. */
  lemma {:induction false} ExportIntoMeans(w: World, s: Snapshot, ds: seq<Decl>, c: nat, name: string, e: Entity,
      bound: nat)
    returns (u: Snapshot)
    requires BodiesOk(w) && Inv(w, s) && c < |w| && TypesOk(w[c]) && EntityOk(w[c], e, bound) && Tracks(w, s, ds)
    requires DeclOk(w, OfEntity(c, e, true)) && NewExport(s.cur, c, name, e)
    requires Timely(w, ds, OfEntity(c, e, true)) && NoRepeat(w, ds, OfEntity(c, e, true))
    requires KeyOf(e).Some? ==> OuterClear(w, s, c, KeyOf(e).value)
    ensures T.ExportInto(w, StateOf(s), c, name, e, bound) == T.Done(StateOf(u), ())
    ensures Inv(w, u) && OuterKept(s, u) && Advanced(w, s, u, c, e) && Tracks(w, u, ds + [OfEntity(c, e, true)])
    ensures u.cur.typeExports == if e.TypeE? then s.cur.typeExports[Key(c, e.created) := name] else s.cur.typeExports
    ensures CurEnv(u).imports == CurEnv(s).imports
    ensures CurEnv(u).exports == CurEnv(s).exports + [Meaningful(w[c], name, e, bound)]
    decreases bound, 2
  {
    hide Inv;
    hide Unfold;
    hide UnfoldEntity;
    hide RefMeaning;
    hide Referenced;
    hide BodiesOk;
    hide Tracks;
    hide Timely;
    hide NoRepeat;
    hide Known;
    hide OuterClear;
    hide Ready;
    hide T.EntityRef;
    hide T.RegisterExport;
    hide DeclaredNow;
    hide OuterKept;
    hide Added;
    hide EntityOk;
    hide Advanced;
    hide TypeExport;
    InvShape(w, s);
    var d := OfEntity(c, e, true);
    KeyInRange(w[c], e, bound);
    if KeyOf(e).Some? {
      ReadyFor(w, s, ds, d);
    }
    var t, r := EntityRefMeans(w, s, c, e, bound);
    EntityKind(w[c], e, bound);
    AfterReference(w, s, t, c, e, bound);
    ReferencedBound(w, s, t, c, e, bound);
    CurCounts(w, t);
    if e.InstanceE? {
      AwaitedFor(w, s, t, ds, d);
    }
    DeclareKeeps(w, t, false, name, r);
    var v := DeclaredNow(t, false, name, r);
    DeclaredIs(t, false, name, r);
    DeclaredParts(t, false, name, r);
    KnownIsCached(w, s, ds, d);
    AdvancedSame(w, s, t, v, c, e);
    if e.TypeE? {
      var k, value := Key(c, e.created), TypeCount(t.cur.items);
      CreatedMeaning(w[c], e, bound);
      CreatedIsAlias(w, c, e, bound);
      OtherExport(CurEnv(t).exports, Meaningful(w[c], name, e, bound), name);
      RegisterKeeps(w, v, k, name, value);
      u := Registering(v, k, name, value);
      AdvancedRegistering(w, s, v, c, e, name, value);
    } else {
      u := v;
    }
    TracksMore(w, s, t, u, ds, d);
  }

  lemma CreatedIsAlias(w: World, c: nat, e: Entity, bound: nat)
    requires WorldOk(w) && c < |w| && EntityOk(w[c], e, bound) && e.TypeE?
    ensures IsAlias(w, Key(c, e.created)) && Meant(w, Key(c, e.created)) == Unfold(w[c], e.created)
  {
  }

  // ----- whole bodies -----

  /** Everything cached is of component `c` and no later than something in the list. */
  ghost predicate UpTo(typeDefs: map<Key, nat>, c: nat, ns: seq<Named>) {
    forall k :: k in typeDefs ==> k.comp == c && exists i :: 0 <= i < |ns| && k.id <= Top(ns[i].entity)
  }

  lemma UpToMore(w: World, a: Snapshot, b: Snapshot, c: nat, ns: seq<Named>, last: Named)
    requires UpTo(a.cur.typeDefs, c, ns) && Advanced(w, a, b, c, last.entity)
    ensures UpTo(b.cur.typeDefs, c, ns + [last])
  {
    var now := ns + [last];
    forall k | k in b.cur.typeDefs
      ensures k.comp == c && exists i :: 0 <= i < |now| && k.id <= Top(now[i].entity)
    {
      if k in a.cur.typeDefs {
        var i :| 0 <= i < |ns| && k.id <= Top(ns[i].entity);
        assert k.id <= Top(now[i].entity);
      } else {
        assert k.id <= Top(now[|ns|].entity);
      }
    }
  }

  /** Exported are exactly the types created by the list, under their names. */
  ghost predicate ExportedFrom(typeExports: map<Key, string>, c: nat, ns: seq<Named>) {
    && (forall k :: k in typeExports ==>
          k.comp == c && exists i :: 0 <= i < |ns| && CreatedAs(ns[i], k.id, typeExports[k]))
    && (forall i :: 0 <= i < |ns| && ns[i].entity.TypeE? ==> Key(c, ns[i].entity.created) in typeExports)
  }

  predicate CreatedAs(n: Named, id: nat, name: string) {
    n.entity.TypeE? && n.entity.created == id && n.name == name
  }

  lemma ExportedMore(a: map<Key, string>, b: map<Key, string>, c: nat, ns: seq<Named>, last: Named)
    requires ExportedFrom(a, c, ns)
    requires b == if last.entity.TypeE? then a[Key(c, last.entity.created) := last.name] else a
    ensures ExportedFrom(b, c, ns + [last])
  {
    var now := ns + [last];
    forall k | k in b
      ensures k.comp == c && exists i :: 0 <= i < |now| && CreatedAs(now[i], k.id, b[k])
    {
      if last.entity.TypeE? && k == Key(c, last.entity.created) {
        assert CreatedAs(now[|ns|], k.id, b[k]);
      } else {
        var i :| 0 <= i < |ns| && CreatedAs(ns[i], k.id, a[k]);
        assert CreatedAs(now[i], k.id, b[k]);
      }
    }
  }

  lemma CreatedIsNew(s: Scope, c: nat, before: seq<Named>, ns: seq<Named>)
    requires ns != [] && Created(before, ns) && (forall i, j :: 0 <= i < j < |ns| ==> ns[i].name != ns[j].name)
    requires var init := ns[..|ns| - 1]; UpTo(s.typeDefs, c, before + init) && ExportedFrom(s.typeExports, c, init)
    ensures NewExport(s, c, ns[|ns| - 1].name, ns[|ns| - 1].entity)
  {
    var n := |ns| - 1;
    var init, last := ns[..n], ns[n];
    forall k | k in s.typeExports
      ensures s.typeExports[k] != last.name && (last.entity.TypeE? ==> k.id < last.entity.created)
    {
      var i :| 0 <= i < |init| && CreatedAs(init[i], k.id, s.typeExports[k]);
      assert init[i] == ns[i] && Top(ns[i].entity) == k.id;
    }
    forall k | k in s.typeDefs && last.entity.TypeE?
      ensures k.id < last.entity.created
    {
      var i :| 0 <= i < |before + init| && k.id <= Top((before + init)[i].entity);
      assert (before + init)[i] == if i < |before| then before[i] else ns[i - |before|];
    }
  }

  /** Nothing that waits in a scope around the body is part of what the body declares. */
  ghost predicate ListClear(w: World, s: Snapshot, c: nat, ns: seq<Named>)
    requires c < |w| && TypesOk(w[c])
  {
    forall i :: 0 <= i < |ns| && KeyOf(ns[i].entity).Some? ==>
      KeyOf(ns[i].entity).value < |w[c]| && OuterClear(w, s, c, KeyOf(ns[i].entity).value)
  }

  lemma OuterClearKept(w: World, a: Snapshot, b: Snapshot, c: nat, id: nat)
    requires c < |w| && TypesOk(w[c]) && id < |w[c]| && OuterKept(a, b) && OuterClear(w, a, c, id)
    ensures OuterClear(w, b, c, id)
  {
    hide Touches;
    forall level, k | 0 <= level < |b.scopes| && Pending(b.scopes[level], b.envs[level], k) && k.comp == c
      ensures !Touches(w[c], id, k.id)
    {
      assert Pending(a.scopes[level], a.envs[level], k);
    }
  }

  lemma OrderPrefix(w: World, ds: seq<Decl>, n: nat)
    requires n <= |ds| && Orderly(w, ds) && NoRepeats(w, ds)
    ensures Orderly(w, ds[..n]) && NoRepeats(w, ds[..n])
  {
    hide Timely;
    hide NoRepeat;
    forall j | 0 <= j < n
      ensures Timely(w, ds[..n][..j], ds[..n][j]) && NoRepeat(w, ds[..n][..j], ds[..n][j])
    {
      assert ds[..n][..j] == ds[..j];
    }
  }

  lemma OrderLast(w: World, ds: seq<Decl>)
    requires ds != [] && Orderly(w, ds) && NoRepeats(w, ds)
    ensures var n := |ds| - 1;
            && Orderly(w, ds[..n]) && NoRepeats(w, ds[..n]) && DeclOk(w, ds[n])
            && Timely(w, ds[..n], ds[n]) && NoRepeat(w, ds[..n], ds[n])
  {
    OrderPrefix(w, ds, |ds| - 1);
  }

  lemma NothingTracked(w: World, s: Snapshot)
    requires |s.envs| == |s.scopes| + 1 && s.cur.instanceExports == map[]
    ensures Tracks(w, s, [])
  {
  }

  lemma OuterKeptSelf(s: Snapshot)
    requires |s.envs| == |s.scopes| + 1
    ensures OuterKept(s, s)
  {
  }

  /** All imports of a component body, in order. */
  lemma {:induction false} ImportAllMeans(w: World, s: Snapshot, c: nat, imports: seq<Named>, bound: nat)
    returns (t: Snapshot)
    requires BodiesOk(w) && Inv(w, s) && c < |w| && TypesOk(w[c]) && NamedOk(w[c], imports, bound)
    requires s.cur == NewScope(s.cur.kind) && CurEnv(s) == EmptyEnv && ListClear(w, s, c, imports)
    requires Orderly(w, DeclsOf(c, imports, false)) && NoRepeats(w, DeclsOf(c, imports, false))
    ensures T.ImportAll(w, StateOf(s), c, imports, bound) == T.Done(StateOf(t), ())
    ensures Inv(w, t) && OuterKept(s, t) && Tracks(w, t, DeclsOf(c, imports, false)) && t.cur.kind == s.cur.kind
    ensures UpTo(t.cur.typeDefs, c, imports) && t.cur.typeExports == map[]
    ensures CurEnv(t).imports == UnfoldNamed(w[c], imports, bound) && CurEnv(t).exports == []
    decreases bound, 3, |imports|
  {
    hide Inv;
    hide EntityOk;
    hide UnfoldEntity;
    hide Tracks;
    hide UpTo;
    hide OuterKept;
    hide Orderly;
    hide NoRepeats;
    hide BodiesOk;
    hide OuterClear;
    hide ListClear;
    hide NamedOk;
    hide DeclsOf;
    hide T.ImportInto;
    InvShape(w, s);
    if imports == [] {
      assert DeclsOf(c, imports, false) == [];
      NothingTracked(w, s);
      OuterKeptSelf(s);
      NothingCached(c, imports);
      t := s;
    } else {
      var n := |imports| - 1;
      var ds, init := DeclsOf(c, imports, false), DeclsOf(c, imports[..n], false);
      DeclsPrefix(c, [], imports, false);
      assert DeclsOf(c, [], false) == [];
      assert [] + ds == ds && [] + init == init;
      OrderLast(w, ds);
      NamedPrefix(w[c], imports, bound);
      ListPrefix(w, s, c, imports);
      var mid := ImportAllMeans(w, s, c, imports[..n], bound);
      if KeyOf(imports[n].entity).Some? {
        OuterClearKept(w, s, mid, c, KeyOf(imports[n].entity).value);
      }
      t := ImportIntoMeans(w, mid, init, c, imports[n].name, imports[n].entity, bound);
      InvShape(w, t);
      OuterKeptTransitive(s, mid, t);
      UpToMore(w, mid, t, c, imports[..n], imports[n]);
      UnfoldMore(w[c], imports, bound);
    }
  }

  lemma NothingCached(c: nat, ns: seq<Named>)
    ensures UpTo(map[], c, ns) && ExportedFrom(map[], c, [])
  {
  }

  lemma UnfoldMore(ts: Types, ns: seq<Named>, bound: nat)
    requires TypesOk(ts) && NamedOk(ts, ns, bound) && ns != []
    ensures var n := |ns| - 1;
            && EntityOk(ts, ns[n].entity, bound) && NamedOk(ts, ns[..n], bound)
            && UnfoldNamed(ts, ns, bound)
               == UnfoldNamed(ts, ns[..n], bound) + [Meaningful(ts, ns[n].name, ns[n].entity, bound)]
  {
    hide EntityOk;
    hide UnfoldEntity;
    var n := |ns| - 1;
    NamedPrefix(ts, ns, bound);
    var all, init := UnfoldNamed(ts, ns, bound), UnfoldNamed(ts, ns[..n], bound);
    forall i | 0 <= i < n
      ensures all[i] == init[i]
    {
      assert ns[..n][i] == ns[i];
    }
    assert all == init + [all[n]];
  }

  lemma NamedPrefix(ts: Types, ns: seq<Named>, bound: nat)
    requires NamedOk(ts, ns, bound) && ns != []
    ensures NamedOk(ts, ns[..|ns| - 1], bound) && EntityOk(ts, ns[|ns| - 1].entity, bound)
    ensures forall i, j :: 0 <= i < j < |ns| ==> ns[i].name != ns[j].name
  {
    hide EntityOk;
    var init := ns[..|ns| - 1];
    assert forall i :: 0 <= i < |init| ==> init[i] == ns[i];
  }

  /** The list without its last entry. */
  lemma ListPrefix(w: World, s: Snapshot, c: nat, ns: seq<Named>)
    requires c < |w| && TypesOk(w[c]) && ns != [] && ListClear(w, s, c, ns)
    ensures ListClear(w, s, c, ns[..|ns| - 1])
    ensures var e := ns[|ns| - 1].entity;
            KeyOf(e).Some? ==> KeyOf(e).value < |w[c]| && OuterClear(w, s, c, KeyOf(e).value)
  {
    hide OuterClear;
    var init := ns[..|ns| - 1];
    assert forall i :: 0 <= i < |init| ==> init[i] == ns[i];
  }

  lemma DeclsPrefix(c: nat, before: seq<Named>, ns: seq<Named>, exported: bool)
    requires ns != []
    ensures var n := |ns| - 1;
            var ds := DeclsOf(c, before, false) + DeclsOf(c, ns, exported);
            && ds[..|ds| - 1] == DeclsOf(c, before, false) + DeclsOf(c, ns[..n], exported)
            && ds[|ds| - 1] == OfEntity(c, ns[n].entity, exported)
            && ds == (DeclsOf(c, before, false) + DeclsOf(c, ns[..n], exported)) + [OfEntity(c, ns[n].entity, exported)]
            && ns == ns[..n] + [ns[n]] && before + ns == before + ns[..n] + [ns[n]]
  {
  }

  /** All exports of a body, in order; `before` was imported into it. */
  lemma {:induction false} ExportAllMeans(w: World, s: Snapshot, c: nat, before: seq<Named>, exports: seq<Named>,
      bound: nat)
    returns (t: Snapshot)
    requires BodiesOk(w) && Inv(w, s) && c < |w| && TypesOk(w[c]) && NamedOk(w[c], exports, bound)
    requires Created(before, exports) && ListClear(w, s, c, exports)
    requires Tracks(w, s, DeclsOf(c, before, false)) && UpTo(s.cur.typeDefs, c, before)
    requires s.cur.typeExports == map[] && CurEnv(s).exports == []
    requires Orderly(w, DeclsOf(c, before, false) + DeclsOf(c, exports, true))
    requires NoRepeats(w, DeclsOf(c, before, false) + DeclsOf(c, exports, true))
    ensures T.ExportAll(w, StateOf(s), c, exports, bound) == T.Done(StateOf(t), ())
    ensures Inv(w, t) && OuterKept(s, t) && t.cur.kind == s.cur.kind
    ensures Tracks(w, t, DeclsOf(c, before, false) + DeclsOf(c, exports, true))
    ensures UpTo(t.cur.typeDefs, c, before + exports) && ExportedFrom(t.cur.typeExports, c, exports)
    ensures CurEnv(t).imports == CurEnv(s).imports && CurEnv(t).exports == UnfoldNamed(w[c], exports, bound)
    decreases bound, 3, |exports|
  {
    hide Inv;
    hide EntityOk;
    hide UnfoldEntity;
    hide Tracks;
    hide UpTo;
    hide OuterKept;
    hide Orderly;
    hide NoRepeats;
    hide BodiesOk;
    hide OuterClear;
    hide ExportedFrom;
    hide NewExport;
    hide ListClear;
    hide NamedOk;
    hide Created;
    hide DeclsOf;
    hide T.ExportInto;
    InvShape(w, s);
    var was, now := DeclsOf(c, before, false), DeclsOf(c, exports, true);
    if exports == [] {
      assert was + now == was && before + exports == before;
      OuterKeptSelf(s);
      NothingCached(c, exports);
      t := s;
    } else {
      var n := |exports| - 1;
      var init := was + DeclsOf(c, exports[..n], true);
      DeclsPrefix(c, before, exports, true);
      OrderLast(w, was + now);
      NamedPrefix(w[c], exports, bound);
      ListPrefix(w, s, c, exports);
      CreatedPrefix(before, exports);
      var mid := ExportAllMeans(w, s, c, before, exports[..n], bound);
      if KeyOf(exports[n].entity).Some? {
        OuterClearKept(w, s, mid, c, KeyOf(exports[n].entity).value);
      }
      CreatedIsNew(mid.cur, c, before, exports);
      t := ExportIntoMeans(w, mid, init, c, exports[n].name, exports[n].entity, bound);
      InvShape(w, t);
      OuterKeptTransitive(s, mid, t);
      UpToMore(w, mid, t, c, before + exports[..n], exports[n]);
      ExportedMore(mid.cur.typeExports, t.cur.typeExports, c, exports[..n], exports[n]);
      UnfoldMore(w[c], exports, bound);
    }
  }

  lemma CreatedPrefix(before: seq<Named>, ns: seq<Named>)
    requires ns != [] && Created(before, ns)
    ensures Created(before, ns[..|ns| - 1])
  {
  }

  // ----- defining a type -----

  function BodyKindOf(def: Def): BodyKind {
    if def.Instance? then InstanceBody else ComponentBody
  }

  function ImportsOf(def: Def): seq<Named> {
    if def.Component? then def.imports else []
  }

  function ExportsOf(def: Def): seq<Named>
    requires def.Instance? || def.Component?
  {
    def.exports
  }

  lemma BodyFacts(w: World, c: nat, id: nat)
    requires BodiesOk(w) && c < |w| && id < |w[c]| && (w[c][id].Instance? || w[c][id].Component?)
    ensures var def := w[c][id];
            && WorldOk(w) && NamedOk(w[c], ImportsOf(def), id) && NamedOk(w[c], ExportsOf(def), id)
            && Created(ImportsOf(def), ExportsOf(def))
            && BodyDecls(c, def) == DeclsOf(c, ImportsOf(def), false) + DeclsOf(c, ExportsOf(def), true)
            && Orderly(w, BodyDecls(c, def)) && NoRepeats(w, BodyDecls(c, def))
            && (forall x: nat :: TouchesNamed(w[c], ImportsOf(def), id, x) ==> Touches(w[c], id, x))
            && (forall x: nat :: TouchesNamed(w[c], ExportsOf(def), id, x) ==> Touches(w[c], id, x))
  {
    hide Orderly;
    hide NoRepeats;
    hide Created;
    hide TouchesNamed;
    hide Touches;
    var def := w[c][id];
    if def.Instance? {
      InstanceFacts(w[c], id);
      NoImports(w[c], id);
      assert DeclsOf(c, [], false) + DeclsOf(c, def.exports, true) == DeclsOf(c, def.exports, true);
    } else {
      ComponentFacts(w[c], id);
    }
  }

  lemma NoImports(ts: Types, id: nat)
    requires TypesOk(ts) && id < |ts|
    ensures NamedOk(ts, [], id) && forall x: nat :: !TouchesNamed(ts, [], id, x)
  {
  }

  lemma ClearInside(w: World, s: Snapshot, kind: BodyKind, c: nat, id: nat, ns: seq<Named>)
    requires WorldOk(w) && c < |w| && id < |w[c]| && Clear(w, s, c, id) && NamedOk(w[c], ns, id)
    requires forall x: nat :: TouchesNamed(w[c], ns, id, x) ==> Touches(w[c], id, x)
    ensures ListClear(w, Pushed(s, kind), c, ns)
  {
    hide Touches;
    var p := Pushed(s, kind);
    forall i | 0 <= i < |ns| && KeyOf(ns[i].entity).Some?
      ensures KeyOf(ns[i].entity).value < |w[c]| && OuterClear(w, p, c, KeyOf(ns[i].entity).value)
    {
      KeyInRange(w[c], ns[i].entity, id);
      forall level, k | 0 <= level < |p.scopes| && Pending(p.scopes[level], p.envs[level], k) && k.comp == c
        ensures !Touches(w[c], KeyOf(ns[i].entity).value, k.id)
      {
        assert Pending(if level == |s.scopes| then s.cur else s.scopes[level], s.envs[level], k);
        assert TouchesEntity(w[c], ns[i].entity, id, k.id) ==> TouchesNamed(w[c], ns, id, k.id);
      }
    }
  }

  lemma ListClearKept(w: World, a: Snapshot, b: Snapshot, c: nat, ns: seq<Named>)
    requires c < |w| && TypesOk(w[c]) && OuterKept(a, b) && ListClear(w, a, c, ns)
    ensures ListClear(w, b, c, ns)
  {
    hide OuterClear;
    hide OuterKept;
    forall i | 0 <= i < |ns| && KeyOf(ns[i].entity).Some?
      ensures OuterClear(w, b, c, KeyOf(ns[i].entity).value)
    {
      OuterClearKept(w, a, b, c, KeyOf(ns[i].entity).value);
    }
  }

  /** A body is filled in a scope of its own; only leaving it may fail. */
  lemma {:induction false} BodyFilled(w: World, s: Snapshot, c: nat, id: nat) returns (t: Snapshot)
    requires BodiesOk(w) && Inv(w, s) && InWorld(w, Key(c, id)) && Clear(w, s, c, id)
    requires w[c][id].Instance? || w[c][id].Component?
    ensures var def := w[c][id];
            && NamedOk(w[c], ImportsOf(def), id) && NamedOk(w[c], ExportsOf(def), id)
            && T.Body(w, StateOf(s), c, BodyKindOf(def), ImportsOf(def), ExportsOf(def), id) == T.Pop(StateOf(t))
            && Inv(w, t) && |s.envs| == |s.scopes| + 1 && OuterKept(Pushed(s, BodyKindOf(def)), t)
            && t.cur.kind == BodyKindOf(def) && ExportedFrom(t.cur.typeExports, c, ExportsOf(def))
            && |t.envs| == |t.scopes| + 1
            && CurEnv(t).imports == UnfoldNamed(w[c], ImportsOf(def), id)
            && CurEnv(t).exports == UnfoldNamed(w[c], ExportsOf(def), id)
    decreases id, 4, 0
  {
    hide Inv;
    hide OuterKept;
    hide UnfoldNamed;
    hide NamedOk;
    hide Created;
    hide ExportedFrom;
    hide WorldOk;
    hide BodiesOk;
    hide Clear;
    hide ListClear;
    hide Orderly;
    hide NoRepeats;
    hide Tracks;
    hide UpTo;
    hide Touches;
    hide TouchesNamed;
    hide T.ImportAll;
    hide T.ExportAll;
    InvShape(w, s);
    var def := w[c][id];
    var kind, imports, exports := BodyKindOf(def), ImportsOf(def), ExportsOf(def);
    BodyFacts(w, c, id);
    PushKeeps(w, s, kind);
    var p := Pushed(s, kind);
    ClearInside(w, s, kind, c, id, imports);
    ClearInside(w, s, kind, c, id, exports);
    assert BodyDecls(c, def)[..|imports|] == DeclsOf(c, imports, false);
    OrderPrefix(w, BodyDecls(c, def), |imports|);
    var mid := ImportAllMeans(w, p, c, imports, id);
    ListClearKept(w, p, mid, c, exports);
    t := ExportAllMeans(w, mid, c, imports, exports, id);
    InvShape(w, t);
    OuterKeptTransitive(p, mid, t);
  }

  /** The scope around a body still has its maps. */
  lemma InnerScope(a: Snapshot, kind: BodyKind, b: Snapshot)
    requires |a.envs| == |a.scopes| + 1 && OuterKept(Pushed(a, kind), b)
    ensures |b.scopes| == |a.scopes| + 1 && b.scopes[|a.scopes|] == a.cur.(items := b.scopes[|a.scopes|].items)
  {
    assert Pushed(a, kind).scopes[|a.scopes|] == a.cur;
  }

  lemma InstanceSteps(s: Snapshot, body: seq<Item>, inner: Env)
    requires |s.envs| == |s.scopes| + 1 && Eval(body, Outers(s.envs)) == Some(inner)
    ensures Step(CurEnv(s), DefInstance(body), Outers(s.envs[..|s.scopes|]))
         == Some(CurEnv(s).(types := CurEnv(s).types + [MInstance(inner.exports)]))
  {
    hide Eval;
    assert Outers(s.envs[..|s.scopes|]) + [CurEnv(s).types] == Outers(s.envs);
  }

  lemma ComponentSteps(s: Snapshot, body: seq<Item>, inner: Env)
    requires |s.envs| == |s.scopes| + 1 && Eval(body, Outers(s.envs)) == Some(inner)
    ensures Step(CurEnv(s), DefComponent(body), Outers(s.envs[..|s.scopes|]))
         == Some(CurEnv(s).(types := CurEnv(s).types + [MComponent(inner.imports, inner.exports)]))
  {
    hide Eval;
    assert Outers(s.envs[..|s.scopes|]) + [CurEnv(s).types] == Outers(s.envs);
  }

  /** The exported types are those that the instance type creates. */
  lemma ExportedAreCreated(w: World, typeExports: map<Key, string>, c: nat, id: nat)
    requires c < |w| && id < |w[c]| && w[c][id].Instance? && ExportedFrom(typeExports, c, w[c][id].exports)
    ensures forall k :: k in typeExports ==> k.comp == c && Creates(w[c], id, k.id)
    ensures forall x: nat :: Creates(w[c], id, x) ==> Key(c, x) in typeExports
  {
    forall k | k in typeExports
      ensures k.comp == c && Creates(w[c], id, k.id)
    {
      var i :| 0 <= i < |w[c][id].exports| && CreatedAs(w[c][id].exports[i], k.id, typeExports[k]);
    }
  }

  /** The body of an instance type is left: what it exports waits for an instance. */
  lemma PoppedInstance(w: World, s: Snapshot, b: Snapshot, c: nat, id: nat)
    requires WorldOk(w) && c < |w| && id < |w[c]| && w[c][id].Instance? && |s.envs| == |s.scopes| + 1
    requires Inv(w, b) && OuterKept(Pushed(s, InstanceBody), b) && b.cur.kind == InstanceBody
    requires ExportedFrom(b.cur.typeExports, c, w[c][id].exports) && Unregistered(w, s.cur, c, id)
    requires MInstance(CurEnv(b).exports) == Unfold(w[c], id)
    ensures b.scopes != [] && T.Pop(StateOf(b)) == T.Done(StateOf(Popped(b)), b.cur.items)
    ensures Inv(w, Popped(b)) && Kept(s, Popped(b)) && Popped(b).cur.typeDefs == s.cur.typeDefs
    ensures Announced(w, s, Popped(b), c, Some(id)) && AllRegistered(w, Popped(b).cur, c, id)
    ensures Eval(b.cur.items, Outers(Popped(b).envs)) == Some(CurEnv(b))
  {
    hide Inv;
    hide Kept;
    hide Eval;
    hide Unfold;
    hide Offers;
    hide ExportedFrom;
    InnerScope(s, InstanceBody, b);
    ExportedAreCreated(w, b.cur.typeExports, c, id);
    assert Peel(w[c], id) == id;
    forall k | k in b.cur.typeExports
      ensures k !in s.cur.instanceExports
    {
      assert k == Key(c, k.id);
    }
    BodyKept(s, InstanceBody, b);
    PopKeeps(w, b);
  }

  lemma InstanceDefined(w: World, s: Snapshot, c: nat, id: nat) returns (t: Snapshot, index: nat)
    requires BodiesOk(w) && Inv(w, s) && InWorld(w, Key(c, id)) && w[c][id].Instance?
    requires Unregistered(w, s.cur, c, id) && Clear(w, s, c, id)
    ensures T.Define(w, StateOf(s), c, id) == T.Done(StateOf(t), index)
    ensures Translated(w, s, t, c, id, index) && Added(w, s.cur, t.cur, c, id - 1, {}) && AllRegistered(w, t.cur, c, id)
    decreases id, 4, 1
  {
    hide Inv;
    hide Kept;
    hide Unfold;
    hide Eval;
    hide Step;
    hide OuterKept;
    hide UnfoldNamed;
    hide NamedOk;
    hide ExportedFrom;
    hide Popped;
    hide BodiesOk;
    hide Clear;
    hide Announced;
    hide Unregistered;
    hide AllRegistered;
    hide T.Body;
    hide T.Pop;
    InvShape(w, s);
    InstanceFacts(w[c], id);
    var b := BodyFilled(w, s, c, id);
    PoppedInstance(w, s, b, c, id);
    var p := Popped(b);
    InvShape(w, p);
    var item, m := DefInstance(b.cur.items), Unfold(w[c], id);
    InstanceSteps(p, b.cur.items, CurEnv(b));
    DefinedKeeps(w, p, item, m);
    t, index := Defined(p, item, m), TypeCount(p.cur.items);
    InvShape(w, t);
    KeptTransitive(s, p, t);
    AnnouncedSame(w, s, p, t, c, Some(id));
    SameRegistered(w, p.cur, t.cur, c, id);
  }

  lemma SameRegistered(w: World, a: Scope, b: Scope, c: nat, id: nat)
    requires c < |w| && id < |w[c]| && AllRegistered(w, a, c, id) && b.instanceExports == a.instanceExports
    ensures AllRegistered(w, b, c, id)
  {
  }

  lemma ComponentDefined(w: World, s: Snapshot, c: nat, id: nat) returns (t: Snapshot, index: nat)
    requires BodiesOk(w) && Inv(w, s) && InWorld(w, Key(c, id)) && w[c][id].Component? && Clear(w, s, c, id)
    ensures T.Define(w, StateOf(s), c, id) == T.Done(StateOf(t), index)
    ensures Translated(w, s, t, c, id, index) && Added(w, s.cur, t.cur, c, id - 1, {})
    decreases id, 4, 1
  {
    hide Inv;
    hide Kept;
    hide Unfold;
    hide Eval;
    hide Step;
    hide OuterKept;
    hide UnfoldNamed;
    hide NamedOk;
    hide ExportedFrom;
    hide BodiesOk;
    hide Clear;
    hide Announced;
    hide T.Body;
    InvShape(w, s);
    ComponentFacts(w[c], id);
    var b := BodyFilled(w, s, c, id);
    InnerScope(s, ComponentBody, b);
    BodyKept(s, ComponentBody, b);
    PopKeeps(w, b);
    var p := Popped(b);
    InvShape(w, p);
    var item, m := DefComponent(b.cur.items), Unfold(w[c], id);
    ComponentSteps(p, b.cur.items, CurEnv(b));
    DefinedKeeps(w, p, item, m);
    t, index := Defined(p, item, m), TypeCount(p.cur.items);
    InvShape(w, t);
    KeptTransitive(s, p, t);
    NothingAnnounced(w, s, t, c, id);
  }

  lemma NothingAnnounced(w: World, s: Snapshot, t: Snapshot, c: nat, id: nat)
    requires InWorld(w, Key(c, id)) && |t.envs| == |t.scopes| + 1
    requires forall k :: k in t.cur.instanceExports ==> k in s.cur.instanceExports
    ensures Announced(w, s, t, c, Maker(w[c], id))
  {
  }

  /** A type that is no alias is defined in the current scope. */
  lemma {:induction false} DefineMeans(w: World, s: Snapshot, c: nat, id: nat) returns (t: Snapshot, index: nat)
    requires BodiesOk(w) && Inv(w, s) && InWorld(w, Key(c, id)) && !w[c][id].Alias?
    requires Unregistered(w, s.cur, c, id) && Clear(w, s, c, id)
    ensures T.Define(w, StateOf(s), c, id) == T.Done(StateOf(t), index)
    ensures Translated(w, s, t, c, id, index) && Added(w, s.cur, t.cur, c, id - 1, {}) && AllRegistered(w, t.cur, c, id)
    decreases id, 4, 2
  {
    hide Inv;
    hide Kept;
    hide Unfold;
    hide UnfoldVal;
    hide BodiesOk;
    hide Clear;
    hide Announced;
    hide Step;
    hide T.ValTypes;
    InvShape(w, s);
    match w[c][id] {
      case Ctor(shape, args) =>
        CtorFacts(w[c], id);
        ClearArgs(w, s, c, id);
        var mid, vs := ValTypesMeans(w, s, c, args, id);
        var ms := seq(|args|, i requires 0 <= i < |args| => UnfoldVal(w[c], args[i], id));
        CtorSteps(CurEnv(mid), shape, vs, ms, Outers(mid.envs[..|mid.scopes|]));
        DefinedKeeps(w, mid, DefCtor(shape, vs), MCtor(shape, ms));
        t, index := Defined(mid, DefCtor(shape, vs), MCtor(shape, ms)), TypeCount(mid.cur.items);
        InvShape(w, t);
        KeptTransitive(s, mid, t);
        AnnouncedSame(w, s, mid, t, c, None);
      case Instance(exports) =>
        t, index := InstanceDefined(w, s, c, id);
      case Component(imports, exports) =>
        t, index := ComponentDefined(w, s, c, id);
    }
  }

  lemma ClearArgs(w: World, s: Snapshot, c: nat, id: nat)
    requires WorldOk(w) && c < |w| && id < |w[c]| && w[c][id].Ctor? && Clear(w, s, c, id)
    ensures forall i :: 0 <= i < |w[c][id].args| && w[c][id].args[i].Ref? ==>
              w[c][id].args[i].id < |w[c]| && Clear(w, s, c, w[c][id].args[i].id)
  {
    hide Touches;
    CtorFacts(w[c], id);
    var args := w[c][id].args;
    forall i | 0 <= i < |args| && args[i].Ref?
      ensures args[i].id < |w[c]| && Clear(w, s, c, args[i].id)
    {
      forall x: nat | Touches(w[c], args[i].id, x)
        ensures Touches(w[c], id, x)
      {
        assert TouchesVal(w[c], args[i], id, x);
      }
    }
  }

  // ----- registering twice -----

  /** An instance type whose exported types are registered already cannot be translated again. */
  lemma {:induction false} TyInnerPanics(w: World, s: Snapshot, c: nat, id: nat)
    requires BodiesOk(w) && Inv(w, s) && InWorld(w, Key(c, id)) && Clear(w, s, c, id)
    requires !FoundOnChain(w, StateOf(s), c, id) && !Unregistered(w, s.cur, c, id)
    ensures T.TyInner(w, StateOf(s), c, id).Panics?
    decreases id
  {
    hide Inv;
    hide BodiesOk;
    hide Clear;
    hide Touches;
    hide T.Body;
    hide T.Find;
    hide Unfold;
    hide OuterKept;
    hide ExportedFrom;
    hide UnfoldNamed;
    hide NamedOk;
    InvShape(w, s);
    assert DefOk(w[c], id);
    if w[c][id].Alias? {
      AliasClear(w, s, c, id);
      TyInnerPanics(w, s, c, w[c][id].target);
    } else {
      var x: nat :| Creates(w[c], id, x) && Key(c, x) in s.cur.instanceExports;
      var b := BodyFilled(w, s, c, id);
      InnerScope(s, InstanceBody, b);
      ExportedAreCreated(w, b.cur.typeExports, c, id);
      assert Key(c, x) in b.cur.typeExports && Key(c, x) in b.scopes[|b.scopes| - 1].instanceExports;
      assert T.Pop(StateOf(b)).Panics?;
    }
  }

  lemma TyPanics(w: World, s: Snapshot, c: nat, id: nat)
    requires BodiesOk(w) && Inv(w, s) && InWorld(w, Key(c, id)) && Clear(w, s, c, id)
    requires Key(c, id) !in s.cur.typeDefs
    requires !FoundOnChain(w, StateOf(s), c, id) && !Unregistered(w, s.cur, c, id)
    ensures T.Ty(w, StateOf(s), c, id).Panics?
  {
    hide Inv;
    hide BodiesOk;
    hide Clear;
    hide FoundOnChain;
    TyInnerPanics(w, s, c, id);
  }
}
