/**
 When wasm-compose can register the dependencies of a component's imports: the walk over what
 they mention meets each type it creates for the first time when it creates it.
 */
module ImportWalk {
  import opened Common
  import opened ComponentTypes
  import opened ImportOrder
  import opened ImportDeps

  // ----- the walk, without the shortcut at types that were met before -----

  datatype Event = Birth(id: nat) | Use(id: nat)

  function WalkTy(ts: Types, id: nat): seq<Event>
    requires TypesOk(ts) && id < |ts|
    decreases id, 2, 0
  {
    assert DefOk(ts, id);
    PartsOk(ts, id);
    [Use(id)] +
    match ts[id]
    case Alias(target) => WalkTy(ts, target)
    case Ctor(_, args) => WalkVals(ts, args, id)
    case Instance(exports) => WalkMembers(ts, exports, id)
    case Component(imports, exports) => WalkMembers(ts, imports + exports, id)
  }

  function WalkVals(ts: Types, args: seq<ValRef>, bound: nat): seq<Event>
    requires TypesOk(ts) && forall i :: 0 <= i < |args| ==> ValOk(ts, args[i], bound)
    decreases bound, 1, |args|
  {
    if args == [] then []
    else WalkVals(ts, args[..|args| - 1], bound) + WalkVal(ts, args[|args| - 1], bound)
  }

  function WalkVal(ts: Types, v: ValRef, bound: nat): seq<Event>
    requires TypesOk(ts) && ValOk(ts, v, bound)
    decreases bound, 0, 0
  {
    if v.Ref? then WalkTy(ts, v.id) else []
  }

  function WalkMembers(ts: Types, ns: seq<Named>, bound: nat): seq<Event>
    requires TypesOk(ts) && forall i :: 0 <= i < |ns| ==> EntityOk(ts, ns[i].entity, bound)
    decreases bound, 1, |ns|
  {
    if ns == [] then []
    else WalkMembers(ts, ns[..|ns| - 1], bound) + WalkEntity(ts, ns[|ns| - 1].entity, bound)
  }

  function WalkEntity(ts: Types, e: Entity, bound: nat): seq<Event>
    requires TypesOk(ts) && EntityOk(ts, e, bound)
    decreases bound, 0, 1
  {
    match e
    case TypeE(created, referenced) => [Birth(created)] + WalkTy(ts, referenced)
    case ValueE(v) => WalkVal(ts, v, bound)
    case FuncE(id) =>
      PartsOk(ts, id);
      WalkVals(ts, ArgsOf(ts, id), Peel(ts, id))
    case InstanceE(id) =>
      PartsOk(ts, id);
      WalkMembers(ts, MembersOf(ts, id), Peel(ts, id))
    case ComponentE(id) =>
      PartsOk(ts, id);
      WalkMembers(ts, MembersOf(ts, id), Peel(ts, id))
  }

  function Ids(walk: seq<Event>): set<nat> {
    set i | 0 <= i < |walk| :: walk[i].id
  }

  /** Nothing is created that was met before, in this walk or in `seen`. */
  ghost predicate Fresh(seen: set<nat>, walk: seq<Event>) {
    forall i :: 0 <= i < |walk| && walk[i].Birth? ==>
      walk[i].id !in seen && forall j :: 0 <= j < i ==> walk[j].id != walk[i].id
  }

  /** Nothing is created at all. */
  ghost predicate Quiet(walk: seq<Event>) {
    forall i :: 0 <= i < |walk| ==> walk[i].Use?
  }

  lemma IdsAppend(a: seq<Event>, b: seq<Event>)
    ensures Ids(a + b) == Ids(a) + Ids(b)
  {
    var all := a + b;
    forall x | x in Ids(a) + Ids(b)
      ensures x in Ids(all)
    {
      if x in Ids(a) {
        var i :| 0 <= i < |a| && a[i].id == x;
        assert all[i].id == x;
      } else {
        var i :| 0 <= i < |b| && b[i].id == x;
        assert all[|a| + i].id == x;
      }
    }
  }

  lemma FreshAppend(seen: set<nat>, a: seq<Event>, b: seq<Event>)
    ensures Fresh(seen, a + b) <==> Fresh(seen, a) && Fresh(seen + Ids(a), b)
  {
    var all := a + b;
    if Fresh(seen, all) {
      forall i | 0 <= i < |a| && a[i].Birth?
        ensures a[i].id !in seen && forall j :: 0 <= j < i ==> a[j].id != a[i].id
      {
        assert all[i] == a[i];
        assert forall j :: 0 <= j < i ==> all[j] == a[j];
      }
      forall i | 0 <= i < |b| && b[i].Birth?
        ensures b[i].id !in seen + Ids(a) && forall j :: 0 <= j < i ==> b[j].id != b[i].id
      {
        assert all[|a| + i] == b[i];
        assert forall j :: 0 <= j < |a| ==> all[j] == a[j];
        assert forall j :: 0 <= j < i ==> all[|a| + j] == b[j];
      }
    }
    if Fresh(seen, a) && Fresh(seen + Ids(a), b) {
      forall i | 0 <= i < |all| && all[i].Birth?
        ensures all[i].id !in seen && forall j :: 0 <= j < i ==> all[j].id != all[i].id
      {
        if i >= |a| {
          assert all[i] == b[i - |a|];
          forall j | 0 <= j < i
            ensures all[j].id != all[i].id
          {
            assert j < |a| ==> a[j].id in Ids(a);
          }
        }
      }
    }
  }

  // ----- a fresh walk is registered -----

  /** Registering succeeded, and only what was walked is registered. */
  ghost predicate Registered(r: Option<Registry>, seen: set<nat>, walk: seq<Event>) {
    r.Some? && r.value.definer.Keys <= seen + Ids(walk)
  }

  lemma {:induction false} TyFresh(ts: Types, r: Registry, cur: Name, id: nat, seen: set<nat>)
    requires TypesOk(ts) && id < |ts| && r.definer.Keys <= seen && Fresh(seen, WalkTy(ts, id))
    ensures Registered(AfterTy(ts, r, cur, id), seen, WalkTy(ts, id))
    decreases id, 2, 0
  {
    hide WalkVals;
    hide WalkMembers;
    hide AfterVals;
    hide AfterMembers;
    hide Fresh;
    if id !in r.definer {
      assert DefOk(ts, id);
      PartsOk(ts, id);
      var mid := r.(definer := r.definer[id := cur]);
      var rest := WalkTy(ts, id)[1..];
      assert WalkTy(ts, id) == [Use(id)] + rest;
      FreshAppend(seen, [Use(id)], rest);
      IdsAppend([Use(id)], rest);
      IdsOne(Use(id));
      match ts[id] {
        case Alias(target) =>
          TyFresh(ts, mid, cur, target, seen + {id});
        case Ctor(_, args) =>
          ValsFresh(ts, mid, cur, args, id, seen + {id});
        case Instance(exports) =>
          MembersFresh(ts, mid, cur, exports, id, seen + {id});
        case Component(imports, exports) =>
          MembersFresh(ts, mid, cur, imports + exports, id, seen + {id});
      }
    }
  }

  lemma IdsOne(e: Event)
    ensures Ids([e]) == {e.id}
  {
    assert [e][0].id in Ids([e]);
  }

  lemma {:induction false} ValsFresh(ts: Types, r: Registry, cur: Name, args: seq<ValRef>, bound: nat, seen: set<nat>)
    requires TypesOk(ts) && (forall i :: 0 <= i < |args| ==> ValOk(ts, args[i], bound))
    requires r.definer.Keys <= seen && Fresh(seen, WalkVals(ts, args, bound))
    ensures Registered(AfterVals(ts, r, cur, args, bound), seen, WalkVals(ts, args, bound))
    decreases bound, 1, |args|
  {
    hide Fresh;
    hide WalkTy;
    hide AfterTy;
    hide ValOk;
    if args != [] {
      var n := |args| - 1;
      var a, b := WalkVals(ts, args[..n], bound), WalkVal(ts, args[n], bound);
      FreshAppend(seen, a, b);
      IdsAppend(a, b);
      ValsFresh(ts, r, cur, args[..n], bound, seen);
      ValFresh(ts, AfterVals(ts, r, cur, args[..n], bound).value, cur, args[n], bound, seen + Ids(a));
    }
  }

  lemma {:induction false} ValFresh(ts: Types, r: Registry, cur: Name, v: ValRef, bound: nat, seen: set<nat>)
    requires TypesOk(ts) && ValOk(ts, v, bound) && r.definer.Keys <= seen && Fresh(seen, WalkVal(ts, v, bound))
    ensures Registered(AfterVal(ts, r, cur, v, bound), seen, WalkVal(ts, v, bound))
    decreases bound, 0, 0
  {
    if v.Ref? {
      TyFresh(ts, r, cur, v.id, seen);
    }
  }

  lemma {:induction false} MembersFresh(ts: Types, r: Registry, cur: Name, ns: seq<Named>, bound: nat, seen: set<nat>)
    requires TypesOk(ts) && (forall i :: 0 <= i < |ns| ==> EntityOk(ts, ns[i].entity, bound))
    requires r.definer.Keys <= seen && Fresh(seen, WalkMembers(ts, ns, bound))
    ensures Registered(AfterMembers(ts, r, cur, ns, bound), seen, WalkMembers(ts, ns, bound))
    decreases bound, 1, |ns|
  {
    hide Fresh;
    hide WalkEntity;
    hide AfterEntity;
    hide EntityOk;
    if ns != [] {
      var n := |ns| - 1;
      var a, b := WalkMembers(ts, ns[..n], bound), WalkEntity(ts, ns[n].entity, bound);
      FreshAppend(seen, a, b);
      IdsAppend(a, b);
      MembersFresh(ts, r, cur, ns[..n], bound, seen);
      EntityFresh(ts, AfterMembers(ts, r, cur, ns[..n], bound).value, cur, ns[n].entity, bound, seen + Ids(a));
    }
  }

  lemma {:induction false} EntityFresh(ts: Types, r: Registry, cur: Name, e: Entity, bound: nat, seen: set<nat>)
    requires TypesOk(ts) && EntityOk(ts, e, bound) && r.definer.Keys <= seen && Fresh(seen, WalkEntity(ts, e, bound))
    ensures Registered(AfterEntity(ts, r, cur, e, bound), seen, WalkEntity(ts, e, bound))
    decreases bound, 0, 1
  {
    hide WalkTy;
    hide WalkVals;
    hide WalkMembers;
    hide AfterTy;
    hide AfterVals;
    hide AfterMembers;
    match e {
      case TypeE(created, referenced) =>
        var walk := [Birth(created)] + WalkTy(ts, referenced);
        assert walk[0] == Birth(created);
        FreshAppend(seen, [Birth(created)], WalkTy(ts, referenced));
        IdsAppend([Birth(created)], WalkTy(ts, referenced));
        IdsOne(Birth(created));
        TyFresh(ts, r.(definer := r.definer[created := cur]), cur, referenced, seen + {created});
      case ValueE(v) =>
        ValFresh(ts, r, cur, v, bound, seen);
      case FuncE(id) =>
        PartsOk(ts, id);
        ValsFresh(ts, r, cur, ArgsOf(ts, id), Peel(ts, id), seen);
      case InstanceE(id) =>
        PartsOk(ts, id);
        MembersFresh(ts, r, cur, MembersOf(ts, id), Peel(ts, id), seen);
      case ComponentE(id) =>
        PartsOk(ts, id);
        MembersFresh(ts, r, cur, MembersOf(ts, id), Peel(ts, id), seen);
    }
  }

  // ----- everything on the walk is mentioned -----

  lemma {:induction false} TyWalked(ts: Types, id: nat, x: nat)
    requires TypesOk(ts) && id < |ts| && x in Ids(WalkTy(ts, id))
    ensures Visits(ts, id, x)
    decreases id, 2, 0
  {
    hide WalkVals;
    hide WalkMembers;
    hide VisitsMembers;
    if x != id {
      assert DefOk(ts, id);
      PartsOk(ts, id);
      var rest := WalkTy(ts, id)[1..];
      assert WalkTy(ts, id) == [Use(id)] + rest;
      IdsAppend([Use(id)], rest);
      IdsOne(Use(id));
      match ts[id] {
        case Alias(target) =>
          TyWalked(ts, target, x);
        case Ctor(_, args) =>
          var i := ValsWalked(ts, args, id, x);
        case Instance(exports) =>
          MembersWalked(ts, exports, id, x);
        case Component(imports, exports) =>
          MembersWalked(ts, imports + exports, id, x);
      }
    }
  }

  lemma {:induction false} ValsWalked(ts: Types, args: seq<ValRef>, bound: nat, x: nat) returns (i: nat)
    requires TypesOk(ts) && (forall i :: 0 <= i < |args| ==> ValOk(ts, args[i], bound))
    requires x in Ids(WalkVals(ts, args, bound))
    ensures i < |args| && VisitsVal(ts, args[i], bound, x)
    decreases bound, 1, |args|
  {
    hide WalkTy;
    hide Visits;
    hide ValOk;
    NothingWalked();
    var n := |args| - 1;
    IdsAppend(WalkVals(ts, args[..n], bound), WalkVal(ts, args[n], bound));
    if x in Ids(WalkVals(ts, args[..n], bound)) {
      i := ValsWalked(ts, args[..n], bound, x);
    } else {
      ValWalked(ts, args[n], bound, x);
      i := n;
    }
  }

  lemma NothingWalked()
    ensures Ids([]) == {}
  {
  }

  lemma {:induction false} ValWalked(ts: Types, v: ValRef, bound: nat, x: nat)
    requires TypesOk(ts) && ValOk(ts, v, bound) && x in Ids(WalkVal(ts, v, bound))
    ensures VisitsVal(ts, v, bound, x)
    decreases bound, 0, 0
  {
    hide WalkTy;
    hide Visits;
    NothingWalked();
    TyWalked(ts, v.id, x);
  }

  lemma {:induction false} MembersWalked(ts: Types, ns: seq<Named>, bound: nat, x: nat)
    requires TypesOk(ts) && (forall i :: 0 <= i < |ns| ==> EntityOk(ts, ns[i].entity, bound))
    requires x in Ids(WalkMembers(ts, ns, bound))
    ensures VisitsMembers(ts, ns, bound, x)
    decreases bound, 1, |ns|
  {
    hide WalkEntity;
    hide VisitsEntity;
    hide EntityOk;
    NothingWalked();
    var n := |ns| - 1;
    IdsAppend(WalkMembers(ts, ns[..n], bound), WalkEntity(ts, ns[n].entity, bound));
    if x in Ids(WalkMembers(ts, ns[..n], bound)) {
      MembersWalked(ts, ns[..n], bound, x);
      var i :| 0 <= i < n && VisitsEntity(ts, ns[..n][i].entity, bound, x);
      assert VisitsEntity(ts, ns[i].entity, bound, x);
    } else {
      EntityWalked(ts, ns[n].entity, bound, x);
    }
  }

  lemma {:induction false} EntityWalked(ts: Types, e: Entity, bound: nat, x: nat)
    requires TypesOk(ts) && EntityOk(ts, e, bound) && x in Ids(WalkEntity(ts, e, bound))
    ensures VisitsEntity(ts, e, bound, x)
    decreases bound, 0, 1
  {
    hide WalkTy;
    hide WalkVals;
    hide WalkMembers;
    hide VisitsMembers;
    match e {
      case TypeE(created, referenced) =>
        IdsAppend([Birth(created)], WalkTy(ts, referenced));
        IdsOne(Birth(created));
        if x != created {
          TyWalked(ts, referenced, x);
        }
      case ValueE(v) =>
        ValWalked(ts, v, bound, x);
      case FuncE(id) =>
        PartsOk(ts, id);
        var i := ValsWalked(ts, ArgsOf(ts, id), Peel(ts, id), x);
      case InstanceE(id) =>
        PartsOk(ts, id);
        MembersWalked(ts, MembersOf(ts, id), Peel(ts, id), x);
      case ComponentE(id) =>
        PartsOk(ts, id);
        MembersWalked(ts, MembersOf(ts, id), Peel(ts, id), x);
    }
  }

  // ----- a walk that is not fresh fails -----

  /** No name stands for an instance or component type that creates types, however deep. */
  ghost predicate NoCreatingNames(ts: Types)
    requires TypesOk(ts)
  {
    forall id: nat :: id < |ts| && ts[id].Alias? ==> Quiet(WalkTy(ts, id))
  }

  lemma QuietAppend(a: seq<Event>, b: seq<Event>)
    ensures Quiet(a + b) <==> Quiet(a) && Quiet(b)
  {
    var all := a + b;
    if Quiet(all) {
      assert forall i :: 0 <= i < |a| ==> all[i] == a[i];
      assert forall i :: 0 <= i < |b| ==> all[|a| + i] == b[i];
    }
  }

  lemma QuietIsFresh(seen: set<nat>, walk: seq<Event>)
    requires Quiet(walk)
    ensures Fresh(seen, walk)
  {
  }

  /** Value types create nothing. */
  lemma {:induction false} TyQuiet(ts: Types, id: nat)
    requires TypesOk(ts) && id < |ts| && ts[Peel(ts, id)].Ctor?
    ensures Quiet(WalkTy(ts, id))
    decreases id, 2, 0
  {
    hide WalkVals;
    assert DefOk(ts, id);
    PartsOk(ts, id);
    if ts[id].Alias? {
      TyQuiet(ts, ts[id].target);
      QuietAppend([Use(id)], WalkTy(ts, ts[id].target));
    } else {
      ValsQuiet(ts, ts[id].args, id);
      QuietAppend([Use(id)], WalkVals(ts, ts[id].args, id));
    }
  }

  lemma {:induction false} ValsQuiet(ts: Types, args: seq<ValRef>, bound: nat)
    requires TypesOk(ts) && (forall i :: 0 <= i < |args| ==> ValOk(ts, args[i], bound))
    ensures Quiet(WalkVals(ts, args, bound))
    decreases bound, 1, |args|
  {
    hide WalkTy;
    if args != [] {
      var n := |args| - 1;
      ValsQuiet(ts, args[..n], bound);
      if args[n].Ref? {
        assert ValOk(ts, args[n], bound);
        TyQuiet(ts, args[n].id);
      }
      QuietAppend(WalkVals(ts, args[..n], bound), WalkVal(ts, args[n], bound));
    }
  }

  lemma {:induction false} MembersStale(ts: Types, r: Registry, cur: Name, ns: seq<Named>, bound: nat, seen: set<nat>)
    requires TypesOk(ts) && (forall i :: 0 <= i < |ns| ==> EntityOk(ts, ns[i].entity, bound)) && NoCreatingNames(ts)
    requires Closed(ts, r, {}) && seen <= r.definer.Keys && !Fresh(seen, WalkMembers(ts, ns, bound))
    ensures AfterMembers(ts, r, cur, ns, bound).None?
    decreases bound, 1, |ns|
  {
    hide Closed;
    hide Fresh;
    hide EntityOk;
    hide EntityLed;
    hide WalkEntity;
    hide AfterEntity;
    hide NoCreatingNames;
    NothingFresh(seen);
    var n := |ns| - 1;
    var a, b := WalkMembers(ts, ns[..n], bound), WalkEntity(ts, ns[n].entity, bound);
    FreshAppend(seen, a, b);
    if !Fresh(seen, a) {
      MembersStale(ts, r, cur, ns[..n], bound, seen);
    } else if AfterMembers(ts, r, cur, ns[..n], bound).Some? {
      var mid := AfterMembers(ts, r, cur, ns[..n], bound).value;
      MembersClose(ts, r, cur, ns[..n], bound, {});
      forall x | x in seen + Ids(a)
        ensures x in mid.definer
      {
        if x in seen {
          GrewDefiner(r, mid, x);
        } else {
          MembersWalked(ts, ns[..n], bound, x);
        }
      }
      EntityStale(ts, mid, cur, ns[n].entity, bound, seen + Ids(a));
    }
  }

  lemma NothingFresh(seen: set<nat>)
    ensures Fresh(seen, [])
  {
  }

  lemma {:induction false} EntityStale(ts: Types, r: Registry, cur: Name, e: Entity, bound: nat, seen: set<nat>)
    requires TypesOk(ts) && EntityOk(ts, e, bound) && NoCreatingNames(ts)
    requires Closed(ts, r, {}) && seen <= r.definer.Keys && !Fresh(seen, WalkEntity(ts, e, bound))
    ensures AfterEntity(ts, r, cur, e, bound).None?
    decreases bound, 0, 1
  {
    hide Closed;
    hide Fresh;
    hide WalkVals;
    hide WalkMembers;
    hide AfterTy;
    hide AfterVals;
    hide AfterMembers;
    match e {
      case TypeE(created, referenced) =>
        BirthThenQuiet(ts, created, seen);
      case ValueE(v) =>
        if v.Ref? {
          TyQuiet(ts, v.id);
        }
        QuietIsFresh(seen, WalkVal(ts, v, bound));
      case FuncE(id) =>
        PartsOk(ts, id);
        ValsQuiet(ts, ArgsOf(ts, id), Peel(ts, id));
        QuietIsFresh(seen, WalkVals(ts, ArgsOf(ts, id), Peel(ts, id)));
      case InstanceE(id) =>
        PartsOk(ts, id);
        MembersStale(ts, r, cur, MembersOf(ts, id), Peel(ts, id), seen);
      case ComponentE(id) =>
        PartsOk(ts, id);
        MembersStale(ts, r, cur, MembersOf(ts, id), Peel(ts, id), seen);
    }
  }

  /** A name that is created was met before, or nothing on its walk was. */
  lemma BirthThenQuiet(ts: Types, created: nat, seen: set<nat>)
    requires TypesOk(ts) && created < |ts| && ts[created].Alias? && NoCreatingNames(ts)
    ensures ts[created].target < created
    ensures created !in seen ==> Fresh(seen, [Birth(created)] + WalkTy(ts, ts[created].target))
  {
    assert DefOk(ts, created);
    var rest := WalkTy(ts, ts[created].target);
    assert WalkTy(ts, created) == [Use(created)] + rest;
    QuietAppend([Use(created)], rest);
    QuietIsFresh(seen + Ids([Birth(created)]), rest);
    FreshAppend(seen, [Birth(created)], rest);
  }

  // ----- all imports of a component -----

  function WalkImports(ts: Types, imports: seq<Named>): seq<Event>
    requires ImportsOk(ts, imports)
  {
    if imports == [] then []
    else WalkImports(ts, imports[..|imports| - 1]) + WalkEntity(ts, imports[|imports| - 1].entity, |ts|)
  }

  /** If no type is created that was met before, no assertion fails, whatever names there are. */
  lemma {:induction false} FreshRegisters(ts: Types, deps: Deps, imports: seq<Named>)
    requires ImportsOk(ts, imports) && Fresh({}, WalkImports(ts, imports))
    ensures Registered(AfterImports(ts, Registry(map[], deps), imports), {}, WalkImports(ts, imports))
  {
    hide Fresh;
    hide EntityOk;
    hide WalkEntity;
    hide AfterEntity;
    if imports != [] {
      var n := |imports| - 1;
      var a, b := WalkImports(ts, imports[..n]), WalkEntity(ts, imports[n].entity, |ts|);
      FreshAppend({}, a, b);
      IdsAppend(a, b);
      assert {} + Ids(a) == Ids(a);
      FreshRegisters(ts, deps, imports[..n]);
      var mid := AfterImports(ts, Registry(map[], deps), imports[..n]).value;
      EntityFresh(ts, mid, imports[n].name, imports[n].entity, |ts|, Ids(a));
    }
  }

  lemma {:induction false} StaleFails(ts: Types, deps: Deps, imports: seq<Named>, n: nat)
    requires ImportsOk(ts, imports) && NoCreatingNames(ts) && n <= |imports|
    requires !Fresh({}, WalkImports(ts, imports[..n]))
    ensures AfterImports(ts, Registry(map[], deps), imports[..n]).None?
    decreases n
  {
    hide Fresh;
    hide EntityOk;
    hide EntityLed;
    hide WalkEntity;
    hide AfterEntity;
    hide NoCreatingNames;
    hide Closed;
    NothingFresh({});
    assert imports[..n][..n - 1] == imports[..n - 1];
    var start, last := Registry(map[], deps), imports[n - 1];
    var a, b := WalkImports(ts, imports[..n - 1]), WalkEntity(ts, last.entity, |ts|);
    FreshAppend({}, a, b);
    assert {} + Ids(a) == Ids(a);
    if !Fresh({}, a) {
      StaleFails(ts, deps, imports, n - 1);
    } else if AfterImports(ts, start, imports[..n - 1]).Some? {
      var mid := AfterImports(ts, start, imports[..n - 1]).value;
      ImportsLed(ts, deps, imports, n - 1);
      forall x | x in Ids(a)
        ensures x in mid.definer
      {
        WalkedIsRegistered(ts, mid, imports, n - 1, x);
      }
      EntityStale(ts, mid, last.name, last.entity, |ts|, Ids(a));
    }
  }

  lemma {:induction false} WalkedIsRegistered(ts: Types, r: Registry, imports: seq<Named>, n: nat, x: nat)
    requires ImportsOk(ts, imports) && n <= |imports| && x in Ids(WalkImports(ts, imports[..n]))
    requires forall i :: 0 <= i < n ==>
               EntityOk(ts, imports[i].entity, |ts|) && EntityLed(ts, r, imports[i].name, imports[i].entity, |ts|)
    ensures x in r.definer
    decreases n
  {
    hide EntityOk;
    hide WalkEntity;
    hide VisitsEntity;
    NothingWalked();
    assert imports[..n][..n - 1] == imports[..n - 1];
    var last := imports[n - 1];
    IdsAppend(WalkImports(ts, imports[..n - 1]), WalkEntity(ts, last.entity, |ts|));
    if x in Ids(WalkImports(ts, imports[..n - 1])) {
      WalkedIsRegistered(ts, r, imports, n - 1, x);
    } else {
      EntityWalked(ts, last.entity, |ts|, x);
      assert EntityLed(ts, r, last.name, last.entity, |ts|);
    }
  }

  /**
   Where no name stands for a type that creates types, the imports of a component can be
   registered exactly if their walk creates no type that it met before.
   */
  lemma RegistersIff(ts: Types, deps: Deps, imports: seq<Named>)
    requires ImportsOk(ts, imports) && NoCreatingNames(ts)
    ensures AfterImports(ts, Registry(map[], deps), imports).Some? <==> Fresh({}, WalkImports(ts, imports))
  {
    hide AfterImports;
    hide WalkImports;
    hide Fresh;
    hide NoCreatingNames;
    if Fresh({}, WalkImports(ts, imports)) {
      FreshRegisters(ts, deps, imports);
    } else {
      assert imports[..|imports|] == imports;
      StaleFails(ts, deps, imports, |imports|);
    }
  }
}
