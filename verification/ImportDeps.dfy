/**
 wasm-compose's dependencies between imports: each type is noted as defined by the import that
 mentions it first, and an import that mentions a type of another one depends on that one.
 */
module ImportDeps {
  import opened Common
  import opened ComponentTypes
  import opened ImportOrder

  /** Which import defines a type of the component, and what each import depends on. */
  datatype Registry = Registry(definer: map<nat, Name>, deps: Deps)

  function Edge(r: Registry, cur: Name, d: Name): Registry {
    if d == cur then r else r.(deps := r.deps[cur := DepsOf(r.deps, cur) + [d]])
  }

  /** The value types that a function or another type is made of. */
  function ArgsOf(ts: Types, id: nat): seq<ValRef>
    requires id < |ts|
  {
    if ts[Peel(ts, id)].Ctor? then ts[Peel(ts, id)].args else []
  }

  /** Imports and exports of an instance or component type. */
  function MembersOf(ts: Types, id: nat): seq<Named>
    requires id < |ts|
  {
    match ts[Peel(ts, id)]
    case Instance(exports) => exports
    case Component(imports, exports) => imports + exports
    case _ => []
  }

  lemma PartsOk(ts: Types, id: nat)
    requires TypesOk(ts) && id < |ts|
    ensures forall i :: 0 <= i < |ArgsOf(ts, id)| ==> ValOk(ts, ArgsOf(ts, id)[i], Peel(ts, id))
    ensures forall i :: 0 <= i < |MembersOf(ts, id)| ==> EntityOk(ts, MembersOf(ts, id)[i].entity, Peel(ts, id))
  {
    hide EntityOk;
    assert DefOk(ts, Peel(ts, id));
  }

  // ----- registering, as functions; `None` is a failing assertion -----

  function AfterTy(ts: Types, r: Registry, cur: Name, id: nat): Option<Registry>
    requires TypesOk(ts) && id < |ts|
    decreases id, 2, 0
  {
    if id in r.definer then Some(Edge(r, cur, r.definer[id]))
    else
      var now := r.(definer := r.definer[id := cur]);
      assert DefOk(ts, id);
      PartsOk(ts, id);
      match ts[id]
      case Alias(target) => AfterTy(ts, now, cur, target)
      case Ctor(_, args) => AfterVals(ts, now, cur, args, id)
      case Instance(exports) => AfterMembers(ts, now, cur, exports, id)
      case Component(imports, exports) => AfterMembers(ts, now, cur, imports + exports, id)
  }

  function AfterVals(ts: Types, r: Registry, cur: Name, args: seq<ValRef>, bound: nat): Option<Registry>
    requires TypesOk(ts) && forall i :: 0 <= i < |args| ==> ValOk(ts, args[i], bound)
    decreases bound, 1, |args|
  {
    if args == [] then Some(r)
    else
      var n := |args| - 1;
      match AfterVals(ts, r, cur, args[..n], bound)
      case None => None
      case Some(now) => AfterVal(ts, now, cur, args[n], bound)
  }

  function AfterVal(ts: Types, r: Registry, cur: Name, v: ValRef, bound: nat): Option<Registry>
    requires TypesOk(ts) && ValOk(ts, v, bound)
    decreases bound, 0, 0
  {
    if v.Ref? then AfterTy(ts, r, cur, v.id) else Some(r)
  }

  function AfterMembers(ts: Types, r: Registry, cur: Name, ns: seq<Named>, bound: nat): Option<Registry>
    requires TypesOk(ts) && forall i :: 0 <= i < |ns| ==> EntityOk(ts, ns[i].entity, bound)
    decreases bound, 1, |ns|
  {
    if ns == [] then Some(r)
    else
      var n := |ns| - 1;
      match AfterMembers(ts, r, cur, ns[..n], bound)
      case None => None
      case Some(now) => AfterEntity(ts, now, cur, ns[n].entity, bound)
  }

  /** A type that is exported is defined here, and asserted not to be defined yet. */
  function AfterEntity(ts: Types, r: Registry, cur: Name, e: Entity, bound: nat): Option<Registry>
    requires TypesOk(ts) && EntityOk(ts, e, bound)
    decreases bound, 0, 1
  {
    match e
    case TypeE(created, referenced) =>
      if created in r.definer then None
      else AfterTy(ts, r.(definer := r.definer[created := cur]), cur, referenced)
    case ValueE(v) => AfterVal(ts, r, cur, v, bound)
    case FuncE(id) =>
      PartsOk(ts, id);
      AfterVals(ts, r, cur, ArgsOf(ts, id), Peel(ts, id))
    case InstanceE(id) =>
      PartsOk(ts, id);
      AfterMembers(ts, r, cur, MembersOf(ts, id), Peel(ts, id))
    case ComponentE(id) =>
      PartsOk(ts, id);
      AfterMembers(ts, r, cur, MembersOf(ts, id), Peel(ts, id))
  }

  /** All imports of a component, in order. */
  function AfterImports(ts: Types, r: Registry, imports: seq<Named>): Option<Registry>
    requires TypesOk(ts) && forall i :: 0 <= i < |imports| ==> EntityOk(ts, imports[i].entity, |ts|)
  {
    if imports == [] then Some(r)
    else
      var n := |imports| - 1;
      match AfterImports(ts, r, imports[..n])
      case None => None
      case Some(now) => AfterEntity(ts, now, imports[n].name, imports[n].entity, |ts|)
  }

  // ----- registering, as it is written -----

  class Registrar {
    const ts: Types
    var definer: map<nat, Name>
    var deps: Deps
    var cur: Name

    function State(): Registry
      reads this
    {
      Registry(definer, deps)
    }

    constructor (ts: Types, deps: Deps)
      ensures this.ts == ts && State() == Registry(map[], deps)
    {
      this.ts := ts;
      this.definer, this.deps, this.cur := map[], deps, "";
    }

    method Ty(start: nat) returns (ok: bool)
      requires TypesOk(ts) && start < |ts|
      modifies this`definer, this`deps
      ensures ok == AfterTy(ts, old(State()), cur, start).Some?
      ensures ok ==> AfterTy(ts, old(State()), cur, start) == Some(State())
      decreases start, 2
    {
      if start in definer {
        if definer[start] != cur {
          deps := deps[cur := DepsOf(deps, cur) + [definer[start]]];
        }
        return true;
      }
      definer := definer[start := cur];
      assert DefOk(ts, start);
      PartsOk(ts, start);
      match ts[start] {
        case Alias(target) =>
          ok := Ty(target);
        case Ctor(_, args) =>
          ok := Vals(args, start);
        case Instance(exports) =>
          ok := Members(exports, start);
        case Component(imports, exports) =>
          ok := Members(imports + exports, start);
      }
    }

    method Vals(args: seq<ValRef>, bound: nat) returns (ok: bool)
      requires TypesOk(ts) && forall i :: 0 <= i < |args| ==> ValOk(ts, args[i], bound)
      modifies this`definer, this`deps
      ensures ok == AfterVals(ts, old(State()), cur, args, bound).Some?
      ensures ok ==> AfterVals(ts, old(State()), cur, args, bound) == Some(State())
      decreases bound, 1
    {
      hide AfterTy;
      hide ValOk;
      for j := 0 to |args|
        invariant AfterVals(ts, old(State()), cur, args[..j], bound) == Some(State())
      {
        assert args[..j + 1][..j] == args[..j];
        var done := Val(args[j], bound);
        if !done {
          ValsFail(ts, old(State()), cur, args, j + 1, bound);
          return false;
        }
      }
      assert args[..|args|] == args;
      return true;
    }

    method Val(v: ValRef, bound: nat) returns (ok: bool)
      requires TypesOk(ts) && ValOk(ts, v, bound)
      modifies this`definer, this`deps
      ensures ok == AfterVal(ts, old(State()), cur, v, bound).Some?
      ensures ok ==> AfterVal(ts, old(State()), cur, v, bound) == Some(State())
      decreases bound, 0, 0
    {
      if v.Prim? {
        return true;
      }
      ok := Ty(v.id);
    }

    method Members(ns: seq<Named>, bound: nat) returns (ok: bool)
      requires TypesOk(ts) && forall i :: 0 <= i < |ns| ==> EntityOk(ts, ns[i].entity, bound)
      modifies this`definer, this`deps
      ensures ok == AfterMembers(ts, old(State()), cur, ns, bound).Some?
      ensures ok ==> AfterMembers(ts, old(State()), cur, ns, bound) == Some(State())
      decreases bound, 1
    {
      hide AfterEntity;
      hide EntityOk;
      for j := 0 to |ns|
        invariant AfterMembers(ts, old(State()), cur, ns[..j], bound) == Some(State())
      {
        assert ns[..j + 1][..j] == ns[..j];
        var done := Entity(ns[j].entity, bound);
        if !done {
          MembersFail(ts, old(State()), cur, ns, j + 1, bound);
          return false;
        }
      }
      assert ns[..|ns|] == ns;
      return true;
    }

    method Entity(e: Entity, bound: nat) returns (ok: bool)
      requires TypesOk(ts) && EntityOk(ts, e, bound)
      modifies this`definer, this`deps
      ensures ok == AfterEntity(ts, old(State()), cur, e, bound).Some?
      ensures ok ==> AfterEntity(ts, old(State()), cur, e, bound) == Some(State())
      decreases bound, 0, 1
    {
      match e {
        case TypeE(created, referenced) =>
          if created in definer {
            return false;
          }
          definer := definer[created := cur];
          ok := Ty(referenced);
        case ValueE(v) =>
          ok := Val(v, bound);
        case FuncE(id) =>
          PartsOk(ts, id);
          ok := Vals(ArgsOf(ts, id), Peel(ts, id));
        case InstanceE(id) =>
          PartsOk(ts, id);
          ok := Members(MembersOf(ts, id), Peel(ts, id));
        case ComponentE(id) =>
          PartsOk(ts, id);
          ok := Members(MembersOf(ts, id), Peel(ts, id));
      }
    }
  }

  lemma {:induction false} ValsFail(ts: Types, r: Registry, cur: Name, args: seq<ValRef>, j: nat, bound: nat)
    requires TypesOk(ts) && (forall i :: 0 <= i < |args| ==> ValOk(ts, args[i], bound)) && j <= |args|
    requires AfterVals(ts, r, cur, args[..j], bound).None?
    ensures AfterVals(ts, r, cur, args, bound).None?
    decreases |args| - j
  {
    if j < |args| {
      assert args[..j + 1][..j] == args[..j];
      ValsFail(ts, r, cur, args, j + 1, bound);
    } else {
      assert args[..j] == args;
    }
  }

  lemma {:induction false} MembersFail(ts: Types, r: Registry, cur: Name, ns: seq<Named>, j: nat, bound: nat)
    requires TypesOk(ts) && (forall i :: 0 <= i < |ns| ==> EntityOk(ts, ns[i].entity, bound)) && j <= |ns|
    requires AfterMembers(ts, r, cur, ns[..j], bound).None?
    ensures AfterMembers(ts, r, cur, ns, bound).None?
    decreases |ns| - j
  {
    if j < |ns| {
      assert ns[..j + 1][..j] == ns[..j];
      MembersFail(ts, r, cur, ns, j + 1, bound);
    } else {
      assert ns[..j] == ns;
    }
  }

  // ----- what an import mentions -----

  /** The type `x` is mentioned by the type `id`. */
  ghost predicate Visits(ts: Types, id: nat, x: nat)
    requires TypesOk(ts) && id < |ts|
    decreases id, 2
  {
    assert DefOk(ts, id);
    x == id ||
    match ts[id]
    case Alias(target) => Visits(ts, target, x)
    case Ctor(_, args) => exists i :: 0 <= i < |args| && VisitsVal(ts, args[i], id, x)
    case Instance(exports) => VisitsMembers(ts, exports, id, x)
    case Component(imports, exports) => VisitsMembers(ts, imports + exports, id, x)
  }

  ghost predicate VisitsMembers(ts: Types, ns: seq<Named>, bound: nat, x: nat)
    requires TypesOk(ts) && forall i :: 0 <= i < |ns| ==> EntityOk(ts, ns[i].entity, bound)
    decreases bound, 1
  {
    exists i :: 0 <= i < |ns| && VisitsEntity(ts, ns[i].entity, bound, x)
  }

  ghost predicate VisitsVal(ts: Types, v: ValRef, bound: nat, x: nat)
    requires TypesOk(ts) && ValOk(ts, v, bound)
    decreases bound, 0
  {
    v.Ref? && Visits(ts, v.id, x)
  }

  ghost predicate VisitsEntity(ts: Types, e: Entity, bound: nat, x: nat)
    requires TypesOk(ts) && EntityOk(ts, e, bound)
    decreases bound, 0
  {
    match e
    case TypeE(created, referenced) => x == created || Visits(ts, referenced, x)
    case ValueE(v) => v.Ref? && Visits(ts, v.id, x)
    case FuncE(id) =>
      PartsOk(ts, id);
      exists i :: 0 <= i < |ArgsOf(ts, id)| && VisitsVal(ts, ArgsOf(ts, id)[i], Peel(ts, id), x)
    case _ =>
      var id := KeyOf(e).value;
      PartsOk(ts, id);
      VisitsMembers(ts, MembersOf(ts, id), Peel(ts, id), x)
  }

  // ----- dependencies lead to where types are defined -----

  /** The import is, or depends on, however indirectly, the one that defines the type. */
  ghost predicate Leads(r: Registry, from: Name, x: nat) {
    x in r.definer && Reaches(r.deps, from, r.definer[x])
  }

  ghost predicate ClosedAt(ts: Types, r: Registry, x: nat)
    requires TypesOk(ts) && x < |ts| && x in r.definer
  {
    forall y: nat :: Visits(ts, x, y) ==> Leads(r, r.definer[x], y)
  }

  /** For every type but those that are being registered, everything it mentions is led to. */
  ghost predicate Closed(ts: Types, r: Registry, open: set<nat>)
    requires TypesOk(ts)
  {
    forall x :: x in r.definer && x !in open && x < |ts| ==> ClosedAt(ts, r, x)
  }

  ghost predicate Grew(a: Registry, b: Registry) {
    && (forall x :: x in a.definer ==> x in b.definer && b.definer[x] == a.definer[x])
    && (forall n, d :: d in DepsOf(a.deps, n) ==> d in DepsOf(b.deps, n))
  }

  lemma ReachesGrew(a: Registry, b: Registry, from: Name, to: Name)
    requires Grew(a, b) && Reaches(a.deps, from, to)
    ensures Reaches(b.deps, from, to)
  {
    var path :| IsPath(a.deps, path) && path[0] == from && path[|path| - 1] == to;
    assert IsPath(b.deps, path);
  }

  lemma LeadsGrew(a: Registry, b: Registry, from: Name, x: nat)
    requires Grew(a, b) && Leads(a, from, x)
    ensures Leads(b, from, x)
  {
    ReachesGrew(a, b, from, a.definer[x]);
  }

  lemma {:induction false} PathJoin(deps: Deps, path: seq<Name>, b: Name)
    requires IsPath(deps, path) && Reaches(deps, path[|path| - 1], b)
    ensures Reaches(deps, path[0], b)
    decreases |path|
  {
    if |path| > 1 {
      assert path[1] in DepsOf(deps, path[0]);
      assert IsPath(deps, path[1..]);
      PathJoin(deps, path[1..], b);
      ReachesThrough(deps, path[0], path[1], b);
    }
  }

  lemma LeadsThrough(r: Registry, from: Name, x: nat, y: nat)
    requires Leads(r, from, x) && Leads(r, r.definer[x], y)
    ensures Leads(r, from, y)
  {
    var path :| IsPath(r.deps, path) && path[0] == from && path[|path| - 1] == r.definer[x];
    PathJoin(r.deps, path, r.definer[y]);
  }

  lemma ClosedGrew(ts: Types, a: Registry, b: Registry, open: set<nat>)
    requires TypesOk(ts) && Closed(ts, a, open) && Grew(a, b)
    requires forall x :: x in b.definer && x !in a.definer ==> x in open
    ensures Closed(ts, b, open)
  {
    hide Leads;
    hide Visits;
    hide Grew;
    forall x | x in b.definer && x !in open && x < |ts|
      ensures ClosedAt(ts, b, x)
    {
      assert x in a.definer && ClosedAt(ts, a, x);
      GrewDefiner(a, b, x);
      forall y: nat | Visits(ts, x, y)
        ensures Leads(b, b.definer[x], y)
      {
        LeadsGrew(a, b, a.definer[x], y);
      }
    }
  }

  lemma GrewDefiner(a: Registry, b: Registry, x: nat)
    requires Grew(a, b) && x in a.definer
    ensures x in b.definer && b.definer[x] == a.definer[x]
  {
  }

  lemma GrewTransitive(a: Registry, b: Registry, c: Registry)
    requires Grew(a, b) && Grew(b, c)
    ensures Grew(a, c)
  {
  }

  lemma EdgeGrows(r: Registry, cur: Name, d: Name)
    ensures Grew(r, Edge(r, cur, d)) && Edge(r, cur, d).definer == r.definer
    ensures Reaches(Edge(r, cur, d).deps, cur, d)
  {
    var now := Edge(r, cur, d);
    ReachesSelf(now.deps, d);
    if d != cur {
      assert DepsOf(now.deps, cur)[|DepsOf(r.deps, cur)|] == d;
      ReachesThrough(now.deps, cur, d, d);
    }
  }

  /** Everything an entity mentions is led to from the import. */
  ghost predicate EntityLed(ts: Types, r: Registry, cur: Name, e: Entity, bound: nat)
    requires TypesOk(ts) && EntityOk(ts, e, bound)
  {
    forall y: nat :: VisitsEntity(ts, e, bound, y) ==> Leads(r, cur, y)
  }

  ghost predicate MembersLed(ts: Types, r: Registry, cur: Name, ns: seq<Named>, bound: nat)
    requires TypesOk(ts) && forall i :: 0 <= i < |ns| ==> EntityOk(ts, ns[i].entity, bound)
  {
    forall y: nat :: VisitsMembers(ts, ns, bound, y) ==> Leads(r, cur, y)
  }

  lemma MembersLedFrom(ts: Types, r: Registry, cur: Name, ns: seq<Named>, bound: nat)
    requires TypesOk(ts) && forall i :: 0 <= i < |ns| ==> EntityOk(ts, ns[i].entity, bound)
    requires forall i :: 0 <= i < |ns| ==>
               EntityOk(ts, ns[i].entity, bound) && EntityLed(ts, r, cur, ns[i].entity, bound)
    ensures MembersLed(ts, r, cur, ns, bound)
  {
    hide EntityOk;
    hide VisitsEntity;
    hide Leads;
    forall y: nat | VisitsMembers(ts, ns, bound, y)
      ensures Leads(r, cur, y)
    {
      var i :| 0 <= i < |ns| && VisitsEntity(ts, ns[i].entity, bound, y);
      assert EntityLed(ts, r, cur, ns[i].entity, bound);
    }
  }

  ghost predicate ValLed(ts: Types, r: Registry, cur: Name, v: ValRef, bound: nat)
    requires TypesOk(ts) && ValOk(ts, v, bound)
  {
    forall y: nat :: VisitsVal(ts, v, bound, y) ==> Leads(r, cur, y)
  }

  ghost predicate TyLed(ts: Types, r: Registry, cur: Name, id: nat)
    requires TypesOk(ts) && id < |ts|
  {
    forall y: nat :: Visits(ts, id, y) ==> Leads(r, cur, y)
  }

  /** Noting that the import defines a type. */
  lemma Defining(ts: Types, r: Registry, cur: Name, id: nat, open: set<nat>)
    requires TypesOk(ts) && Closed(ts, r, open) && id !in r.definer
    ensures var now := r.(definer := r.definer[id := cur]); Grew(r, now) && Closed(ts, now, open + {id})
  {
    hide Visits;
    var now := r.(definer := r.definer[id := cur]);
    assert Closed(ts, r, open + {id});
    ClosedGrew(ts, r, now, open + {id});
  }

  /** Once everything a type mentions is led to from its definer, it is closed. */
  lemma Closing(ts: Types, r: Registry, cur: Name, id: nat, open: set<nat>)
    requires TypesOk(ts) && id < |ts| && Closed(ts, r, open + {id}) && id in r.definer && r.definer[id] == cur
    requires TyLed(ts, r, cur, id)
    ensures Closed(ts, r, open)
  {
    hide Visits;
    hide Leads;
  }

  lemma {:induction false} TyCloses(ts: Types, r: Registry, cur: Name, id: nat, open: set<nat>)
    requires TypesOk(ts) && id < |ts| && Closed(ts, r, open) && (forall p :: p in open ==> id < p)
    requires AfterTy(ts, r, cur, id).Some?
    ensures var now := AfterTy(ts, r, cur, id).value; Grew(r, now) && Closed(ts, now, open) && TyLed(ts, now, cur, id)
    decreases id, 2, 0
  {
    hide Closed;
    hide Leads;
    hide Grew;
    hide AfterVals;
    hide AfterMembers;
    hide Edge;
    hide EntityOk;
    var now := AfterTy(ts, r, cur, id).value;
    if id in r.definer {
      EdgeGrows(r, cur, r.definer[id]);
      ClosedGrew(ts, r, now, open);
      LedFromClosed(ts, now, cur, id, open);
    } else {
      var mid := r.(definer := r.definer[id := cur]);
      Defining(ts, r, cur, id, open);
      assert DefOk(ts, id);
      PartsOk(ts, id);
      match ts[id] {
        case Alias(target) =>
          TyCloses(ts, mid, cur, target, open + {id});
        case Ctor(_, args) =>
          ValsClose(ts, mid, cur, args, id, open + {id});
        case Instance(exports) =>
          MembersClose(ts, mid, cur, exports, id, open + {id});
        case Component(imports, exports) =>
          MembersClose(ts, mid, cur, imports + exports, id, open + {id});
      }
      GrewTransitive(r, mid, now);
      GrewDefiner(mid, now, id);
      LedFromParts(ts, now, cur, id);
      Closing(ts, now, cur, id, open);
    }
  }

  lemma LedFromClosed(ts: Types, r: Registry, cur: Name, id: nat, open: set<nat>)
    requires TypesOk(ts) && id < |ts| && Closed(ts, r, open) && id !in open && id in r.definer
    requires Reaches(r.deps, cur, r.definer[id])
    ensures TyLed(ts, r, cur, id)
  {
    hide Visits;
    assert ClosedAt(ts, r, id);
    forall y: nat | Visits(ts, id, y)
      ensures Leads(r, cur, y)
    {
      LeadsThrough(r, cur, id, y);
    }
  }

  function AllMembers(def: Def): seq<Named>
    requires def.Instance? || def.Component?
  {
    if def.Instance? then def.exports else def.imports + def.exports
  }

  /** A type is led to if its parts are. */
  lemma LedFromParts(ts: Types, r: Registry, cur: Name, id: nat)
    requires TypesOk(ts) && id < |ts| && id in r.definer && r.definer[id] == cur
    requires ts[id].Alias? ==> ts[id].target < id && TyLed(ts, r, cur, ts[id].target)
    requires ts[id].Ctor? ==> forall i :: 0 <= i < |ts[id].args| ==>
               ValOk(ts, ts[id].args[i], id) && ValLed(ts, r, cur, ts[id].args[i], id)
    requires ts[id].Instance? || ts[id].Component? ==>
               && (forall i :: 0 <= i < |AllMembers(ts[id])| ==> EntityOk(ts, AllMembers(ts[id])[i].entity, id))
               && MembersLed(ts, r, cur, AllMembers(ts[id]), id)
    ensures TyLed(ts, r, cur, id)
  {
    hide EntityOk;
    hide VisitsEntity;
    hide VisitsMembers;
    hide Leads;
    ReachesSelf(r.deps, cur);
    LeadsSelf(r, cur, id);
  }

  lemma LeadsSelf(r: Registry, cur: Name, id: nat)
    requires id in r.definer && r.definer[id] == cur && Reaches(r.deps, cur, cur)
    ensures Leads(r, cur, id)
  {
  }

  lemma {:induction false} ValsClose(ts: Types, r: Registry, cur: Name, args: seq<ValRef>, bound: nat, open: set<nat>)
    requires TypesOk(ts) && (forall i :: 0 <= i < |args| ==> ValOk(ts, args[i], bound))
    requires Closed(ts, r, open) && (forall p :: p in open ==> bound <= p) && AfterVals(ts, r, cur, args, bound).Some?
    ensures var now := AfterVals(ts, r, cur, args, bound).value;
            && Grew(r, now) && Closed(ts, now, open)
            && forall i :: 0 <= i < |args| ==> ValOk(ts, args[i], bound) && ValLed(ts, now, cur, args[i], bound)
    decreases bound, 1, |args|
  {
    hide Closed;
    hide Grew;
    hide AfterTy;
    hide ValLed;
    hide ValOk;
    if args == [] {
      GrewSelf(r);
    } else {
      var n := |args| - 1;
      ValsClose(ts, r, cur, args[..n], bound, open);
      var mid := AfterVals(ts, r, cur, args[..n], bound).value;
      ValCloses(ts, mid, cur, args[n], bound, open);
      var now := AfterVals(ts, r, cur, args, bound).value;
      GrewTransitive(r, mid, now);
      forall i | 0 <= i < n
        ensures ValLed(ts, now, cur, args[i], bound)
      {
        assert args[..n][i] == args[i];
        ValLedGrew(ts, mid, now, cur, args[i], bound);
      }
    }
  }

  lemma GrewSelf(r: Registry)
    ensures Grew(r, r)
  {
  }

  lemma ValLedGrew(ts: Types, a: Registry, b: Registry, cur: Name, v: ValRef, bound: nat)
    requires TypesOk(ts) && ValOk(ts, v, bound) && Grew(a, b) && ValLed(ts, a, cur, v, bound)
    ensures ValLed(ts, b, cur, v, bound)
  {
    hide Visits;
    hide Grew;
    hide Leads;
    forall y: nat | VisitsVal(ts, v, bound, y)
      ensures Leads(b, cur, y)
    {
      LeadsGrew(a, b, cur, y);
    }
  }

  lemma EntityLedGrew(ts: Types, a: Registry, b: Registry, cur: Name, e: Entity, bound: nat)
    requires TypesOk(ts) && EntityOk(ts, e, bound) && Grew(a, b) && EntityLed(ts, a, cur, e, bound)
    ensures EntityLed(ts, b, cur, e, bound)
  {
    hide VisitsEntity;
    hide Grew;
    hide Leads;
    forall y: nat | VisitsEntity(ts, e, bound, y)
      ensures Leads(b, cur, y)
    {
      LeadsGrew(a, b, cur, y);
    }
  }

  lemma {:induction false} ValCloses(ts: Types, r: Registry, cur: Name, v: ValRef, bound: nat, open: set<nat>)
    requires TypesOk(ts) && ValOk(ts, v, bound) && Closed(ts, r, open) && (forall p :: p in open ==> bound <= p)
    requires AfterVal(ts, r, cur, v, bound).Some?
    ensures var now := AfterVal(ts, r, cur, v, bound).value;
            Grew(r, now) && Closed(ts, now, open) && ValLed(ts, now, cur, v, bound)
    decreases bound, 0, 0
  {
    hide Closed;
    hide Leads;
    hide Visits;
    if v.Ref? {
      TyCloses(ts, r, cur, v.id, open);
    }
  }

  lemma {:induction false} MembersClose(ts: Types, r: Registry, cur: Name, ns: seq<Named>, bound: nat, open: set<nat>)
    requires TypesOk(ts) && (forall i :: 0 <= i < |ns| ==> EntityOk(ts, ns[i].entity, bound))
    requires Closed(ts, r, open) && (forall p :: p in open ==> bound <= p) && AfterMembers(ts, r, cur, ns, bound).Some?
    ensures var now := AfterMembers(ts, r, cur, ns, bound).value;
            && Grew(r, now) && Closed(ts, now, open)
            && MembersLed(ts, now, cur, ns, bound)
            && forall i :: 0 <= i < |ns| ==>
                 EntityOk(ts, ns[i].entity, bound) && EntityLed(ts, now, cur, ns[i].entity, bound)
    decreases bound, 1, |ns|
  {
    hide Closed;
    hide Grew;
    hide AfterEntity;
    hide EntityLed;
    hide MembersLed;
    hide EntityOk;
    if ns == [] {
      GrewSelf(r);
      MembersLedFrom(ts, r, cur, [], bound);
    } else {
      var n := |ns| - 1;
      MembersClose(ts, r, cur, ns[..n], bound, open);
      var mid := AfterMembers(ts, r, cur, ns[..n], bound).value;
      EntityCloses(ts, mid, cur, ns[n].entity, bound, open);
      var now := AfterMembers(ts, r, cur, ns, bound).value;
      GrewTransitive(r, mid, now);
      forall i | 0 <= i < n
        ensures EntityLed(ts, now, cur, ns[i].entity, bound)
      {
        assert ns[..n][i] == ns[i];
        EntityLedGrew(ts, mid, now, cur, ns[i].entity, bound);
      }
      MembersLedFrom(ts, now, cur, ns, bound);
    }
  }

  lemma {:induction false} EntityCloses(ts: Types, r: Registry, cur: Name, e: Entity, bound: nat, open: set<nat>)
    requires TypesOk(ts) && EntityOk(ts, e, bound) && Closed(ts, r, open) && (forall p :: p in open ==> bound <= p)
    requires AfterEntity(ts, r, cur, e, bound).Some?
    ensures var now := AfterEntity(ts, r, cur, e, bound).value;
            Grew(r, now) && Closed(ts, now, open) && EntityLed(ts, now, cur, e, bound)
    decreases bound, 0, 1
  {
    hide Closed;
    hide Grew;
    hide Leads;
    hide Visits;
    hide VisitsMembers;
    hide AfterTy;
    hide AfterVals;
    hide AfterMembers;
    var now := AfterEntity(ts, r, cur, e, bound).value;
    match e {
      case TypeE(created, referenced) =>
        var mid := r.(definer := r.definer[created := cur]);
        Defining(ts, r, cur, created, open);
        TyCloses(ts, mid, cur, referenced, open + {created});
        GrewTransitive(r, mid, now);
        GrewDefiner(mid, now, created);
        LedFromParts(ts, now, cur, created);
        Closing(ts, now, cur, created, open);
        ReachesSelf(now.deps, cur);
        LeadsSelf(now, cur, created);
      case ValueE(v) =>
        ValCloses(ts, r, cur, v, bound, open);
      case FuncE(id) =>
        PartsOk(ts, id);
        ValsClose(ts, r, cur, ArgsOf(ts, id), Peel(ts, id), open);
      case InstanceE(id) =>
        PartsOk(ts, id);
        MembersClose(ts, r, cur, MembersOf(ts, id), Peel(ts, id), open);
      case ComponentE(id) =>
        PartsOk(ts, id);
        MembersClose(ts, r, cur, MembersOf(ts, id), Peel(ts, id), open);
    }
  }

  // ----- all imports of a component -----

  ghost predicate ImportsOk(ts: Types, imports: seq<Named>) {
    TypesOk(ts) && forall i :: 0 <= i < |imports| ==> EntityOk(ts, imports[i].entity, |ts|)
  }

  /** From every import the dependencies lead to the definer of every type it mentions. */
  lemma {:induction false} ImportsLed(ts: Types, deps: Deps, imports: seq<Named>, n: nat)
    requires ImportsOk(ts, imports) && n <= |imports|
    requires AfterImports(ts, Registry(map[], deps), imports[..n]).Some?
    ensures var now := AfterImports(ts, Registry(map[], deps), imports[..n]).value;
            && Grew(Registry(map[], deps), now) && Closed(ts, now, {})
            && forall i :: 0 <= i < n ==>
                 EntityOk(ts, imports[i].entity, |ts|) && EntityLed(ts, now, imports[i].name, imports[i].entity, |ts|)
    decreases n
  {
    hide Grew;
    hide EntityLed;
    hide EntityOk;
    hide AfterEntity;
    var start := Registry(map[], deps);
    if n == 0 {
      GrewSelf(start);
    } else {
      assert imports[..n][..n - 1] == imports[..n - 1];
      ImportsLed(ts, deps, imports, n - 1);
      var mid := AfterImports(ts, start, imports[..n - 1]).value;
      var now := AfterImports(ts, start, imports[..n]).value;
      var last := imports[n - 1];
      hide Closed;
      EntityCloses(ts, mid, last.name, last.entity, |ts|, {});
      GrewTransitive(start, mid, now);
      forall i | 0 <= i < n - 1
        ensures EntityLed(ts, now, imports[i].name, imports[i].entity, |ts|)
      {
        EntityLedGrew(ts, mid, now, imports[i].name, imports[i].entity, |ts|);
      }
    }
  }

  /** The imports in front of and including position `i`. */
  lemma {:induction false} PathEarlier(deps: Deps, order: seq<Name>, path: seq<Name>, i: nat)
    requires IsPath(deps, path) && i < |order| && order[i] == path[0]
    requires forall j, d :: 0 <= j < |order| && d in DepsOf(deps, order[j]) ==> d in order[..j]
    ensures path[|path| - 1] in order[..i + 1]
    decreases |path|
  {
    if |path| == 1 {
      assert order[..i + 1][i] == path[0];
    } else {
      assert path[1] in DepsOf(deps, path[0]);
      var k :| 0 <= k < |order[..i]| && order[..i][k] == path[1];
      assert IsPath(deps, path[1..]);
      PathEarlier(deps, order, path[1..], k);
      assert order[..k + 1] <= order[..i + 1];
    }
  }

  /** What the dependencies are for: once imports are sorted, a type is imported before it is used. */
  lemma DefinedBeforeUse(ts: Types, deps: Deps, imports: seq<Named>, order: seq<Name>, a: nat, i: nat, x: nat)
    requires ImportsOk(ts, imports) && AfterImports(ts, Registry(map[], deps), imports).Some?
    requires var now := AfterImports(ts, Registry(map[], deps), imports).value;
             forall j, d :: 0 <= j < |order| && d in DepsOf(now.deps, order[j]) ==> d in order[..j]
    requires a < |imports| && i < |order| && order[i] == imports[a].name
    requires EntityOk(ts, imports[a].entity, |ts|) && VisitsEntity(ts, imports[a].entity, |ts|, x)
    ensures var now := AfterImports(ts, Registry(map[], deps), imports).value;
            x in now.definer && now.definer[x] in order[..i + 1]
  {
    hide VisitsEntity;
    hide AfterImports;
    hide Closed;
    assert imports[..|imports|] == imports;
    ImportsLed(ts, deps, imports, |imports|);
    var now := AfterImports(ts, Registry(map[], deps), imports).value;
    assert EntityLed(ts, now, imports[a].name, imports[a].entity, |ts|);
    assert Leads(now, imports[a].name, x);
    var path :| IsPath(now.deps, path) && path[0] == imports[a].name && path[|path| - 1] == now.definer[x];
    PathEarlier(now.deps, order, path, i);
  }

  // ----- what one step may change -----

  ghost predicate IsEdge(deps: Deps, n: Name, d: Name) {
    d in DepsOf(deps, n)
  }

  ghost predicate Defines(r: Registry, n: Name) {
    exists x :: x in r.definer && r.definer[x] == n
  }

  /** New edges lead from the import to others that defined something before. */
  ghost predicate EdgesBack(cur: Name, a: Registry, b: Registry) {
    forall n, d :: IsEdge(b.deps, n, d) ==> IsEdge(a.deps, n, d) || (n == cur && d != cur && Defines(a, d))
  }

  /** Newly registered types are below `bound` and defined by the import. */
  ghost predicate NewBelow(cur: Name, bound: nat, a: Registry, b: Registry) {
    forall x :: x in b.definer && x !in a.definer ==> x < bound && b.definer[x] == cur
  }

  /** An instance type of which a created type is known is not walked any more. */
  ghost predicate StaysOut(ts: Types, a: Registry, b: Registry) {
    forall t, x :: Creates(ts, t, x) && x in a.definer && t !in a.definer ==> t !in b.definer
  }

  ghost predicate Moves(ts: Types, cur: Name, bound: nat, a: Registry, b: Registry) {
    Grew(a, b) && NewBelow(cur, bound, a, b) && EdgesBack(cur, a, b) && StaysOut(ts, a, b)
  }

  lemma MovesSelf(ts: Types, cur: Name, bound: nat, r: Registry)
    ensures Moves(ts, cur, bound, r, r)
  {
  }

  lemma MovesTransitive(ts: Types, cur: Name, bound: nat, a: Registry, b: Registry, c: Registry)
    requires Moves(ts, cur, bound, a, b) && Moves(ts, cur, bound, b, c)
    ensures Moves(ts, cur, bound, a, c)
  {
    hide Creates;
    hide IsEdge;
    GrewTransitive(a, b, c);
    forall n, d | IsEdge(c.deps, n, d) && !IsEdge(a.deps, n, d)
      ensures n == cur && d != cur && Defines(a, d)
    {
      if !IsEdge(b.deps, n, d) {
        var x :| x in b.definer && b.definer[x] == d;
        assert x in a.definer && a.definer[x] == d;
      }
    }
  }

  lemma MovesWider(ts: Types, cur: Name, small: nat, bound: nat, a: Registry, b: Registry)
    requires Moves(ts, cur, small, a, b) && small <= bound
    ensures Moves(ts, cur, bound, a, b)
  {
    hide Creates;
    hide IsEdge;
    hide Grew;
  }

  lemma EdgeMoves(ts: Types, r: Registry, cur: Name, id: nat)
    requires id in r.definer
    ensures Moves(ts, cur, id + 1, r, Edge(r, cur, r.definer[id]))
  {
    hide Creates;
    EdgeGrows(r, cur, r.definer[id]);
  }

  /** A type is noted and its parts are registered: that is one step, if the type can be walked. */
  lemma DefineMoves(ts: Types, r: Registry, cur: Name, id: nat, now: Registry)
    requires id !in r.definer && Moves(ts, cur, id, r.(definer := r.definer[id := cur]), now)
    requires forall x: nat :: Creates(ts, id, x) ==> x !in r.definer
    ensures Moves(ts, cur, id + 1, r, now)
  {
    hide IsEdge;
    var mid := r.(definer := r.definer[id := cur]);
    assert Grew(r, mid);
    GrewTransitive(r, mid, now);
    forall n, d | IsEdge(now.deps, n, d) && !IsEdge(r.deps, n, d)
      ensures n == cur && d != cur && Defines(r, d)
    {
      assert !IsEdge(mid.deps, n, d);
      var x :| x in mid.definer && mid.definer[x] == d;
      assert x in r.definer && r.definer[x] == d;
    }
    forall t, x | Creates(ts, t, x) && x in r.definer && t !in r.definer
      ensures t !in now.definer
    {
      assert x in mid.definer;
    }
  }

  /** Creating a type, which is not an instance type, and registering what it names. */
  lemma CreateMoves(ts: Types, r: Registry, cur: Name, created: nat, now: Registry)
    requires created < |ts| && ts[created].Alias? && created !in r.definer
    requires Moves(ts, cur, created, r.(definer := r.definer[created := cur]), now)
    ensures Moves(ts, cur, created + 1, r, now)
  {
    DefineMoves(ts, r, cur, created, now);
  }

  lemma {:induction false} TyMoves(ts: Types, r: Registry, cur: Name, id: nat)
    requires TypesOk(ts) && id < |ts| && AfterTy(ts, r, cur, id).Some?
    ensures Moves(ts, cur, id + 1, r, AfterTy(ts, r, cur, id).value)
    decreases id, 2, 0
  {
    hide Moves;
    hide AfterVals;
    hide AfterMembers;
    hide Edge;
    if id in r.definer {
      EdgeMoves(ts, r, cur, id);
    } else {
      assert DefOk(ts, id);
      PartsOk(ts, id);
      var mid, now := r.(definer := r.definer[id := cur]), AfterTy(ts, r, cur, id).value;
      match ts[id] {
        case Alias(target) =>
          TyMoves(ts, mid, cur, target);
          MovesWider(ts, cur, target + 1, id, mid, now);
        case Ctor(_, args) =>
          ValsMove(ts, mid, cur, args, id);
        case Instance(exports) =>
          MembersMove(ts, mid, cur, exports, id);
          forall x: nat | Creates(ts, id, x)
            ensures x !in r.definer
          {
            if x in r.definer {
              var k :| 0 <= k < |exports| && exports[k].entity.TypeE? && exports[k].entity.created == x;
              MembersAgain(ts, mid, cur, exports, id, k);
            }
          }
        case Component(imports, exports) =>
          MembersMove(ts, mid, cur, imports + exports, id);
      }
      DefineMoves(ts, r, cur, id, now);
    }
  }

  lemma {:induction false} ValsMove(ts: Types, r: Registry, cur: Name, args: seq<ValRef>, bound: nat)
    requires TypesOk(ts) && (forall i :: 0 <= i < |args| ==> ValOk(ts, args[i], bound))
    requires AfterVals(ts, r, cur, args, bound).Some?
    ensures Moves(ts, cur, bound, r, AfterVals(ts, r, cur, args, bound).value)
    decreases bound, 1, |args|
  {
    hide Moves;
    hide AfterTy;
    MovesSelf(ts, cur, bound, r);
    if args != [] {
      var n := |args| - 1;
      ValsMove(ts, r, cur, args[..n], bound);
      var mid, now := AfterVals(ts, r, cur, args[..n], bound).value, AfterVals(ts, r, cur, args, bound).value;
      if args[n].Ref? {
        assert ValOk(ts, args[n], bound);
        TyMoves(ts, mid, cur, args[n].id);
        MovesWider(ts, cur, args[n].id + 1, bound, mid, now);
        MovesTransitive(ts, cur, bound, r, mid, now);
      }
    }
  }

  lemma {:induction false} MembersMove(ts: Types, r: Registry, cur: Name, ns: seq<Named>, bound: nat)
    requires TypesOk(ts) && (forall i :: 0 <= i < |ns| ==> EntityOk(ts, ns[i].entity, bound))
    requires AfterMembers(ts, r, cur, ns, bound).Some?
    ensures Moves(ts, cur, bound, r, AfterMembers(ts, r, cur, ns, bound).value)
    decreases bound, 1, |ns|
  {
    hide Moves;
    hide AfterEntity;
    hide EntityOk;
    MovesSelf(ts, cur, bound, r);
    if ns != [] {
      var n := |ns| - 1;
      MembersMove(ts, r, cur, ns[..n], bound);
      var mid, now := AfterMembers(ts, r, cur, ns[..n], bound).value, AfterMembers(ts, r, cur, ns, bound).value;
      EntityMoves(ts, mid, cur, ns[n].entity, bound);
      MovesTransitive(ts, cur, bound, r, mid, now);
    }
  }

  lemma {:induction false} EntityMoves(ts: Types, r: Registry, cur: Name, e: Entity, bound: nat)
    requires TypesOk(ts) && EntityOk(ts, e, bound) && AfterEntity(ts, r, cur, e, bound).Some?
    ensures Moves(ts, cur, bound, r, AfterEntity(ts, r, cur, e, bound).value)
    decreases bound, 0, 1
  {
    hide Moves;
    hide AfterTy;
    hide AfterVals;
    hide AfterMembers;
    var now := AfterEntity(ts, r, cur, e, bound).value;
    match e {
      case TypeE(created, referenced) =>
        var mid := r.(definer := r.definer[created := cur]);
        TyMoves(ts, mid, cur, referenced);
        MovesWider(ts, cur, referenced + 1, created, mid, now);
        CreateMoves(ts, r, cur, created, now);
        MovesWider(ts, cur, created + 1, bound, r, now);
      case ValueE(v) =>
        MovesSelf(ts, cur, bound, r);
        if v.Ref? {
          TyMoves(ts, r, cur, v.id);
          MovesWider(ts, cur, v.id + 1, bound, r, now);
        }
      case FuncE(id) =>
        PartsOk(ts, id);
        ValsMove(ts, r, cur, ArgsOf(ts, id), Peel(ts, id));
        MovesWider(ts, cur, Peel(ts, id), bound, r, now);
      case InstanceE(id) =>
        PartsOk(ts, id);
        MembersMove(ts, r, cur, MembersOf(ts, id), Peel(ts, id));
        MovesWider(ts, cur, Peel(ts, id), bound, r, now);
      case ComponentE(id) =>
        PartsOk(ts, id);
        MembersMove(ts, r, cur, MembersOf(ts, id), Peel(ts, id));
        MovesWider(ts, cur, Peel(ts, id), bound, r, now);
    }
  }

  /** A list that creates a type that is known fails. */
  lemma {:induction false} MembersAgain(ts: Types, r: Registry, cur: Name, ns: seq<Named>, bound: nat, k: nat)
    requires TypesOk(ts) && (forall i :: 0 <= i < |ns| ==> EntityOk(ts, ns[i].entity, bound))
    requires k < |ns| && ns[k].entity.TypeE? && ns[k].entity.created in r.definer
    ensures AfterMembers(ts, r, cur, ns, bound).None?
    decreases bound, 1, |ns|
  {
    hide EntityOk;
    var init := AfterMembers(ts, r, cur, ns[..k], bound);
    if init.Some? {
      MembersMove(ts, r, cur, ns[..k], bound);
      GrewDefiner(r, init.value, ns[k].entity.created);
    }
    assert ns[..k + 1][..k] == ns[..k];
    MembersFail(ts, r, cur, ns, k + 1, bound);
  }

  // ----- edges are needed -----

  /** A new edge leads from the import to the definer of one of these types. */
  ghost predicate EdgesFor(cur: Name, a: Registry, b: Registry, types: set<nat>) {
    forall n, d :: IsEdge(b.deps, n, d) && !IsEdge(a.deps, n, d) ==> n == cur && DefinesOneOf(b, d, types)
  }

  ghost predicate DefinesOneOf(r: Registry, d: Name, types: set<nat>) {
    exists x :: x in types && x in r.definer && r.definer[x] == d
  }

  ghost function TypesOf(ts: Types, id: nat): set<nat>
    requires TypesOk(ts) && id < |ts|
  {
    set x: nat | x < |ts| && Visits(ts, id, x)
  }

  ghost function EntityTypes(ts: Types, e: Entity, bound: nat): set<nat>
    requires TypesOk(ts) && EntityOk(ts, e, bound)
  {
    set x: nat | x < |ts| && VisitsEntity(ts, e, bound, x)
  }

  lemma EdgesThen(cur: Name, a: Registry, b: Registry, c: Registry, types: set<nat>)
    requires EdgesFor(cur, a, b, types) && EdgesFor(cur, b, c, types) && Grew(b, c)
    ensures EdgesFor(cur, a, c, types)
  {
    hide IsEdge;
    forall n, m | IsEdge(c.deps, n, m) && !IsEdge(a.deps, n, m)
      ensures n == cur && DefinesOneOf(c, m, types)
    {
      if IsEdge(b.deps, n, m) {
        var x :| x in types && x in b.definer && b.definer[x] == m;
        assert x in c.definer && c.definer[x] == m;
      }
    }
  }

  lemma EdgeIsFor(cur: Name, r: Registry, id: nat, types: set<nat>)
    requires id in r.definer && id in types
    ensures EdgesFor(cur, r, Edge(r, cur, r.definer[id]), types)
  {
    var now := Edge(r, cur, r.definer[id]);
    assert DefinesOneOf(now, r.definer[id], types);
  }

  lemma NoEdges(cur: Name, a: Registry, b: Registry, types: set<nat>)
    requires a.deps == b.deps
    ensures EdgesFor(cur, a, b, types)
  {
  }

  lemma {:induction false} TyEdges(ts: Types, r: Registry, cur: Name, id: nat, types: set<nat>)
    requires TypesOk(ts) && id < |ts| && AfterTy(ts, r, cur, id).Some? && TypesOf(ts, id) <= types
    ensures EdgesFor(cur, r, AfterTy(ts, r, cur, id).value, types)
    decreases id, 2, 0
  {
    hide EdgesFor;
    hide AfterVals;
    hide AfterMembers;
    hide Edge;
    if id in r.definer {
      assert Visits(ts, id, id);
      EdgeIsFor(cur, r, id, types);
    } else {
      assert DefOk(ts, id);
      PartsOk(ts, id);
      var mid, now := r.(definer := r.definer[id := cur]), AfterTy(ts, r, cur, id).value;
      match ts[id] {
        case Alias(target) =>
          TyEdges(ts, mid, cur, target, types);
        case Ctor(_, args) =>
          ValsEdges(ts, mid, cur, args, id, types);
        case Instance(exports) =>
          MembersEdges(ts, mid, cur, exports, id, types);
        case Component(imports, exports) =>
          MembersEdges(ts, mid, cur, imports + exports, id, types);
      }
      SameStart(cur, r, mid, now, types);
    }
  }

  lemma SameStart(cur: Name, a: Registry, b: Registry, c: Registry, types: set<nat>)
    requires a.deps == b.deps && EdgesFor(cur, b, c, types)
    ensures EdgesFor(cur, a, c, types)
  {
  }

  lemma {:induction false} ValsEdges(ts: Types, r: Registry, cur: Name, args: seq<ValRef>, bound: nat, types: set<nat>)
    requires TypesOk(ts) && (forall i :: 0 <= i < |args| ==> ValOk(ts, args[i], bound))
    requires AfterVals(ts, r, cur, args, bound).Some?
    requires forall i, x: nat :: 0 <= i < |args| && x < |ts| && VisitsVal(ts, args[i], bound, x) ==> x in types
    ensures EdgesFor(cur, r, AfterVals(ts, r, cur, args, bound).value, types)
    decreases bound, 1, |args|
  {
    hide EdgesFor;
    hide AfterTy;
    if args == [] {
      NoEdges(cur, r, r, types);
    } else {
      var n := |args| - 1;
      forall i, x: nat | 0 <= i < |args[..n]| && x < |ts| && VisitsVal(ts, args[..n][i], bound, x)
        ensures x in types
      {
        assert args[..n][i] == args[i];
      }
      ValsEdges(ts, r, cur, args[..n], bound, types);
      var mid, now := AfterVals(ts, r, cur, args[..n], bound).value, AfterVals(ts, r, cur, args, bound).value;
      if args[n].Ref? {
        assert ValOk(ts, args[n], bound);
        forall x | x in TypesOf(ts, args[n].id)
          ensures x in types
        {
          assert VisitsVal(ts, args[n], bound, x);
        }
        TyEdges(ts, mid, cur, args[n].id, types);
        TyMoves(ts, mid, cur, args[n].id);
        EdgesThen(cur, r, mid, now, types);
      }
    }
  }

  lemma {:induction false} MembersEdges(ts: Types, r: Registry, cur: Name, ns: seq<Named>, bound: nat, types: set<nat>)
    requires TypesOk(ts) && (forall i :: 0 <= i < |ns| ==> EntityOk(ts, ns[i].entity, bound))
    requires AfterMembers(ts, r, cur, ns, bound).Some?
    requires forall x: nat :: x < |ts| && VisitsMembers(ts, ns, bound, x) ==> x in types
    ensures EdgesFor(cur, r, AfterMembers(ts, r, cur, ns, bound).value, types)
    decreases bound, 1, |ns|
  {
    hide EdgesFor;
    hide AfterEntity;
    hide EntityOk;
    hide VisitsEntity;
    if ns == [] {
      NoEdges(cur, r, r, types);
    } else {
      var n := |ns| - 1;
      forall x: nat | x < |ts| && VisitsMembers(ts, ns[..n], bound, x)
        ensures x in types
      {
        var i :| 0 <= i < n && VisitsEntity(ts, ns[..n][i].entity, bound, x);
        assert ns[..n][i] == ns[i] && VisitsMembers(ts, ns, bound, x);
      }
      MembersEdges(ts, r, cur, ns[..n], bound, types);
      var mid, now := AfterMembers(ts, r, cur, ns[..n], bound).value, AfterMembers(ts, r, cur, ns, bound).value;
      forall x | x in EntityTypes(ts, ns[n].entity, bound)
        ensures x in types
      {
        assert VisitsMembers(ts, ns, bound, x);
      }
      EntityEdges(ts, mid, cur, ns[n].entity, bound, types);
      EntityMoves(ts, mid, cur, ns[n].entity, bound);
      EdgesThen(cur, r, mid, now, types);
    }
  }

  /** An import depends on another only if it mentions a type that the other one defines. */
  lemma {:induction false} EntityEdges(ts: Types, r: Registry, cur: Name, e: Entity, bound: nat, types: set<nat>)
    requires TypesOk(ts) && EntityOk(ts, e, bound) && AfterEntity(ts, r, cur, e, bound).Some?
    requires EntityTypes(ts, e, bound) <= types
    ensures EdgesFor(cur, r, AfterEntity(ts, r, cur, e, bound).value, types)
    decreases bound, 0, 1
  {
    hide EdgesFor;
    hide AfterTy;
    hide AfterVals;
    hide AfterMembers;
    hide VisitsMembers;
    hide Visits;
    var now := AfterEntity(ts, r, cur, e, bound).value;
    match e {
      case TypeE(created, referenced) =>
        var mid := r.(definer := r.definer[created := cur]);
        TyEdges(ts, mid, cur, referenced, types);
        SameStart(cur, r, mid, now, types);
      case ValueE(v) =>
        if v.Ref? {
          TyEdges(ts, r, cur, v.id, types);
        } else {
          NoEdges(cur, r, r, types);
        }
      case FuncE(id) =>
        PartsOk(ts, id);
        ValsEdges(ts, r, cur, ArgsOf(ts, id), Peel(ts, id), types);
      case InstanceE(id) =>
        PartsOk(ts, id);
        MembersEdges(ts, r, cur, MembersOf(ts, id), Peel(ts, id), types);
      case ComponentE(id) =>
        PartsOk(ts, id);
        MembersEdges(ts, r, cur, MembersOf(ts, id), Peel(ts, id), types);
    }
  }

  // ----- edges go back -----

  /** Every import depends on earlier imports only, so a single component has no cycles. */
  lemma {:induction false} ImportsGoBack(ts: Types, imports: seq<Named>, n: nat, rank: Name -> nat)
    requires ImportsOk(ts, imports) && n <= |imports| && AfterImports(ts, Registry(map[], map[]), imports[..n]).Some?
    requires forall i, j :: 0 <= i < j < |imports| ==> rank(imports[i].name) < rank(imports[j].name)
    ensures var now := AfterImports(ts, Registry(map[], map[]), imports[..n]).value;
            && Ranks(now.deps, rank)
            && forall x :: x in now.definer ==> exists i :: 0 <= i < n && now.definer[x] == imports[i].name
    decreases n
  {
    hide AfterEntity;
    hide EntityOk;
    var start := Registry(map[], map[]);
    if n > 0 {
      assert imports[..n][..n - 1] == imports[..n - 1];
      ImportsGoBack(ts, imports, n - 1, rank);
      var last := imports[n - 1];
      var mid := AfterImports(ts, start, imports[..n - 1]).value;
      var now := AfterImports(ts, start, imports[..n]).value;
      EntityMoves(ts, mid, last.name, last.entity, |ts|);
      forall m, d | m in now.deps && d in now.deps[m]
        ensures rank(d) < rank(m)
      {
        assert IsEdge(now.deps, m, d);
        if !IsEdge(mid.deps, m, d) {
          var x :| x in mid.definer && mid.definer[x] == d;
          var i :| 0 <= i < n - 1 && mid.definer[x] == imports[i].name;
        } else {
          assert m in mid.deps;
        }
      }
      forall x | x in now.definer
        ensures exists i :: 0 <= i < n && now.definer[x] == imports[i].name
      {
        if x in mid.definer {
          var i :| 0 <= i < n - 1 && mid.definer[x] == imports[i].name;
          assert now.definer[x] == imports[i].name;
        } else {
          assert now.definer[x] == imports[n - 1].name;
        }
      }
    }
  }

  function Position(imports: seq<Named>, name: Name): nat {
    if imports == [] then 0
    else if imports[0].name == name then 0
    else 1 + Position(imports[1..], name)
  }

  lemma {:induction false} PositionAt(imports: seq<Named>, i: nat)
    requires i < |imports| && forall j, k :: 0 <= j < k < |imports| ==> imports[j].name != imports[k].name
    ensures Position(imports, imports[i].name) == i
  {
    if i > 0 {
      PositionAt(imports[1..], i - 1);
    }
  }

  /** The search for an order ends for the imports of one component. */
  lemma OneComponentAcyclic(ts: Types, imports: seq<Named>)
    requires ImportsOk(ts, imports) && AfterImports(ts, Registry(map[], map[]), imports).Some?
    requires forall i, j :: 0 <= i < j < |imports| ==> imports[i].name != imports[j].name
    ensures Acyclic(AfterImports(ts, Registry(map[], map[]), imports).value.deps)
  {
    hide AfterImports;
    hide EntityOk;
    var rank := n => Position(imports, n);
    forall i, j | 0 <= i < j < |imports|
      ensures rank(imports[i].name) < rank(imports[j].name)
    {
      PositionAt(imports, i);
      PositionAt(imports, j);
    }
    assert imports[..|imports|] == imports;
    ImportsGoBack(ts, imports, |imports|, rank);
  }

  // ----- one instance type met twice -----

  /** The entity is an instance of the type `t`, or a name for it. */
  predicate Meets(ts: Types, e: Entity, t: nat) {
    && (e.InstanceE? || e.TypeE?) && KeyOf(e).value < |ts|
    && Peel(ts, KeyOf(e).value) == t && ts[t].Instance?
  }

  lemma {:induction false} PeelVisited(ts: Types, id: nat, x: nat)
    requires TypesOk(ts) && id < |ts| && Visits(ts, Peel(ts, id), x)
    ensures Visits(ts, id, x)
    decreases id
  {
    assert DefOk(ts, id);
    if ts[id].Alias? {
      PeelVisited(ts, ts[id].target, x);
    }
  }

  /** What the instance type creates is mentioned, and by a name the type itself too. */
  lemma MeetsVisits(ts: Types, e: Entity, bound: nat, t: nat, x: nat)
    requires TypesOk(ts) && EntityOk(ts, e, bound) && Meets(ts, e, t) && Creates(ts, t, x)
    ensures VisitsEntity(ts, e, bound, x)
    ensures e.TypeE? ==> VisitsEntity(ts, e, bound, t)
  {
    hide EntityOk;
    hide VisitsMembers;
    PartsOk(ts, t);
    var ns := ts[t].exports;
    var k :| 0 <= k < |ns| && ns[k].entity.TypeE? && ns[k].entity.created == x;
    assert DefOk(ts, t);
    VisitsCreated(ts, ns, t, k, x);
    if e.TypeE? {
      KeyBelow(ts, e, bound);
      PeelVisited(ts, e.referenced, x);
      PeelVisited(ts, e.referenced, t);
    } else {
      PartsOk(ts, e.id);
    }
  }

  lemma KeyBelow(ts: Types, e: Entity, bound: nat)
    requires EntityOk(ts, e, bound) && e.TypeE?
    ensures e.referenced < |ts|
  {
  }

  lemma VisitsCreated(ts: Types, ns: seq<Named>, bound: nat, k: nat, x: nat)
    requires TypesOk(ts) && (forall i :: 0 <= i < |ns| ==> EntityOk(ts, ns[i].entity, bound)) && k < |ns|
    requires ns[k].entity.TypeE? && ns[k].entity.created == x
    ensures VisitsMembers(ts, ns, bound, x)
  {
    hide EntityOk;
    hide Visits;
    assert VisitsEntity(ts, ns[k].entity, bound, x);
  }

  /** An instance of a type of which a created type is known fails. */
  lemma AgainFails(ts: Types, r: Registry, cur: Name, e: Entity, bound: nat, t: nat, x: nat)
    requires TypesOk(ts) && EntityOk(ts, e, bound) && Meets(ts, e, t) && e.InstanceE? && Creates(ts, t, x)
    requires x in r.definer
    ensures AfterEntity(ts, r, cur, e, bound).None?
  {
    hide AfterMembers;
    PartsOk(ts, e.id);
    var ns := ts[t].exports;
    assert MembersOf(ts, e.id) == ns;
    var k :| 0 <= k < |ns| && ns[k].entity.TypeE? && ns[k].entity.created == x;
    MembersAgain(ts, r, cur, ns, t, k);
  }

  /** After an instance of it the type itself is not registered, only what it creates. */
  lemma InstanceStaysOut(ts: Types, r: Registry, cur: Name, e: Entity, bound: nat, t: nat, x: nat)
    requires TypesOk(ts) && EntityOk(ts, e, bound) && Meets(ts, e, t) && e.InstanceE? && Creates(ts, t, x)
    requires Closed(ts, r, {}) && AfterEntity(ts, r, cur, e, bound).Some?
    ensures t !in r.definer && t !in AfterEntity(ts, r, cur, e, bound).value.definer
  {
    hide AfterMembers;
    hide Visits;
    hide Leads;
    var now := AfterEntity(ts, r, cur, e, bound).value;
    PartsOk(ts, e.id);
    MembersMove(ts, r, cur, MembersOf(ts, e.id), t);
    if t in r.definer {
      TypeVisits(ts, t, x);
      assert ClosedAt(ts, r, t);
      LeadsIs(r, r.definer[t], x);
      AgainFails(ts, r, cur, e, bound, t, x);
    }
  }

  lemma TypeVisits(ts: Types, t: nat, x: nat)
    requires TypesOk(ts) && Creates(ts, t, x)
    ensures Visits(ts, t, x)
  {
    hide EntityOk;
    hide VisitsMembers;
    assert DefOk(ts, t);
    PartsOk(ts, t);
    var ns := ts[t].exports;
    var k :| 0 <= k < |ns| && ns[k].entity.TypeE? && ns[k].entity.created == x;
    VisitsCreated(ts, ns, t, k, x);
  }

  lemma LeadsIs(r: Registry, from: Name, x: nat)
    requires Leads(r, from, x)
    ensures x in r.definer
  {
  }

  /** A name for a type of which an instance was registered fails. */
  lemma NameFails(ts: Types, r: Registry, cur: Name, e: Entity, bound: nat, t: nat, x: nat)
    requires TypesOk(ts) && EntityOk(ts, e, bound) && Meets(ts, e, t) && e.TypeE? && Creates(ts, t, x)
    requires Closed(ts, r, {}) && x in r.definer && t !in r.definer
    ensures AfterEntity(ts, r, cur, e, bound).None?
  {
    hide Closed;
    hide VisitsEntity;
    hide AfterEntity;
    if AfterEntity(ts, r, cur, e, bound).Some? {
      var now := AfterEntity(ts, r, cur, e, bound).value;
      EntityMoves(ts, r, cur, e, bound);
      EntityCloses(ts, r, cur, e, bound, {});
      MeetsVisits(ts, e, bound, t, x);
      LeadsIs(now, cur, t);
    }
  }

  /** After an instance of it, what the type creates is known and the type itself is not. */
  lemma {:induction false} OutUntil(ts: Types, deps: Deps, imports: seq<Named>, i: nat, n: nat, t: nat, x: nat)
    requires ImportsOk(ts, imports) && i < n <= |imports| && Creates(ts, t, x)
    requires Meets(ts, imports[i].entity, t) && imports[i].entity.InstanceE?
    requires AfterImports(ts, Registry(map[], deps), imports[..n]).Some?
    ensures var now := AfterImports(ts, Registry(map[], deps), imports[..n]).value;
            x in now.definer && t !in now.definer
    decreases n
  {
    hide Closed;
    hide AfterEntity;
    hide VisitsEntity;
    assert imports[..n][..n - 1] == imports[..n - 1];
    var start, last := Registry(map[], deps), imports[n - 1];
    var mid, now := AfterImports(ts, start, imports[..n - 1]).value, AfterImports(ts, start, imports[..n]).value;
    ImportsLed(ts, deps, imports, n);
    MeetsVisits(ts, imports[i].entity, |ts|, t, x);
    assert EntityLed(ts, now, imports[i].name, imports[i].entity, |ts|);
    LeadsIs(now, imports[i].name, x);
    if i == n - 1 {
      ImportsLed(ts, deps, imports, n - 1);
      InstanceStaysOut(ts, mid, last.name, last.entity, |ts|, t, x);
    } else {
      OutUntil(ts, deps, imports, i, n - 1, t, x);
      EntityMoves(ts, mid, last.name, last.entity, |ts|);
    }
  }

  /**
   The assertion fails if an instance type that exports types is met twice, not both times by a
   name: imported as an instance twice, or named and imported, in either order.
   */
  lemma {:induction false} MetTwice(ts: Types, deps: Deps, imports: seq<Named>, n: nat, i: nat, j: nat, t: nat, x: nat)
    requires ImportsOk(ts, imports) && i < j < n <= |imports| && Creates(ts, t, x)
    requires Meets(ts, imports[i].entity, t) && Meets(ts, imports[j].entity, t)
    requires imports[i].entity.InstanceE? || imports[j].entity.InstanceE?
    ensures AfterImports(ts, Registry(map[], deps), imports[..n]).None?
    decreases n
  {
    hide Closed;
    hide AfterEntity;
    hide VisitsEntity;
    var start, last := Registry(map[], deps), imports[n - 1];
    assert imports[..n][..n - 1] == imports[..n - 1];
    if j < n - 1 {
      MetTwice(ts, deps, imports, n - 1, i, j, t, x);
    } else if AfterImports(ts, start, imports[..j]).Some? {
      var mid := AfterImports(ts, start, imports[..j]).value;
      ImportsLed(ts, deps, imports, j);
      MeetsVisits(ts, imports[i].entity, |ts|, t, x);
      assert EntityLed(ts, mid, imports[i].name, imports[i].entity, |ts|);
      LeadsIs(mid, imports[i].name, x);
      if last.entity.InstanceE? {
        AgainFails(ts, mid, last.name, last.entity, |ts|, t, x);
      } else {
        OutUntil(ts, deps, imports, i, j, t, x);
        NameFails(ts, mid, last.name, last.entity, |ts|, t, x);
      }
    }
  }
}
