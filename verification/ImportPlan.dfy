/**
 wasm-compose's imports from beginning to end: every import that no connection supplies is
 registered and merged into the import map, the map is sorted, and then it is translated.
 */
module ImportPlan {
  import opened Common
  import opened ComponentTypes
  import opened ImportOrder
  import opened ImportDeps
  import opened TypeScopes
  import opened TypeOrder
  import opened TypeImports
  import M = ImportMerge
  import R = TypeReuse
  import T = Translation

  /** An import of a component that no connection supplies, met for the first time. */
  datatype Arg = Arg(comp: nat, name: Name, entity: Entity)

  ghost predicate ArgOk(w: World, a: Arg) {
    ViewOk(w, View(a.comp, a.entity))
  }

  ghost predicate EachOk(w: World, args: seq<Arg>) {
    forall i :: 0 <= i < |args| ==> ArgOk(w, args[i])
  }

  /** Imports of one component have different names. */
  ghost predicate ArgsOk(w: World, args: seq<Arg>) {
    && EachOk(w, args)
    && forall i, j :: 0 <= i < j < |args| ==> args[i].comp != args[j].comp || args[i].name != args[j].name
  }

  // ----- merging -----

  function EntryIndex(entries: seq<ImportEntry>, name: Name): (r: Option<nat>)
    ensures r.Some? ==> r.value < |entries| && entries[r.value].name == name
    ensures r.None? ==> forall j :: 0 <= j < |entries| ==> entries[j].name != name
  {
    if entries == [] then None
    else if entries[0].name == name then Some(0)
    else
      var rest := EntryIndex(entries[1..], name);
      if rest.Some? then Some(rest.value + 1) else None
  }

  function Members(w: World, a: Arg): seq<Named>
    requires ArgOk(w, a) && a.entity.InstanceE?
  {
    MembersOf(w[a.comp], a.entity.id)
  }

  ghost predicate ItemOk(w: World, e: ImportEntry) {
    e.ItemImport? ==> ViewOk(w, View(e.comp, e.entity))
  }

  /** An instance that gets company is taken apart into what it exports. */
  function AsInstance(w: World, e: ImportEntry): (r: ImportEntry)
    requires ItemOk(w, e)
    ensures ItemOk(w, r) && r.name == e.name && (r.ItemImport? ==> !r.entity.InstanceE?)
  {
    if e.ItemImport? && e.entity.InstanceE?
    then InstanceImport(e.name, M.SingleViews(e.comp, Members(w, Arg(e.comp, e.name, e.entity))))
    else e
  }

  function Merged(w: World, compatible: M.Compatible, e: ImportEntry, a: Arg): (r: Option<ImportEntry>)
    requires ItemOk(w, e) && ArgOk(w, a)
    ensures r.Some? ==> ItemOk(w, r.value) && r.value.name == e.name
  {
    match AsInstance(w, e)
    case InstanceImport(name, exports) =>
      if !a.entity.InstanceE? then None
      else (
        match M.AddViews(compatible, exports, a.comp, Members(w, a))
        case None => None
        case Some(xs) => Some(InstanceImport(name, xs)))
    case ItemImport(name, comp, entity) =>
      if compatible(View(comp, entity), View(a.comp, a.entity)) then Some(ItemImport(name, comp, entity)) else None
  }

  ghost predicate ItemsOk(w: World, entries: seq<ImportEntry>) {
    forall j :: 0 <= j < |entries| ==> ItemOk(w, entries[j])
  }

  /** The import map with one more import; `None` is a conflict. */
  function Add(w: World, compatible: M.Compatible, entries: seq<ImportEntry>, a: Arg): (r: Option<seq<ImportEntry>>)
    requires ItemsOk(w, entries) && ArgOk(w, a)
    ensures r.Some? ==> ItemsOk(w, r.value)
  {
    match EntryIndex(entries, a.name)
    case None => Some(entries + [ItemImport(a.name, a.comp, a.entity)])
    case Some(j) =>
      match Merged(w, compatible, entries[j], a)
      case None => None
      case Some(e) => Some(entries[j := e])
  }

  // ----- planning -----

  datatype Plan = Plan(entries: seq<ImportEntry>, definers: map<nat, map<nat, Name>>, deps: Deps)

  /** An assertion fails, two imports conflict, or there is a plan. */
  datatype Planning = Asserts | Conflicts | Planned(plan: Plan)

  const NoPlan := Plan([], map[], map[])

  function RegistryOf(p: Plan, c: nat): Registry {
    Registry(if c in p.definers then p.definers[c] else map[], p.deps)
  }

  /** Each import is first registered and then merged. */
  function PlanNext(w: World, compatible: M.Compatible, p: Plan, a: Arg): (r: Planning)
    requires ItemsOk(w, p.entries) && ArgOk(w, a)
    ensures r.Planned? ==> ItemsOk(w, r.plan.entries)
  {
    match AfterEntity(w[a.comp], RegistryOf(p, a.comp), a.name, a.entity, |w[a.comp]|)
    case None => Asserts
    case Some(now) =>
      match Add(w, compatible, p.entries, a)
      case None => Conflicts
      case Some(entries) => Planned(Plan(entries, p.definers[a.comp := now.definer], now.deps))
  }

  function PlanAll(w: World, compatible: M.Compatible, args: seq<Arg>): (r: Planning)
    requires EachOk(w, args)
    ensures r.Planned? ==> ItemsOk(w, r.plan.entries)
  {
    if args == [] then Planned(NoPlan)
    else
      var n := |args| - 1;
      match PlanAll(w, compatible, args[..n])
      case Planned(p) => PlanNext(w, compatible, p, args[n])
      case stopped => stopped
  }

  // ----- what the import map is made of -----

  /** What each component contributes to the instance of this name. */
  ghost function PartsOf(w: World, args: seq<Arg>, name: Name): M.Parts
    requires EachOk(w, args)
  {
    if args == [] then map[]
    else
      var n := |args| - 1;
      var rest := PartsOf(w, args[..n], name);
      if args[n].name == name && args[n].entity.InstanceE? then rest[args[n].comp := Members(w, args[n])] else rest
  }

  lemma {:induction false} PartsFrom(w: World, args: seq<Arg>, name: Name, c: nat) returns (i: nat)
    requires EachOk(w, args) && c in PartsOf(w, args, name)
    ensures i < |args| && args[i].comp == c && args[i].name == name && args[i].entity.InstanceE?
    ensures ArgOk(w, args[i]) && PartsOf(w, args, name)[c] == Members(w, args[i])
  {
    hide ArgOk;
    var n := |args| - 1;
    if args[n].name == name && args[n].entity.InstanceE? && args[n].comp == c {
      i := n;
    } else {
      i := PartsFrom(w, args[..n], name, c);
    }
  }

  lemma {:induction false} PartsHave(w: World, args: seq<Arg>, i: nat)
    requires ArgsOk(w, args) && i < |args| && args[i].entity.InstanceE? && ArgOk(w, args[i])
    ensures args[i].comp in PartsOf(w, args, args[i].name)
    ensures PartsOf(w, args, args[i].name)[args[i].comp] == Members(w, args[i])
    decreases |args|
  {
    hide ArgOk;
    var n := |args| - 1;
    if i < n {
      assert args[..n][i] == args[i];
      PartsHave(w, args[..n], i);
    }
  }

  /** If there is just one import of a name, it contributes alone. */
  lemma {:induction false} OnlyPart(w: World, args: seq<Arg>, name: Name, only: Arg)
    requires EachOk(w, args) && ArgOk(w, only) && only.entity.InstanceE? && only.name == name
    requires forall i :: 0 <= i < |args| && args[i].name == name ==> args[i] == only
    ensures PartsOf(w, args, name) == if only in args then map[only.comp := Members(w, only)] else map[]
  {
    hide ArgOk;
    if args != [] {
      var n := |args| - 1;
      assert args == args[..n] + [args[n]];
      OnlyPart(w, args[..n], name, only);
    }
  }

  /** No import of the same name comes before it. */
  ghost predicate IsFirst(args: seq<Arg>, a: Arg) {
    exists i :: 0 <= i < |args| && args[i] == a && forall j :: 0 <= j < i ==> args[j].name != a.name
  }

  ghost predicate EntryFrom(w: World, args: seq<Arg>, e: ImportEntry)
    requires EachOk(w, args)
  {
    match e
    case ItemImport(name, comp, entity) =>
      && IsFirst(args, Arg(comp, name, entity)) && ViewOk(w, View(comp, entity))
      && forall i :: 0 <= i < |args| && args[i].name == name ==> SameItem(w, args[i], Arg(comp, name, entity))
    case InstanceImport(name, exports) =>
      && M.MergedFrom(w, exports, PartsOf(w, args, name))
      && forall i :: 0 <= i < |args| && args[i].name == name ==> args[i].entity.InstanceE?
  }

  /** An instance that nothing was merged into is alone; other items all mean the same. */
  ghost predicate SameItem(w: World, a: Arg, first: Arg)
    requires ArgOk(w, first)
  {
    if first.entity.InstanceE? then a == first
    else ArgOk(w, a) && ViewMeaning(w, View(a.comp, a.entity)) == ViewMeaning(w, View(first.comp, first.entity))
  }

  ghost predicate HasEntry(entries: seq<ImportEntry>, name: Name) {
    exists j :: 0 <= j < |entries| && entries[j].name == name
  }

  ghost predicate Asked(args: seq<Arg>, name: Name) {
    exists i :: 0 <= i < |args| && args[i].name == name
  }

  /** The import map has one entry for each name, made of all imports of that name. */
  ghost predicate EntriesFrom(w: World, args: seq<Arg>, entries: seq<ImportEntry>)
    requires EachOk(w, args)
  {
    && (forall i, j :: 0 <= i < j < |entries| ==> entries[i].name != entries[j].name)
    && (forall j :: 0 <= j < |entries| ==> EntryFrom(w, args, entries[j]))
    && (forall i :: 0 <= i < |args| ==> HasEntry(entries, args[i].name))
    && (forall j :: 0 <= j < |entries| ==> Asked(args, entries[j].name))
  }

  lemma MembersFit(w: World, a: Arg)
    requires ArgOk(w, a) && a.entity.InstanceE?
    ensures NamedOk(w[a.comp], Members(w, a), |w[a.comp]|) && Created([], Members(w, a))
  {
    hide EntityOk;
    var ts := w[a.comp];
    InstancePeels(w, a);
    var t := Peel(ts, a.entity.id);
    assert DefOk(ts, t);
    forall i | 0 <= i < |Members(w, a)|
      ensures EntityOk(ts, Members(w, a)[i].entity, |ts|)
    {
      EntityOkLater(ts, Members(w, a)[i].entity, t);
    }
  }

  lemma InstancePeels(w: World, a: Arg)
    requires ArgOk(w, a) && a.entity.InstanceE?
    ensures var ts := w[a.comp]; a.entity.id < |ts| && ts[Peel(ts, a.entity.id)].Instance?
  {
  }

  // ----- the next import -----

  lemma EachMore(w: World, args: seq<Arg>, a: Arg)
    requires EachOk(w, args) && ArgOk(w, a)
    ensures EachOk(w, args + [a]) && (args + [a])[..|args|] == args
  {
  }

  /** Another name's entry does not change. */
  lemma OtherEntry(w: World, args: seq<Arg>, a: Arg, e: ImportEntry)
    requires EachOk(w, args) && ArgOk(w, a) && EntryFrom(w, args, e) && e.name != a.name && EachOk(w, args + [a])
    ensures EntryFrom(w, args + [a], e)
  {
    hide ArgOk;
    hide ViewOk;
    hide M.MergedFrom;
    hide SameItem;
    EachMore(w, args, a);
    var now := args + [a];
    assert PartsOf(w, now, e.name) == PartsOf(w, args, e.name);
    if e.ItemImport? {
      FirstStays(args, a, Arg(e.comp, e.name, e.entity));
      forall i | 0 <= i < |now| && now[i].name == e.name
        ensures SameItem(w, now[i], Arg(e.comp, e.name, e.entity))
      {
        assert now[i] == args[i];
      }
    }
  }

  lemma FirstStays(args: seq<Arg>, a: Arg, first: Arg)
    requires IsFirst(args, first)
    ensures IsFirst(args + [a], first) && first in args
  {
    var now := args + [a];
    var i :| 0 <= i < |args| && args[i] == first && forall j :: 0 <= j < i ==> args[j].name != first.name;
    assert now[i] == first && forall j :: 0 <= j < i ==> now[j] == args[j];
  }

  lemma NewEntry(w: World, args: seq<Arg>, a: Arg)
    requires ArgsOk(w, args) && ArgOk(w, a) && EachOk(w, args + [a])
    requires forall i :: 0 <= i < |args| ==> args[i].name != a.name
    ensures EntryFrom(w, args + [a], ItemImport(a.name, a.comp, a.entity))
  {
    hide ViewOk;
    hide ViewMeaning;
    assert (args + [a])[|args|] == a && IsFirst(args + [a], a);
    forall i | 0 <= i < |args + [a]| && (args + [a])[i].name == a.name
      ensures SameItem(w, (args + [a])[i], a)
    {
      assert i == |args|;
    }
  }

  /** An entry seen as an instance is made of the same parts. */
  lemma AsInstanceFrom(w: World, args: seq<Arg>, e: ImportEntry)
    requires ArgsOk(w, args) && EntryFrom(w, args, e) && ItemOk(w, e)
    ensures EntryFrom(w, args, AsInstance(w, e))
  {
    hide ViewOk;
    hide M.MergedFrom;
    if e.ItemImport? && e.entity.InstanceE? {
      var only := Arg(e.comp, e.name, e.entity);
      FirstStays(args, only, only);
      OnlyPart(w, args, e.name, only);
      MembersFit(w, only);
      ItemComp(w, only);
      M.SingleMerged(w, only.comp, Members(w, only));
    }
  }

  lemma ItemComp(w: World, a: Arg)
    requires ArgOk(w, a)
    ensures a.comp < |w| && TypesOk(w[a.comp])
  {
  }

  lemma NotYet(w: World, args: seq<Arg>, a: Arg)
    requires ArgsOk(w, args + [a]) && EachOk(w, args)
    ensures a.comp !in PartsOf(w, args, a.name)
  {
    hide ArgOk;
    forall i | 0 <= i < |args|
      ensures args[i].comp != a.comp || args[i].name != a.name
    {
      assert (args + [a])[i] == args[i] && (args + [a])[|args|] == a;
    }
    if a.comp in PartsOf(w, args, a.name) {
      var i := PartsFrom(w, args, a.name, a.comp);
    }
  }

  lemma MergedIs(w: World, compatible: M.Compatible, args: seq<Arg>, e: ImportEntry, a: Arg)
    requires ArgsOk(w, args) && ArgsOk(w, args + [a]) && ArgOk(w, a) && M.Faithful(w, compatible)
    requires EntryFrom(w, args, e) && ItemOk(w, e) && e.name == a.name && Merged(w, compatible, e, a).Some?
    ensures EntryFrom(w, args + [a], Merged(w, compatible, e, a).value)
  {
    hide ViewOk;
    hide ArgOk;
    hide M.MergedFrom;
    hide M.AddViews;
    hide M.Faithful;
    hide AsInstance;
    AsInstanceFrom(w, args, e);
    EachMore(w, args, a);
    var now := args + [a];
    var inst := AsInstance(w, e);
    match inst {
      case InstanceImport(name, exports) =>
        var parts, ns := PartsOf(w, args, name), Members(w, a);
        NotYet(w, args, a);
        MembersFit(w, a);
        ItemComp(w, a);
        M.ViewsMerge(w, compatible, exports, parts, a.comp, ns);
        assert PartsOf(w, now, name) == parts[a.comp := ns];
        forall i | 0 <= i < |now| && now[i].name == name
          ensures now[i].entity.InstanceE?
        {
          assert i < |args| ==> now[i] == args[i];
        }
      case ItemImport(name, comp, entity) =>
        SameMore(w, compatible, args, inst, a);
    }
  }

  lemma SameMore(w: World, compatible: M.Compatible, args: seq<Arg>, e: ImportEntry, a: Arg)
    requires EachOk(w, args) && EachOk(w, args + [a]) && ArgOk(w, a) && M.Faithful(w, compatible)
    requires EntryFrom(w, args, e) && e.ItemImport? && !e.entity.InstanceE? && e.name == a.name
    requires compatible(View(e.comp, e.entity), View(a.comp, a.entity))
    ensures EntryFrom(w, args + [a], e)
  {
    hide ViewOk;
    hide ViewMeaning;
    var now, first := args + [a], Arg(e.comp, e.name, e.entity);
    FirstStays(args, a, first);
    forall i | 0 <= i < |now| && now[i].name == e.name
      ensures SameItem(w, now[i], first)
    {
      assert if i < |args| then now[i] == args[i] else now[i] == a;
    }
  }

  lemma AddKeeps(w: World, compatible: M.Compatible, args: seq<Arg>, entries: seq<ImportEntry>, a: Arg)
    requires ArgsOk(w, args) && ArgsOk(w, args + [a]) && ArgOk(w, a) && M.Faithful(w, compatible)
    requires EntriesFrom(w, args, entries) && ItemsOk(w, entries) && Add(w, compatible, entries, a).Some?
    ensures EntriesFrom(w, args + [a], Add(w, compatible, entries, a).value)
  {
    hide ArgOk;
    hide EntryFrom;
    hide ItemOk;
    hide M.Faithful;
    hide Merged;
    var now, more := args + [a], Add(w, compatible, entries, a).value;
    var at := EntryIndex(entries, a.name);
    forall j | 0 <= j < |more|
      ensures EntryFrom(w, now, more[j])
    {
      if at.None? {
        if j < |entries| {
          OtherEntry(w, args, a, entries[j]);
        } else {
          NamesDiffer(w, args, entries, a.name);
          NewEntry(w, args, a);
        }
      } else if j == at.value {
        MergedIs(w, compatible, args, entries[j], a);
      } else {
        OtherEntry(w, args, a, entries[j]);
      }
    }
    assert now[|args|] == a;
    forall i | 0 <= i < |now|
      ensures HasEntry(more, now[i].name)
    {
      if i < |args| {
        assert now[i] == args[i] && HasEntry(entries, args[i].name);
        var j :| 0 <= j < |entries| && entries[j].name == args[i].name;
        assert more[j].name == entries[j].name;
      } else {
        var j := if at.None? then |entries| else at.value;
        assert more[j].name == a.name;
      }
    }
    forall j | 0 <= j < |more|
      ensures Asked(now, more[j].name)
    {
      if j < |entries| {
        assert more[j].name == entries[j].name && Asked(args, entries[j].name);
        var i :| 0 <= i < |args| && args[i].name == entries[j].name;
        assert now[i] == args[i];
      }
    }
  }

  lemma NamesDiffer(w: World, args: seq<Arg>, entries: seq<ImportEntry>, name: Name)
    requires EachOk(w, args) && EntriesFrom(w, args, entries)
    requires forall j :: 0 <= j < |entries| ==> entries[j].name != name
    ensures forall i :: 0 <= i < |args| ==> args[i].name != name
  {
    hide EntryFrom;
    forall i | 0 <= i < |args|
      ensures args[i].name != name
    {
      assert HasEntry(entries, args[i].name);
    }
  }

  // ----- what has been registered -----

  /** What an import mentions is led to; an instance of a type that creates others leaves that type out. */
  ghost predicate ArgRegistered(w: World, p: Plan, a: Arg)
    requires ArgOk(w, a)
  {
    && EntityLed(w[a.comp], RegistryOf(p, a.comp), a.name, a.entity, |w[a.comp]|)
    && forall t, x :: a.entity.InstanceE? && Meets(w[a.comp], a.entity, t) && Creates(w[a.comp], t, x) ==>
         t !in RegistryOf(p, a.comp).definer
  }

  ghost predicate AllRegistered(w: World, args: seq<Arg>, p: Plan)
    requires WorldOk(w) && EachOk(w, args)
  {
    && (forall c :: 0 <= c < |w| ==> Closed(w[c], RegistryOf(p, c), {}))
    && (forall i :: 0 <= i < |args| ==> ArgRegistered(w, p, args[i]))
  }

  /** Two imports of a component share a type that creates others only if both just name it. */
  ghost predicate Once(w: World, a: Arg, b: Arg) {
    a.comp == b.comp < |w| ==>
      forall t, x :: Meets(w[a.comp], a.entity, t) && Meets(w[a.comp], b.entity, t) && Creates(w[a.comp], t, x) ==>
        a.entity.TypeE? && b.entity.TypeE?
  }

  ghost predicate AllOnce(w: World, args: seq<Arg>) {
    forall i, j :: 0 <= i < j < |args| ==> Once(w, args[i], args[j])
  }

  lemma ArgParts(w: World, a: Arg)
    requires ArgOk(w, a)
    ensures a.comp < |w| && TypesOk(w[a.comp]) && EntityOk(w[a.comp], a.entity, |w[a.comp]|)
  {
  }

  /** The plan after one more import was registered; merging does not matter here. */
  ghost predicate RegisteredNext(w: World, p: Plan, q: Plan, a: Arg)
    requires ArgOk(w, a)
  {
    var now := AfterEntity(w[a.comp], RegistryOf(p, a.comp), a.name, a.entity, |w[a.comp]|);
    now.Some? && q.definers == p.definers[a.comp := now.value.definer] && q.deps == now.value.deps
  }

  /** For every component the registry grows, and for the others only by dependencies. */
  lemma RegistryGrows(w: World, p: Plan, q: Plan, a: Arg, c: nat)
    requires WorldOk(w) && ArgOk(w, a) && RegisteredNext(w, p, q, a)
    ensures Grew(RegistryOf(p, c), RegistryOf(q, c))
    ensures c != a.comp ==> RegistryOf(q, c).definer == RegistryOf(p, c).definer
    ensures c == a.comp ==>
              RegistryOf(q, c) == AfterEntity(w[c], RegistryOf(p, c), a.name, a.entity, |w[c]|).value
  {
    hide AfterEntity;
    ArgParts(w, a);
    EntityMoves(w[a.comp], RegistryOf(p, a.comp), a.name, a.entity, |w[a.comp]|);
  }

  lemma StillClosed(w: World, args: seq<Arg>, p: Plan, q: Plan, a: Arg, c: nat)
    requires WorldOk(w) && EachOk(w, args) && AllRegistered(w, args, p) && ArgOk(w, a) && RegisteredNext(w, p, q, a)
    requires c < |w|
    ensures Closed(w[c], RegistryOf(q, c), {})
  {
    hide ArgRegistered;
    hide RegisteredNext;
    hide RegistryOf;
    hide AfterEntity;
    hide Closed;
    hide Grew;
    ArgParts(w, a);
    RegistryGrows(w, p, q, a, c);
    if c == a.comp {
      NextSucceeded(w, p, q, a);
      EntityCloses(w[c], RegistryOf(p, c), a.name, a.entity, |w[c]|, {});
    } else {
      ClosedGrew(w[c], RegistryOf(p, c), RegistryOf(q, c), {});
    }
  }

  lemma NextSucceeded(w: World, p: Plan, q: Plan, a: Arg)
    requires ArgOk(w, a) && RegisteredNext(w, p, q, a)
    ensures AfterEntity(w[a.comp], RegistryOf(p, a.comp), a.name, a.entity, |w[a.comp]|).Some?
  {
  }

  /** Earlier imports stay registered. */
  lemma StillRegistered(w: World, p: Plan, q: Plan, a: Arg, b: Arg)
    requires WorldOk(w) && ArgOk(w, a) && ArgOk(w, b) && RegisteredNext(w, p, q, a) && ArgRegistered(w, p, b)
    ensures ArgRegistered(w, q, b)
  {
    hide EntityLed;
    hide Grew;
    hide ViewOk;
    hide AfterEntity;
    hide RegistryOf;
    hide RegisteredNext;
    hide VisitsEntity;
    ArgParts(w, a);
    ArgParts(w, b);
    var c := b.comp;
    RegistryGrows(w, p, q, a, c);
    EntityLedGrew(w[c], RegistryOf(p, c), RegistryOf(q, c), b.name, b.entity, |w[c]|);
    forall t, x | b.entity.InstanceE? && Meets(w[c], b.entity, t) && Creates(w[c], t, x)
      ensures t !in RegistryOf(q, c).definer
    {
      if c == a.comp {
        NextSucceeded(w, p, q, a);
        EntityMoves(w[c], RegistryOf(p, c), a.name, a.entity, |w[c]|);
        CreatedKnown(w, p, b, t, x);
      }
    }
  }

  /** Of an instance type that an import is of, or names, the created types are registered. */
  lemma CreatedKnown(w: World, p: Plan, b: Arg, t: nat, x: nat)
    requires ArgOk(w, b) && ArgRegistered(w, p, b) && Meets(w[b.comp], b.entity, t) && Creates(w[b.comp], t, x)
    ensures x in RegistryOf(p, b.comp).definer
  {
    hide ViewOk;
    hide VisitsEntity;
    ArgParts(w, b);
    MeetsVisits(w[b.comp], b.entity, |w[b.comp]|, t, x);
    LeadsIs(RegistryOf(p, b.comp), b.name, x);
  }

  /** The new import is registered. */
  lemma NowRegistered(w: World, args: seq<Arg>, p: Plan, q: Plan, a: Arg)
    requires WorldOk(w) && EachOk(w, args) && AllRegistered(w, args, p) && ArgOk(w, a) && RegisteredNext(w, p, q, a)
    ensures ArgRegistered(w, q, a)
  {
    hide EntityLed;
    hide ViewOk;
    hide AfterEntity;
    hide RegistryOf;
    hide Closed;
    ArgParts(w, a);
    var c := a.comp;
    RegistryGrows(w, p, q, a, c);
    EntityCloses(w[c], RegistryOf(p, c), a.name, a.entity, |w[c]|, {});
    forall t, x | a.entity.InstanceE? && Meets(w[c], a.entity, t) && Creates(w[c], t, x)
      ensures t !in RegistryOf(q, c).definer
    {
      InstanceStaysOut(w[c], RegistryOf(p, c), a.name, a.entity, |w[c]|, t, x);
    }
  }

  /** Registering would have failed otherwise. */
  lemma MetOnce(w: World, args: seq<Arg>, p: Plan, q: Plan, a: Arg, b: Arg)
    requires WorldOk(w) && EachOk(w, args) && AllRegistered(w, args, p) && ArgOk(w, a) && RegisteredNext(w, p, q, a)
    requires ArgOk(w, b) && ArgRegistered(w, p, b)
    ensures Once(w, b, a)
  {
    hide ViewOk;
    hide AfterEntity;
    hide RegistryOf;
    hide Closed;
    ArgParts(w, a);
    ArgParts(w, b);
    if a.comp == b.comp {
      var ts, r := w[a.comp], RegistryOf(p, a.comp);
      forall t, x | Meets(ts, b.entity, t) && Meets(ts, a.entity, t) && Creates(ts, t, x)
        ensures a.entity.TypeE? && b.entity.TypeE?
      {
        CreatedKnown(w, p, b, t, x);
        if a.entity.InstanceE? {
          AgainFails(ts, r, a.name, a.entity, |ts|, t, x);
        } else if b.entity.InstanceE? {
          NameFails(ts, r, a.name, a.entity, |ts|, t, x);
        }
      }
    }
  }

  // ----- every plan -----

  ghost predicate GoodPlan(w: World, args: seq<Arg>, p: Plan)
    requires WorldOk(w) && EachOk(w, args)
  {
    EntriesFrom(w, args, p.entries) && AllRegistered(w, args, p) && AllOnce(w, args)
  }

  lemma NextRegisters(w: World, compatible: M.Compatible, p: Plan, a: Arg)
    requires ItemsOk(w, p.entries) && ArgOk(w, a) && PlanNext(w, compatible, p, a).Planned?
    ensures var q := PlanNext(w, compatible, p, a).plan;
            RegisteredNext(w, p, q, a) && Add(w, compatible, p.entries, a) == Some(q.entries)
  {
    hide AfterEntity;
    hide Add;
  }

  lemma NextIsGood(w: World, compatible: M.Compatible, args: seq<Arg>, p: Plan, a: Arg)
    requires WorldOk(w) && ArgsOk(w, args) && ArgsOk(w, args + [a]) && ArgOk(w, a) && M.Faithful(w, compatible)
    requires GoodPlan(w, args, p) && ItemsOk(w, p.entries) && PlanNext(w, compatible, p, a).Planned?
    ensures GoodPlan(w, args + [a], PlanNext(w, compatible, p, a).plan)
  {
    hide PlanNext;
    hide ArgOk;
    hide ItemOk;
    hide EntriesFrom;
    hide Once;
    hide RegisteredNext;
    hide Closed;
    hide ArgRegistered;
    hide M.Faithful;
    hide TypesOk;
    var q, now := PlanNext(w, compatible, p, a).plan, args + [a];
    NextRegisters(w, compatible, p, a);
    AddKeeps(w, compatible, args, p.entries, a);
    forall c | 0 <= c < |w|
      ensures Closed(w[c], RegistryOf(q, c), {})
    {
      StillClosed(w, args, p, q, a, c);
    }
    forall i | 0 <= i < |now|
      ensures ArgRegistered(w, q, now[i])
    {
      if i < |args| {
        assert now[i] == args[i];
        StillRegistered(w, p, q, a, args[i]);
      } else {
        NowRegistered(w, args, p, q, a);
      }
    }
    forall i, j | 0 <= i < j < |now|
      ensures Once(w, now[i], now[j])
    {
      assert now[i] == args[i];
      if j == |args| {
        MetOnce(w, args, p, q, a, args[i]);
      } else {
        assert now[j] == args[j];
      }
    }
  }

  lemma {:induction false} PlansAreGood(w: World, compatible: M.Compatible, args: seq<Arg>)
    requires WorldOk(w) && ArgsOk(w, args) && M.Faithful(w, compatible) && PlanAll(w, compatible, args).Planned?
    ensures GoodPlan(w, args, PlanAll(w, compatible, args).plan)
  {
    hide ArgOk;
    hide PlanNext;
    hide M.Faithful;
    if args == [] {
      NoPlanIsGood(w);
    } else {
      hide GoodPlan;
      var n := |args| - 1;
      assert args == args[..n] + [args[n]];
      PlansAreGood(w, compatible, args[..n]);
      NextIsGood(w, compatible, args[..n], PlanAll(w, compatible, args[..n]).plan, args[n]);
    }
  }

  lemma NoPlanIsGood(w: World)
    requires WorldOk(w)
    ensures GoodPlan(w, [], NoPlan)
  {
    hide TypesOk;
  }

  // ----- imports of a plan do not clash -----

  /** A type that an entry makes available is created by the type of one of its imports. */
  lemma RegisteredBy(w: World, args: seq<Arg>, e: ImportEntry, k: Key) returns (i: nat, t: nat)
    requires WorldOk(w) && EachOk(w, args) && EntryFrom(w, args, e) && DeclOk(w, EntryDecl(e))
    requires Registers(w, EntryDecl(e), k)
    ensures i < |args| && args[i].comp == k.comp < |w| && args[i].name == e.name
    ensures Meets(w[k.comp], args[i].entity, t) && Creates(w[k.comp], t, k.id)
    ensures e.InstanceImport? ==> args[i].entity.InstanceE?
    ensures e.ItemImport? ==> args[i] == Arg(e.comp, e.name, e.entity)
  {
    match e {
      case ItemImport(name, comp, entity) =>
        FirstStays(args, args[0], Arg(comp, name, entity));
        i :| 0 <= i < |args| && args[i] == Arg(comp, name, entity);
        t := ItemMeets(w, e, k);
      case InstanceImport(name, exports) =>
        i, t := ViewMeets(w, args, e, k);
    }
  }

  lemma ItemMeets(w: World, e: ImportEntry, k: Key) returns (t: nat)
    requires WorldOk(w) && e.ItemImport? && DeclOk(w, EntryDecl(e)) && Registers(w, EntryDecl(e), k)
    ensures k.comp == e.comp < |w| && Meets(w[e.comp], e.entity, t) && Creates(w[e.comp], t, k.id)
    ensures MakerOf(w, EntryDecl(e)) == Some(Key(k.comp, t))
  {
    t := MakerOf(w, EntryDecl(e)).value.id;
    assert w[e.comp][t].Instance?;
  }

  lemma ViewMeets(w: World, args: seq<Arg>, e: ImportEntry, k: Key) returns (i: nat, t: nat)
    requires WorldOk(w) && EachOk(w, args) && e.InstanceImport? && EntryFrom(w, args, e)
    requires Registers(w, EntryDecl(e), k)
    ensures i < |args| && args[i].comp == k.comp < |w| && args[i].name == e.name && args[i].entity.InstanceE?
    ensures Meets(w[k.comp], args[i].entity, t) && Creates(w[k.comp], t, k.id)
  {
    hide ArgOk;
    hide M.PartsFit;
    hide M.InPartOrder;
    hide M.Complete;
    hide MergedExportOk;
    var xs, parts := e.exports, PartsOf(w, args, e.name);
    var j, a :| 0 <= j < |xs| && 0 <= a < |xs[j].views| && xs[j].views[a].entity.TypeE?
      && k == Key(xs[j].views[a].comp, xs[j].views[a].entity.created);
    assert M.At(xs, j, a);
    i := PartsFrom(w, args, e.name, k.comp);
    t := Peel(w[k.comp], args[i].entity.id) by { ArgParts(w, args[i]); }
    InstancePeels(w, args[i]);
    ArgParts(w, args[i]);
    var ns := Members(w, args[i]);
    var p :| 0 <= p < |ns| && ns[p] == M.NamedAt(xs, j, a);
    assert ns == w[k.comp][t].exports;
  }

  lemma {:induction false} OnceAt(w: World, args: seq<Arg>, i: nat, j: nat, t: nat, t': nat, x: nat)
    requires WorldOk(w) && AllOnce(w, args) && i < |args| && j < |args| && i != j && args[i].comp == args[j].comp < |w|
    requires Meets(w[args[i].comp], args[i].entity, t) && Creates(w[args[i].comp], t, x)
    requires Meets(w[args[i].comp], args[j].entity, t') && Creates(w[args[i].comp], t', x)
    ensures t == t' && args[i].entity.TypeE? && args[j].entity.TypeE?
  {
    assert TypesOk(w[args[i].comp]);
    if i < j {
      assert Once(w, args[i], args[j]);
    } else {
      assert Once(w, args[j], args[i]);
    }
  }

  /** Imports that were all registered make a type available twice only by naming one instance type. */
  lemma {:induction false} BothName(w: World, args: seq<Arg>, entries: seq<ImportEntry>, i: nat, j: nat, k: Key)
    returns (t: nat, x: nat)
    requires WorldOk(w) && EachOk(w, args) && AllOnce(w, args) && EntriesFrom(w, args, entries)
    requires i < j < |entries| && DeclOk(w, EntryDecl(entries[i])) && DeclOk(w, EntryDecl(entries[j]))
    requires Registers(w, EntryDecl(entries[i]), k) && Registers(w, EntryDecl(entries[j]), k)
    ensures entries[i].ItemImport? && entries[j].ItemImport?
    ensures MakerOf(w, EntryDecl(entries[i])) == MakerOf(w, EntryDecl(entries[j])) == Some(Key(k.comp, t))
    ensures k.comp < |w| && Creates(w[k.comp], t, x)
    ensures IsNamed(w, args, k.comp, entries[i].name, t)
  {
    hide EntryFrom;
    hide DeclOk;
    hide Meets;
    hide Creates;
    hide Once;
    hide ArgOk;
    assert EntryFrom(w, args, entries[i]) && EntryFrom(w, args, entries[j]);
    var p, u := RegisteredBy(w, args, entries[i], k);
    var q, v := RegisteredBy(w, args, entries[j], k);
    OnceAt(w, args, p, q, u, v, k.id);
    var u' := ItemMeets(w, entries[i], k);
    var v' := ItemMeets(w, entries[j], k);
    MeetsOne(w[k.comp], args[p].entity, u, u');
    MeetsOne(w[k.comp], args[q].entity, v, v');
    t, x := u, k.id;
  }

  lemma MeetsOne(ts: Types, e: Entity, t: nat, t': nat)
    requires Meets(ts, e, t) && Meets(ts, e, t')
    ensures t == t'
  {
  }

  /** Some import of this name and component names the instance type. */
  ghost predicate IsNamed(w: World, args: seq<Arg>, c: nat, name: Name, t: nat) {
    c < |w| && exists i :: 0 <= i < |args| && args[i].comp == c && args[i].name == name && NamesType(w[c], args[i], t)
  }

  predicate NamesType(ts: Types, a: Arg, t: nat) {
    a.entity.TypeE? && Meets(ts, a.entity, t)
  }

  /** Then no import is an instance of it. */
  lemma {:induction false} NoInstanceOf(w: World, args: seq<Arg>, e: ImportEntry, c: nat, name: Name, t: nat, x: nat)
    requires WorldOk(w) && EachOk(w, args) && AllOnce(w, args) && EntryFrom(w, args, e)
    requires IsNamed(w, args, c, name, t) && Creates(w[c], t, x) && e.ItemImport? && e.entity.InstanceE?
    requires DeclOk(w, EntryDecl(e))
    ensures MakerOf(w, EntryDecl(e)) != Some(Key(c, t))
  {
    if MakerOf(w, EntryDecl(e)) == Some(Key(c, t)) {
      var i :| 0 <= i < |args| && args[i].comp == c && args[i].name == name && NamesType(w[c], args[i], t);
      FirstStays(args, args[0], Arg(e.comp, e.name, e.entity));
      var j :| 0 <= j < |args| && args[j] == Arg(e.comp, e.name, e.entity);
      assert Meets(w[c], e.entity, t);
      OnceAt(w, args, i, j, t, t, x);
    }
  }

  /** Registering excludes the failing assertions of the translation, where names are in order. */
  lemma {:induction false} RegisteredNoClash(w: World, args: seq<Arg>, entries: seq<ImportEntry>)
    requires WorldOk(w) && EachOk(w, args) && AllOnce(w, args) && EntriesFrom(w, args, entries)
    requires Orderly(w, EntryDecls(entries))
    ensures NoClash(w, entries)
  {
    hide EntryFrom;
    hide Registers;
    hide MakerOf;
    hide Known;
    hide Timely;
    hide DeclOk;
    hide IsNamed;
    hide Creates;
    hide Once;
    hide ArgOk;
    var ds := EntryDecls(entries);
    forall j | 0 <= j < |ds|
      ensures NoRepeat(w, ds[..j], ds[j])
    {
      forall i, k | 0 <= i < j && Registers(w, ds[i], k) && Registers(w, ds[j], k)
        ensures Known(ds[..j], ds[j])
      {
        var t, x := BothName(w, args, entries, i, j, k);
        forall m | 0 <= m < |ds| && ds[m].OfEntity?
          ensures !ds[m].exported && (ds[m].entity.InstanceE? ==> MakerOf(w, ds[m]) != Some(Key(k.comp, t)))
        {
          if ds[m].entity.InstanceE? {
            NoInstanceOf(w, args, entries[m], k.comp, entries[i].name, t, x);
          }
        }
        NamedAgain(w, ds, Key(k.comp, t), i, j);
      }
      RepeatFrom(w, ds[..j], ds[j]);
    }
  }

  lemma RepeatFrom(w: World, ds: seq<Decl>, d: Decl)
    requires DeclsOk(w, ds) && DeclOk(w, d)
    requires forall i, k :: 0 <= i < |ds| && Registers(w, ds[i], k) && Registers(w, d, k) ==> Known(ds, d)
    ensures NoRepeat(w, ds, d)
  {
    hide Registers;
    hide Known;
  }

  // ----- every import gets what it expects -----

  lemma EntriesFromOk(w: World, args: seq<Arg>, entries: seq<ImportEntry>)
    requires EachOk(w, args) && EntriesFrom(w, args, entries)
    ensures EntriesOk(w, entries)
  {
    hide M.MergedFrom;
    hide MergedOk;
    forall j | 0 <= j < |entries|
      ensures EntryOk(w, entries[j])
    {
      assert EntryFrom(w, args, entries[j]);
      if entries[j].InstanceImport? {
        M.MergedFromOk(w, entries[j].exports, PartsOf(w, args, entries[j].name));
      }
    }
  }

  /** Among the exports is this one, with the meaning that the component gives it. */
  ghost predicate Offered(w: World, exports: seq<MNamed>, c: nat, n: Named) {
    var v := View(c, n.entity);
    ViewOk(w, v) && MNamed(n.name, ViewMeaning(w, v).0, ViewMeaning(w, v).1) in exports
  }

  /** An instance has all that the component expects of it; anything else is just that. */
  ghost predicate Provides(w: World, m: MNamed, a: Arg)
    requires ArgOk(w, a)
  {
    && m.name == a.name
    && if a.entity.InstanceE?
       then m.kind == KInstance && m.meaning.MInstance?
            && forall p :: 0 <= p < |Members(w, a)| ==> Offered(w, m.meaning.exports, a.comp, Members(w, a)[p])
       else (m.kind, m.meaning) == ViewMeaning(w, View(a.comp, a.entity))
  }

  /** The import is what one component wants, or each of its exports is wanted by some component. */
  ghost predicate Wanted(w: World, args: seq<Arg>, m: MNamed)
    requires EachOk(w, args)
  {
    || (exists i :: 0 <= i < |args| && WantedBy(w, args[i], m))
    || (m.kind == KInstance && m.meaning.MInstance?
        && forall j :: 0 <= j < |m.meaning.exports| ==> ExportWanted(w, args, m.name, m.meaning.exports[j]))
  }

  ghost predicate WantedBy(w: World, a: Arg, m: MNamed) {
    && ArgOk(w, a) && m.name == a.name && (m.kind, m.meaning) == ViewMeaning(w, View(a.comp, a.entity))
  }

  ghost predicate ExportWanted(w: World, args: seq<Arg>, name: Name, x: MNamed)
    requires EachOk(w, args)
  {
    exists i, p :: 0 <= i < |args| && WantsExport(w, args[i], p, name, x)
  }

  ghost predicate WantsExport(w: World, a: Arg, p: int, name: Name, x: MNamed) {
    && ArgOk(w, a) && a.name == name && a.entity.InstanceE? && 0 <= p < |Members(w, a)|
    && Offered(w, [x], a.comp, Members(w, a)[p])
  }

  lemma BoundFree(ts: Types, e: Entity, bound: nat)
    requires TypesOk(ts) && EntityOk(ts, e, bound)
    ensures EntityOk(ts, e, |ts|) && UnfoldEntity(ts, e, |ts|) == UnfoldEntity(ts, e, bound)
  {
  }

  lemma AloneProvides(w: World, a: Arg)
    requires ArgOk(w, a) && a.entity.InstanceE?
    ensures var m := ViewMeaning(w, View(a.comp, a.entity)); Provides(w, MNamed(a.name, m.0, m.1), a)
  {
    hide ArgOk;
    ArgParts(w, a);
    InstancePeels(w, a);
    var ts := w[a.comp];
    var t := Peel(ts, a.entity.id);
    UnfoldPeeled(ts, a.entity.id);
    assert DefOk(ts, t);
    var ns, m := Members(w, a), Unfold(ts, t).exports;
    forall p | 0 <= p < |ns|
      ensures Offered(w, m, a.comp, ns[p])
    {
      BoundFree(ts, ns[p].entity, t);
      assert m[p] == MNamed(ns[p].name, UnfoldEntity(ts, ns[p].entity, t).0, UnfoldEntity(ts, ns[p].entity, t).1);
    }
  }

  lemma MergedProvides(w: World, args: seq<Arg>, e: ImportEntry, i: nat)
    requires ArgsOk(w, args) && e.InstanceImport? && EntryFrom(w, args, e) && EntryOk(w, e)
    requires i < |args| && args[i].name == e.name && ArgOk(w, args[i])
    ensures Provides(w, EntryMeaning(w, e), args[i])
  {
    hide ArgOk;
    hide ViewOk;
    hide ViewMeaning;
    hide M.PartsFit;
    hide M.InPartOrder;
    hide M.Contributed;
    PartsHave(w, args, i);
    var xs, ns, c := e.exports, Members(w, args[i]), args[i].comp;
    var m := MergedMeaning(w, xs);
    forall p | 0 <= p < |ns|
      ensures Offered(w, m, c, ns[p])
    {
      assert M.Covered(xs, c, ns[p]);
      var j, b :| M.At(xs, j, b) && xs[j].name == ns[p].name && xs[j].views[b] == View(c, ns[p].entity);
      assert MergedExportOk(w, xs[j]);
      assert m[j].name == ns[p].name;
    }
  }

  lemma MergedWanted(w: World, args: seq<Arg>, e: ImportEntry)
    requires ArgsOk(w, args) && e.InstanceImport? && EntryFrom(w, args, e) && EntryOk(w, e)
    ensures Wanted(w, args, EntryMeaning(w, e))
  {
    hide ArgOk;
    hide ViewOk;
    hide ViewMeaning;
    hide M.PartsFit;
    hide M.InPartOrder;
    hide M.Complete;
    var xs := e.exports;
    var m := MergedMeaning(w, xs);
    forall j | 0 <= j < |m|
      ensures ExportWanted(w, args, e.name, m[j])
    {
      assert MergedExportOk(w, xs[j]);
      assert M.At(xs, j, 0);
      var c := xs[j].views[0].comp;
      var i := PartsFrom(w, args, e.name, c);
      var p :| 0 <= p < |Members(w, args[i])| && Members(w, args[i])[p] == M.NamedAt(xs, j, 0);
      assert WantsExport(w, args[i], p, e.name, m[j]);
    }
  }

  /** All imports of a name get one import that has what each expects, and no more. */
  lemma EntryProvides(w: World, args: seq<Arg>, e: ImportEntry)
    requires ArgsOk(w, args) && EntryFrom(w, args, e) && EntryOk(w, e)
    ensures forall i :: 0 <= i < |args| && args[i].name == e.name ==>
              ArgOk(w, args[i]) && Provides(w, EntryMeaning(w, e), args[i])
    ensures Wanted(w, args, EntryMeaning(w, e))
  {
    hide ArgOk;
    hide ViewOk;
    hide ViewMeaning;
    hide M.MergedFrom;
    hide MergedOk;
    hide MergedMeaning;
    hide Offered;
    if e.InstanceImport? {
      MergedWanted(w, args, e);
    } else {
      FirstStays(args, Arg(e.comp, e.name, e.entity), Arg(e.comp, e.name, e.entity));
      var k :| 0 <= k < |args| && args[k] == Arg(e.comp, e.name, e.entity);
      assert WantedBy(w, args[k], EntryMeaning(w, e));
    }
    forall i | 0 <= i < |args| && args[i].name == e.name
      ensures ArgOk(w, args[i]) && Provides(w, EntryMeaning(w, e), args[i])
    {
      assert ArgOk(w, args[i]);
      if e.InstanceImport? {
        MergedProvides(w, args, e, i);
      } else if e.entity.InstanceE? {
        AloneProvides(w, args[i]);
      } else {
        NotInstance(w, args[i], Arg(e.comp, e.name, e.entity));
      }
    }
  }

  lemma NotInstance(w: World, a: Arg, b: Arg)
    requires ArgOk(w, a) && ArgOk(w, b) && !b.entity.InstanceE?
    requires ViewMeaning(w, View(a.comp, a.entity)) == ViewMeaning(w, View(b.comp, b.entity))
    ensures !a.entity.InstanceE?
  {
    hide Unfold;
  }

  // ----- dependencies between imports -----

  /** Import `d` comes before import `n` in one component. */
  ghost predicate EarlierArg(args: seq<Arg>, n: Name, d: Name) {
    exists i, j :: 0 <= i < j < |args| && args[i].comp == args[j].comp && args[i].name == d && args[j].name == n
  }

  ghost predicate HasArg(args: seq<Arg>, c: nat, name: Name) {
    exists i :: 0 <= i < |args| && args[i].comp == c && args[i].name == name
  }

  ghost predicate NamesKnown(args: seq<Arg>, p: Plan) {
    && (forall c, x :: x in RegistryOf(p, c).definer ==> HasArg(args, c, RegistryOf(p, c).definer[x]))
    && (forall n, d :: IsEdge(p.deps, n, d) ==> EarlierArg(args, n, d))
  }

  lemma NamesMore(w: World, args: seq<Arg>, p: Plan, q: Plan, a: Arg)
    requires WorldOk(w) && ArgOk(w, a) && RegisteredNext(w, p, q, a) && NamesKnown(args, p)
    ensures NamesKnown(args + [a], q)
  {
    hide ArgOk;
    hide RegisteredNext;
    hide AfterEntity;
    hide RegistryOf;
    hide IsEdge;
    hide Grew;
    hide StaysOut;
    ArgParts(w, a);
    NextSucceeded(w, p, q, a);
    var now, before := args + [a], RegistryOf(p, a.comp);
    EntityMoves(w[a.comp], before, a.name, a.entity, |w[a.comp]|);
    RegistryGrows(w, p, q, a, a.comp);
    var after := RegistryOf(q, a.comp);
    assert now[|args|] == a;
    forall c, x | x in RegistryOf(q, c).definer
      ensures HasArg(now, c, RegistryOf(q, c).definer[x])
    {
      RegistryGrows(w, p, q, a, c);
      if x in RegistryOf(p, c).definer {
        GrewDefiner(RegistryOf(p, c), RegistryOf(q, c), x);
        var i :| 0 <= i < |args| && args[i].comp == c && args[i].name == RegistryOf(p, c).definer[x];
        assert now[i] == args[i];
      }
    }
    DepsIs(p, a.comp);
    DepsIs(q, a.comp);
    forall n, d | IsEdge(q.deps, n, d)
      ensures EarlierArg(now, n, d)
    {
      if IsEdge(p.deps, n, d) {
        var i, j :| 0 <= i < j < |args| && args[i].comp == args[j].comp && args[i].name == d && args[j].name == n;
        assert now[i] == args[i] && now[j] == args[j];
      } else {
        var x :| x in before.definer && before.definer[x] == d;
        var i :| 0 <= i < |args| && args[i].comp == a.comp && args[i].name == d;
        assert now[i] == args[i];
      }
    }
  }

  lemma DepsIs(p: Plan, c: nat)
    ensures RegistryOf(p, c).deps == p.deps
  {
  }

  /** An import depends on earlier imports of the same component only. */
  lemma {:induction false} DependsOnEarlier(w: World, compatible: M.Compatible, args: seq<Arg>)
    requires WorldOk(w) && EachOk(w, args) && PlanAll(w, compatible, args).Planned?
    ensures NamesKnown(args, PlanAll(w, compatible, args).plan)
  {
    hide ArgOk;
    hide PlanNext;
    if args != [] {
      hide NamesKnown;
      var n := |args| - 1;
      assert args == args[..n] + [args[n]];
      DependsOnEarlier(w, compatible, args[..n]);
      var p := PlanAll(w, compatible, args[..n]).plan;
      NextRegisters(w, compatible, p, args[n]);
      NamesMore(w, args[..n], p, PlanAll(w, compatible, args).plan, args[n]);
    }
  }

  /** An import of this name mentions a type that import `d` defines for its component. */
  ghost predicate Needs(w: World, args: seq<Arg>, p: Plan, n: Name, d: Name) {
    exists i :: 0 <= i < |args| && args[i].name == n && ArgNeeds(w, args[i], p, d)
  }

  ghost predicate ArgNeeds(w: World, a: Arg, p: Plan, d: Name) {
    ArgOk(w, a) && DefinesOneOf(RegistryOf(p, a.comp), d, EntityTypes(w[a.comp], a.entity, |w[a.comp]|))
  }

  lemma NeedsStay(w: World, args: seq<Arg>, p: Plan, q: Plan, a: Arg, n: Name, d: Name)
    requires WorldOk(w) && ArgOk(w, a) && RegisteredNext(w, p, q, a) && Needs(w, args, p, n, d)
    ensures Needs(w, args + [a], q, n, d)
  {
    hide ArgOk;
    hide RegisteredNext;
    hide EntityTypes;
    hide RegistryOf;
    var i :| 0 <= i < |args| && args[i].name == n && ArgNeeds(w, args[i], p, d);
    var b := args[i];
    ArgParts(w, b);
    RegistryGrows(w, p, q, a, b.comp);
    var types := EntityTypes(w[b.comp], b.entity, |w[b.comp]|);
    var x :| x in types && x in RegistryOf(p, b.comp).definer && RegistryOf(p, b.comp).definer[x] == d;
    GrewDefiner(RegistryOf(p, b.comp), RegistryOf(q, b.comp), x);
    assert (args + [a])[i] == b && ArgNeeds(w, b, q, d);
  }

  /** No import depends on another without need. */
  lemma {:induction false} DependsIfNeeded(w: World, compatible: M.Compatible, args: seq<Arg>)
    requires WorldOk(w) && EachOk(w, args) && PlanAll(w, compatible, args).Planned?
    ensures var p := PlanAll(w, compatible, args).plan;
            forall n, d :: IsEdge(p.deps, n, d) ==> Needs(w, args, p, n, d)
  {
    hide ArgOk;
    hide PlanNext;
    hide Needs;
    hide AfterEntity;
    if args != [] {
      var m := |args| - 1;
      var init, a := args[..m], args[m];
      assert args == init + [a];
      DependsIfNeeded(w, compatible, init);
      var p, q := PlanAll(w, compatible, init).plan, PlanAll(w, compatible, args).plan;
      NextRegisters(w, compatible, p, a);
      forall n, d | IsEdge(q.deps, n, d)
        ensures Needs(w, args, q, n, d)
      {
        if IsEdge(p.deps, n, d) {
          NeedsStay(w, init, p, q, a, n, d);
        } else {
          NewNeeds(w, init, p, q, a, n, d);
        }
      }
    }
  }

  lemma NewNeeds(w: World, args: seq<Arg>, p: Plan, q: Plan, a: Arg, n: Name, d: Name)
    requires WorldOk(w) && ArgOk(w, a) && RegisteredNext(w, p, q, a)
    requires IsEdge(q.deps, n, d) && !IsEdge(p.deps, n, d)
    ensures Needs(w, args + [a], q, n, d)
  {
    hide ArgOk;
    hide RegisteredNext;
    hide EntityTypes;
    hide RegistryOf;
    hide IsEdge;
    hide AfterEntity;
    ArgParts(w, a);
    NextSucceeded(w, p, q, a);
    var c := a.comp;
    EntityEdges(w[c], RegistryOf(p, c), a.name, a.entity, |w[c]|, EntityTypes(w[c], a.entity, |w[c]|));
    RegistryGrows(w, p, q, a, c);
    DepsIs(p, c);
    DepsIs(q, c);
    assert ArgNeeds(w, a, q, d) && n == a.name;
    assert (args + [a])[|args|] == a;
  }

  /** If some order of names suits all components there are no cycles. */
  lemma OneOrderAcyclic(w: World, compatible: M.Compatible, args: seq<Arg>, rank: Name -> nat)
    requires WorldOk(w) && EachOk(w, args) && PlanAll(w, compatible, args).Planned?
    requires forall i, j :: 0 <= i < j < |args| && args[i].comp == args[j].comp ==>
               rank(args[i].name) < rank(args[j].name)
    ensures Acyclic(PlanAll(w, compatible, args).plan.deps)
  {
    hide PlanAll;
    var deps := PlanAll(w, compatible, args).plan.deps;
    DependsOnEarlier(w, compatible, args);
    forall n, d | n in deps && d in deps[n]
      ensures rank(d) < rank(n)
    {
      assert IsEdge(deps, n, d);
      assert EarlierArg(args, n, d);
    }
    assert Ranks(deps, rank);
  }

  // ----- sorting -----

  function NamesOf(entries: seq<ImportEntry>): (names: seq<Name>)
    ensures |names| == |entries| && forall j :: 0 <= j < |names| ==> names[j] == entries[j].name
  {
    seq(|entries|, j requires 0 <= j < |entries| => entries[j].name)
  }

  /** The same entries, each after those it depends on. */
  ghost predicate SortedFrom(entries: seq<ImportEntry>, deps: Deps, sorted: seq<ImportEntry>) {
    && |sorted| == |entries| && (forall i, j :: 0 <= i < j < |sorted| ==> sorted[i].name != sorted[j].name)
    && (forall e :: e in sorted <==> e in entries)
    && (forall i, d :: 0 <= i < |sorted| && IsEdge(deps, sorted[i].name, d) && d in NamesOf(entries) ==>
          d in NamesOf(sorted)[..i])
  }

  /** Each name in turn with its entry. */
  ghost predicate Follows(entries: seq<ImportEntry>, names: seq<Name>, sorted: seq<ImportEntry>) {
    |sorted| == |names| && forall k :: 0 <= k < |sorted| ==> sorted[k] in entries && sorted[k].name == names[k]
  }

  method SortEntries(entries: seq<ImportEntry>, deps: Deps) returns (sorted: seq<ImportEntry>)
    requires Acyclic(deps) && forall i, j :: 0 <= i < j < |entries| ==> entries[i].name != entries[j].name
    ensures SortedFrom(entries, deps, sorted)
    ensures TopologicalOrder(deps, NamesOf(entries)) ==> sorted == entries
  {
    hide TopologicalOrder;
    hide SortedFrom;
    var names := SortImports(NamesOf(entries), deps);
    SameNames(names, NamesOf(entries));
    sorted := [];
    for i := 0 to |names|
      invariant |sorted| == i && Follows(entries, names[..i], sorted)
    {
      assert names[i] in names;
      var at := EntryIndex(entries, names[i]);
      sorted := sorted + [entries[at.value]];
    }
    assert names[..|names|] == names;
    if names == NamesOf(entries) {
      SameEntries(entries, sorted);
    }
    FollowsSorted(entries, deps, names, sorted);
  }

  lemma SameNames(a: seq<Name>, b: seq<Name>)
    requires multiset(a) == multiset(b)
    ensures |a| == |b| && forall n :: n in a <==> n in b
  {
    assert |multiset(a)| == |multiset(b)|;
    forall n
      ensures n in a <==> n in b
    {
      assert n in multiset(a) <==> n in multiset(b);
    }
  }

  lemma FollowsSorted(entries: seq<ImportEntry>, deps: Deps, names: seq<Name>, sorted: seq<ImportEntry>)
    requires Distinct(names) && Follows(entries, names, sorted) && |names| == |entries|
    requires forall n :: n in names <==> n in NamesOf(entries)
    requires forall i, j :: 0 <= i < j < |entries| ==> entries[i].name != entries[j].name
    requires forall i, d :: 0 <= i < |names| && d in DepsOf(deps, names[i]) && d in NamesOf(entries) ==> d in names[..i]
    ensures SortedFrom(entries, deps, sorted)
  {
    assert NamesOf(sorted) == names;
    forall e | e in entries
      ensures e in sorted
    {
      var j :| 0 <= j < |entries| && entries[j] == e;
      assert NamesOf(entries)[j] == e.name && e.name in names;
      var k :| 0 <= k < |names| && names[k] == e.name;
      assert sorted[k] in entries;
    }
  }

  lemma SameEntries(entries: seq<ImportEntry>, sorted: seq<ImportEntry>)
    requires forall i, j :: 0 <= i < j < |entries| ==> entries[i].name != entries[j].name
    requires |sorted| == |entries| && forall k :: 0 <= k < |sorted| ==>
               sorted[k] in entries && sorted[k].name == entries[k].name
    ensures sorted == entries
  {
    forall k | 0 <= k < |sorted|
      ensures sorted[k] == entries[k]
    {
      var j :| 0 <= j < |entries| && entries[j] == sorted[k];
    }
  }

  lemma SortedIsFrom(w: World, args: seq<Arg>, entries: seq<ImportEntry>, deps: Deps, sorted: seq<ImportEntry>)
    requires EachOk(w, args) && EntriesFrom(w, args, entries) && SortedFrom(entries, deps, sorted)
    ensures EntriesFrom(w, args, sorted)
  {
    hide ArgOk;
    hide EntryFrom;
    hide NamesOf;
    hide Asked;
    hide IsEdge;
    forall j | 0 <= j < |sorted|
      ensures EntryFrom(w, args, sorted[j])
      ensures Asked(args, sorted[j].name)
    {
      assert sorted[j] in entries;
      var k :| 0 <= k < |entries| && entries[k] == sorted[j];
      assert EntryFrom(w, args, entries[k]) && Asked(args, entries[k].name);
    }
    forall i | 0 <= i < |args|
      ensures HasEntry(sorted, args[i].name)
    {
      assert HasEntry(entries, args[i].name);
      var j :| 0 <= j < |entries| && entries[j].name == args[i].name;
      assert entries[j] in sorted;
      var k :| 0 <= k < |sorted| && sorted[k] == entries[j];
    }
  }

  /** What an import mentions is defined by an import that comes no later. */
  ghost predicate DefinedInTime(w: World, a: Arg, p: Plan, sorted: seq<ImportEntry>)
    requires ArgOk(w, a)
  {
    forall i, x: nat :: 0 <= i < |sorted| && sorted[i].name == a.name
                        && VisitsEntity(w[a.comp], a.entity, |w[a.comp]|, x) ==>
      && x in RegistryOf(p, a.comp).definer
      && RegistryOf(p, a.comp).definer[x] in NamesOf(sorted)[..i + 1]
  }

  lemma SortedInTime(w: World, args: seq<Arg>, p: Plan, sorted: seq<ImportEntry>, k: nat)
    requires WorldOk(w) && EachOk(w, args) && GoodPlan(w, args, p) && NamesKnown(args, p)
    requires SortedFrom(p.entries, p.deps, sorted) && k < |args| && ArgOk(w, args[k])
    ensures DefinedInTime(w, args[k], p, sorted)
  {
    hide ArgOk;
    hide Once;
    hide EntryFrom;
    hide VisitsEntity;
    hide Closed;
    hide TypesOk;
    var order, a := NamesOf(sorted), args[k];
    ArgParts(w, a);
    AllInOrder(w, args, p, sorted);
    forall i, x: nat | 0 <= i < |sorted| && sorted[i].name == a.name
                       && VisitsEntity(w[a.comp], a.entity, |w[a.comp]|, x)
      ensures x in RegistryOf(p, a.comp).definer && RegistryOf(p, a.comp).definer[x] in order[..i + 1]
    {
      assert ArgRegistered(w, p, a);
      assert Leads(RegistryOf(p, a.comp), a.name, x);
      var path :| IsPath(p.deps, path) && path[0] == a.name && path[|path| - 1] == RegistryOf(p, a.comp).definer[x];
      PathEarlier(p.deps, order, path, i);
    }
  }

  lemma AllInOrder(w: World, args: seq<Arg>, p: Plan, sorted: seq<ImportEntry>)
    requires EachOk(w, args) && EntriesFrom(w, args, p.entries) && NamesKnown(args, p)
    requires SortedFrom(p.entries, p.deps, sorted)
    ensures var order := NamesOf(sorted);
            forall j, d :: 0 <= j < |order| && d in DepsOf(p.deps, order[j]) ==> d in order[..j]
  {
    hide ArgOk;
    hide EntryFrom;
    var order := NamesOf(sorted);
    forall j, d | 0 <= j < |order| && d in DepsOf(p.deps, order[j])
      ensures d in order[..j]
    {
      assert IsEdge(p.deps, sorted[j].name, d);
      var i, k :| 0 <= i < k < |args| && args[i].comp == args[k].comp && args[i].name == d && args[k].name == order[j];
      assert HasEntry(p.entries, args[i].name);
      var m :| 0 <= m < |p.entries| && p.entries[m].name == d;
      assert NamesOf(p.entries)[m] == d && d in NamesOf(p.entries);
    }
  }

  // ----- from beginning to end, as it is written -----

  method RegisterImport(w: World, definer: map<nat, Name>, deps: Deps, a: Arg) returns (r: Option<Registry>)
    requires ArgOk(w, a)
    ensures r == AfterEntity(w[a.comp], Registry(definer, deps), a.name, a.entity, |w[a.comp]|)
  {
    var registrar := new Registrar(w[a.comp], deps);
    registrar.definer, registrar.cur := definer, a.name;
    var ok := registrar.Entity(a.entity, |w[a.comp]|);
    r := if ok then Some(registrar.State()) else None;
  }

  method MergeImport(w: World, compatible: M.Compatible, e: ImportEntry, a: Arg) returns (r: Option<ImportEntry>)
    requires ItemOk(w, e) && ArgOk(w, a)
    ensures r == Merged(w, compatible, e, a)
  {
    var existing := AsInstance(w, e);
    match existing {
      case InstanceImport(name, exports) =>
        if !a.entity.InstanceE? {
          return None;
        }
        var merged := M.MergeViews(compatible, exports, a.comp, Members(w, a));
        r := if merged.Some? then Some(InstanceImport(name, merged.value)) else None;
      case ItemImport(_, comp, entity) =>
        r := if compatible(View(comp, entity), View(a.comp, a.entity)) then Some(existing) else None;
    }
  }

  method PlanImports(w: World, compatible: M.Compatible, args: seq<Arg>) returns (r: Planning)
    requires EachOk(w, args)
    ensures r == PlanAll(w, compatible, args)
  {
    hide ArgOk;
    hide ItemOk;
    hide Merged;
    hide AfterEntity;
    var entries: seq<ImportEntry>, definers: map<nat, map<nat, Name>>, deps: Deps := [], map[], map[];
    for i := 0 to |args|
      invariant PlanAll(w, compatible, args[..i]) == Planned(Plan(entries, definers, deps))
    {
      assert args[..i + 1][..i] == args[..i];
      var a := args[i];
      var definer := if a.comp in definers then definers[a.comp] else map[];
      var registered := RegisterImport(w, definer, deps, a);
      if registered.None? {
        PlanStops(w, compatible, args, i + 1);
        return Asserts;
      }
      var at := EntryIndex(entries, a.name);
      if at.Some? {
        var merged := MergeImport(w, compatible, entries[at.value], a);
        if merged.None? {
          PlanStops(w, compatible, args, i + 1);
          return Conflicts;
        }
        entries := entries[at.value := merged.value];
      } else {
        entries := entries + [ItemImport(a.name, a.comp, a.entity)];
      }
      definers, deps := definers[a.comp := registered.value.definer], registered.value.deps;
    }
    assert args[..|args|] == args;
    return Planned(Plan(entries, definers, deps));
  }

  lemma {:induction false} PlanStops(w: World, compatible: M.Compatible, args: seq<Arg>, i: nat)
    requires EachOk(w, args) && i <= |args| && !PlanAll(w, compatible, args[..i]).Planned?
    ensures PlanAll(w, compatible, args) == PlanAll(w, compatible, args[..i])
    decreases |args| - i
  {
    hide PlanNext;
    if i < |args| {
      assert args[..i + 1][..i] == args[..i];
      PlanStops(w, compatible, args, i + 1);
    } else {
      assert args[..i] == args;
    }
  }

  /** Every import of every component is provided by the emitted item of its name, and nothing is unwanted. */
  ghost predicate Satisfies(w: World, items: seq<Item>, args: seq<Arg>)
    requires EachOk(w, args)
  {
    && Eval(items, []).Some?
    && (forall i :: 0 <= i < |args| ==> ProvidedFor(w, Eval(items, []).value.imports, args[i]))
    && (forall j :: 0 <= j < |Eval(items, []).value.imports| ==> Wanted(w, args, Eval(items, []).value.imports[j]))
  }

  ghost predicate ProvidedFor(w: World, imports: seq<MNamed>, a: Arg) {
    ArgOk(w, a) && exists j :: 0 <= j < |imports| && Provides(w, imports[j], a)
  }

  lemma MeansSatisfies(w: World, args: seq<Arg>, entries: seq<ImportEntry>, items: seq<Item>)
    requires ArgsOk(w, args) && EntriesFrom(w, args, entries) && EntriesOk(w, entries)
    requires MeansImports(w, items, entries)
    ensures Satisfies(w, items, args)
  {
    hide ArgOk;
    hide Eval;
    hide EntryFrom;
    hide EntryOk;
    hide EntryMeaning;
    hide Provides;
    hide Wanted;
    var imports := Eval(items, []).value.imports;
    forall i | 0 <= i < |args|
      ensures ProvidedFor(w, imports, args[i])
    {
      assert HasEntry(entries, args[i].name);
      var j :| 0 <= j < |entries| && entries[j].name == args[i].name;
      assert EntryFrom(w, args, entries[j]) && EntryOk(w, entries[j]);
      EntryProvides(w, args, entries[j]);
      assert Provides(w, imports[j], args[i]);
    }
    forall j | 0 <= j < |imports|
      ensures Wanted(w, args, imports[j])
    {
      assert EntryFrom(w, args, entries[j]) && EntryOk(w, entries[j]);
      EntryProvides(w, args, entries[j]);
    }
  }

  datatype Encoding = AssertionFails | ConflictFound | Imports(items: seq<Item>)

  function Translated(w: World, entries: seq<ImportEntry>): Encoding
    requires WorldOk(w) && EntriesOk(w, entries)
  {
    var outcome := AllImported(w, Start, entries);
    if outcome.Panics? then AssertionFails else Imports(outcome.st.cur.items)
  }

  /**
   The imports of the composed component. If the registrations and merges succeed, and names are
   in order, then nothing fails in the translation, and each component finds what it expects.
   */
  method EncodeImports(w: World, compatible: M.Compatible, args: seq<Arg>)
    returns (r: Encoding, ghost sorted: seq<ImportEntry>)
    requires WorldOk(w) && ArgsOk(w, args) && M.Faithful(w, compatible)
    requires PlanAll(w, compatible, args).Planned? ==> Acyclic(PlanAll(w, compatible, args).plan.deps)
    ensures PlanAll(w, compatible, args).Asserts? ==> r == AssertionFails
    ensures PlanAll(w, compatible, args).Conflicts? <==> r == ConflictFound
    ensures r == ConflictFound ==> exists i, j :: OpposedAt(w, compatible, args, i, j)
    ensures PlanAll(w, compatible, args).Planned? ==> forall i, j :: !OpposedAt(w, compatible, args, i, j)
    ensures PlanAll(w, compatible, args).Planned? ==>
              var p := PlanAll(w, compatible, args).plan;
              && SortedFrom(p.entries, p.deps, sorted) && EntriesOk(w, sorted)
              && (forall i :: 0 <= i < |args| ==> ArgOk(w, args[i]) && DefinedInTime(w, args[i], p, sorted))
              && (TopologicalOrder(p.deps, NamesOf(p.entries)) ==> sorted == p.entries)
              && r == Translated(w, sorted) && (NoNames(w) ==> InOrderAll(w, sorted))
              && (InOrderAll(w, sorted) ==> r.Imports? && Satisfies(w, r.items, args))
  {
    hide ArgOk;
    hide PlanAll;
    hide M.Faithful;
    hide NamesKnown;
    hide EntriesOk;
    hide NoClash;
    hide MeansImports;
    hide NoNames;
    hide DefinedInTime;
    hide Satisfies;
    hide AllImported;
    hide NamesOf;
    hide OpposedAt;
    sorted := [];
    var planning := PlanImports(w, compatible, args);
    AllOpposed(w, compatible, args);
    match planning {
      case Asserts =>
        r := AssertionFails;
      case Conflicts =>
        r := ConflictFound;
      case Planned(p) =>
        PlansAreGood(w, compatible, args);
        DependsOnEarlier(w, compatible, args);
        var entries := SortEntries(p.entries, p.deps);
        sorted := entries;
        SortedReady(w, args, p, sorted);
        var items := TranslateImports(w, entries);
        if InOrderAll(w, sorted) {
          RegisteredNoClash(w, args, sorted);
          MeansSatisfies(w, args, sorted, items.value);
        }
        r := if items.Some? then Imports(items.value) else AssertionFails;
    }
  }

  lemma SortedReady(w: World, args: seq<Arg>, p: Plan, sorted: seq<ImportEntry>)
    requires WorldOk(w) && EachOk(w, args) && GoodPlan(w, args, p) && NamesKnown(args, p)
    requires SortedFrom(p.entries, p.deps, sorted)
    ensures EntriesFrom(w, args, sorted) && EntriesOk(w, sorted)
    ensures forall i :: 0 <= i < |args| ==> ArgOk(w, args[i]) && DefinedInTime(w, args[i], p, sorted)
    ensures NoNames(w) ==> InOrderAll(w, sorted)
  {
    hide ArgOk;
    hide NamesKnown;
    hide EntriesFrom;
    hide EntriesOk;
    hide SortedFrom;
    hide NoNames;
    hide DefinedInTime;
    hide InOrderAll;
    SortedIsFrom(w, args, p.entries, p.deps, sorted);
    EntriesFromOk(w, args, sorted);
    forall i | 0 <= i < |args|
      ensures ArgOk(w, args[i]) && DefinedInTime(w, args[i], p, sorted)
    {
      SortedInTime(w, args, p, sorted, i);
    }
    if NoNames(w) {
      NoNamesInOrder(w, sorted);
    }
  }

  // ----- conflicts -----

  /** An export of one instance and the export of the same name of the other are not compatible. */
  ghost predicate ExportsOppose(w: World, compatible: M.Compatible, b: Arg, a: Arg)
    requires ArgOk(w, a) && ArgOk(w, b) && a.entity.InstanceE? && b.entity.InstanceE?
  {
    exists m, n :: m in Members(w, b) && n in Members(w, a) && m.name == n.name
                && !compatible(View(b.comp, m.entity), View(a.comp, n.entity))
  }

  /**
   Two imports of one name cannot both be met: one is of an instance and the other is not, they
   are instances of which exports disagree, or the earlier one is the first of its name and the
   later one is not compatible with it.
   */
  ghost predicate Opposes(w: World, compatible: M.Compatible, args: seq<Arg>, b: Arg, a: Arg)
    requires ArgOk(w, a) && ArgOk(w, b)
  {
    && a.name == b.name
    && if a.entity.InstanceE? && b.entity.InstanceE? then ExportsOppose(w, compatible, b, a)
       else if a.entity.InstanceE? || b.entity.InstanceE? then true
       else IsFirst(args, b) && !compatible(View(b.comp, b.entity), View(a.comp, a.entity))
  }

  lemma {:induction false} SomeFirst(args: seq<Arg>, i: nat) returns (j: nat)
    requires i < |args|
    ensures j <= i && args[j].name == args[i].name && forall k :: 0 <= k < j ==> args[k].name != args[i].name
  {
    if k :| 0 <= k < i && args[k].name == args[i].name {
      j := SomeFirst(args, k);
    } else {
      j := i;
    }
  }

  lemma FirstIsOne(args: seq<Arg>, a: Arg, b: Arg)
    requires IsFirst(args, a) && IsFirst(args, b) && a.name == b.name
    ensures a == b
  {
    var i :| 0 <= i < |args| && args[i] == a && forall j :: 0 <= j < i ==> args[j].name != a.name;
    var k :| 0 <= k < |args| && args[k] == b && forall j :: 0 <= j < k ==> args[j].name != b.name;
    assert i == k;
  }

  lemma DisagreeingOpposes(w: World, compatible: M.Compatible, args: seq<Arg>, e: ImportEntry, a: Arg, n: Named)
    returns (i: nat)
    requires ArgsOk(w, args) && ArgOk(w, a) && e.InstanceImport? && EntryFrom(w, args, e) && e.name == a.name
    requires a.entity.InstanceE? && n in Members(w, a) && M.Disagrees(compatible, e.exports, a.comp, n)
    ensures i < |args| && ArgOk(w, args[i]) && Opposes(w, compatible, args, args[i], a)
  {
    hide ArgOk;
    hide M.MergedFrom;
    hide M.ViewsOf;
    hide IsFirst;
    hide Members;
    var u :| u in M.ViewsOf(e.exports, n.name) && !compatible(u, View(a.comp, n.entity));
    M.ViewsAreContributed(w, e.exports, PartsOf(w, args, e.name), n.name, u);
    i := PartsFrom(w, args, e.name, u.comp);
    var m := Named(n.name, u.entity);
    assert m in Members(w, args[i]) && View(args[i].comp, m.entity) == u;
  }

  lemma OpposingDisagrees(w: World, compatible: M.Compatible, args: seq<Arg>, e: ImportEntry, a: Arg, i: nat)
    returns (n: Named)
    requires ArgsOk(w, args) && ArgOk(w, a) && e.InstanceImport? && EntryFrom(w, args, e) && e.name == a.name
    requires a.entity.InstanceE? && i < |args| && ArgOk(w, args[i]) && Opposes(w, compatible, args, args[i], a)
    ensures n in Members(w, a) && M.Disagrees(compatible, e.exports, a.comp, n)
  {
    hide ArgOk;
    hide M.MergedFrom;
    hide M.ViewsOf;
    hide IsFirst;
    hide Members;
    var m: Named;
    m, n :| m in Members(w, args[i]) && n in Members(w, a) && m.name == n.name
            && !compatible(View(args[i].comp, m.entity), View(a.comp, n.entity));
    PartsHave(w, args, i);
    var u := View(args[i].comp, m.entity);
    assert Named(n.name, u.entity) == m;
    M.ViewsAreContributed(w, e.exports, PartsOf(w, args, e.name), n.name, u);
  }

  /** Merging into an instance fails exactly if some instance of the name opposes. */
  lemma InstanceConflict(w: World, compatible: M.Compatible, args: seq<Arg>, e: ImportEntry, a: Arg)
    requires ArgsOk(w, args) && ArgOk(w, a) && e.InstanceImport? && EntryFrom(w, args, e) && e.name == a.name
    requires a.entity.InstanceE?
    ensures M.AddViews(compatible, e.exports, a.comp, Members(w, a)).None? <==>
            exists i :: 0 <= i < |args| && Opposes(w, compatible, args, args[i], a)
  {
    hide ArgOk;
    hide EntryFrom;
    hide M.AddViews;
    hide M.Disagrees;
    hide Opposes;
    hide Members;
    var xs, ns := e.exports, Members(w, a);
    MembersFit(w, a);
    M.AddViewsIs(compatible, xs, a.comp, ns);
    if p :| 0 <= p < |ns| && M.Disagrees(compatible, xs, a.comp, ns[p]) {
      var i := DisagreeingOpposes(w, compatible, args, e, a, ns[p]);
    }
    if i :| 0 <= i < |args| && Opposes(w, compatible, args, args[i], a) {
      var n := OpposingDisagrees(w, compatible, args, e, a, i);
      var p :| 0 <= p < |ns| && ns[p] == n;
      assert M.Disagrees(compatible, xs, a.comp, ns[p]);
    }
  }

  /** An import is refused exactly if one before it opposes it. */
  lemma ConflictIff(w: World, compatible: M.Compatible, args: seq<Arg>, entries: seq<ImportEntry>, a: Arg)
    requires ArgsOk(w, args) && ArgOk(w, a) && M.Faithful(w, compatible)
    requires EntriesFrom(w, args, entries) && ItemsOk(w, entries)
    ensures Add(w, compatible, entries, a).None? <==>
            exists i :: 0 <= i < |args| && Opposes(w, compatible, args, args[i], a)
  {
    hide EntryFrom;
    hide ArgOk;
    hide ItemOk;
    hide Opposes;
    hide Merged;
    hide M.Faithful;
    match EntryIndex(entries, a.name) {
      case None =>
        NamesDiffer(w, args, entries, a.name);
        forall i | 0 <= i < |args|
          ensures !Opposes(w, compatible, args, args[i], a)
        {
          SameNameOnly(w, compatible, args, args[i], a);
        }
      case Some(j) =>
        MergedConflict(w, compatible, args, entries[j], a);
    }
  }

  lemma SameNameOnly(w: World, compatible: M.Compatible, args: seq<Arg>, b: Arg, a: Arg)
    requires ArgOk(w, a) && ArgOk(w, b)
    ensures Opposes(w, compatible, args, b, a) ==> a.name == b.name
  {
  }

  lemma MergedConflict(w: World, compatible: M.Compatible, args: seq<Arg>, e: ImportEntry, a: Arg)
    requires ArgsOk(w, args) && ArgOk(w, a) && M.Faithful(w, compatible)
    requires EntryFrom(w, args, e) && ItemOk(w, e) && e.name == a.name && Asked(args, e.name)
    ensures Merged(w, compatible, e, a).None? <==>
            exists i :: 0 <= i < |args| && Opposes(w, compatible, args, args[i], a)
  {
    hide ArgOk;
    hide ViewOk;
    hide ViewMeaning;
    hide M.MergedFrom;
    hide M.AddViews;
    hide AsInstance;
    AsInstanceFrom(w, args, e);
    var inst := AsInstance(w, e);
    match inst {
      case InstanceImport(name, exports) =>
        if a.entity.InstanceE? {
          InstanceConflict(w, compatible, args, inst, a);
        } else {
          var i :| 0 <= i < |args| && args[i].name == e.name;
          assert args[i].entity.InstanceE?;
          assert Opposes(w, compatible, args, args[i], a);
        }
      case ItemImport(name, comp, entity) =>
        ItemConflict(w, compatible, args, inst, a);
    }
  }

  lemma ItemConflict(w: World, compatible: M.Compatible, args: seq<Arg>, e: ImportEntry, a: Arg)
    requires ArgsOk(w, args) && ArgOk(w, a) && M.Faithful(w, compatible) && e.ItemImport? && !e.entity.InstanceE?
    requires EntryFrom(w, args, e) && e.name == a.name
    ensures !compatible(View(e.comp, e.entity), View(a.comp, a.entity)) <==>
            exists i :: 0 <= i < |args| && Opposes(w, compatible, args, args[i], a)
  {
    hide ViewOk;
    hide ViewMeaning;
    hide IsFirst;
    var first := Arg(e.comp, e.name, e.entity);
    FirstStays(args, first, first);
    var k :| 0 <= k < |args| && args[k] == first;
    if compatible(View(e.comp, e.entity), View(a.comp, a.entity)) {
      NotInstance(w, a, first);
      forall i | 0 <= i < |args|
        ensures !Opposes(w, compatible, args, args[i], a)
      {
        if args[i].name == a.name {
          NotInstance(w, args[i], first);
          if IsFirst(args, args[i]) {
            FirstIsOne(args, args[i], first);
          }
        }
      }
    } else {
      assert Opposes(w, compatible, args, args[k], a);
    }
  }

  /** The imports before position `j`, and the one there, oppose each other. */
  ghost predicate OpposedAt(w: World, compatible: M.Compatible, args: seq<Arg>, i: int, j: int) {
    0 <= i < j < |args| && ArgOk(w, args[i]) && ArgOk(w, args[j]) && Opposes(w, compatible, args[..j], args[i], args[j])
  }

  ghost predicate SomeOpposed(w: World, compatible: M.Compatible, args: seq<Arg>, n: nat) {
    exists i, j :: j < n && OpposedAt(w, compatible, args, i, j)
  }

  lemma OpposedNext(w: World, compatible: M.Compatible, args: seq<Arg>, n: nat)
    requires ArgsOk(w, args) && n < |args| && EachOk(w, args[..n]) && ArgOk(w, args[n])
    ensures SomeOpposed(w, compatible, args, n + 1) <==>
            || SomeOpposed(w, compatible, args, n)
            || exists i :: 0 <= i < |args[..n]| && Opposes(w, compatible, args[..n], args[..n][i], args[n])
  {
    hide ArgOk;
    hide Opposes;
    var init := args[..n];
    if i :| 0 <= i < |init| && Opposes(w, compatible, init, init[i], args[n]) {
      assert init[i] == args[i] && OpposedAt(w, compatible, args, i, n);
    }
    if SomeOpposed(w, compatible, args, n + 1) && !SomeOpposed(w, compatible, args, n) {
      var i, j :| j < n + 1 && OpposedAt(w, compatible, args, i, j);
      assert j == n && init[i] == args[i];
    }
  }

  /** A plan exists only if no two imports oppose each other, and a conflict is reported only if two do. */
  lemma {:induction false} PlanConflicts(w: World, compatible: M.Compatible, args: seq<Arg>, n: nat)
    requires WorldOk(w) && ArgsOk(w, args) && M.Faithful(w, compatible) && n <= |args|
    ensures PlanAll(w, compatible, args[..n]).Planned? ==> !SomeOpposed(w, compatible, args, n)
    ensures PlanAll(w, compatible, args[..n]).Conflicts? ==> SomeOpposed(w, compatible, args, n)
    decreases n
  {
    hide ArgOk;
    hide M.Faithful;
    hide AfterEntity;
    hide Add;
    hide GoodPlan;
    hide Opposes;
    hide SomeOpposed;
    hide EntriesFrom;
    if n == 0 {
      NoneOpposed(w, compatible, args);
    } else {
      var init := args[..n - 1];
      assert args[..n][..n - 1] == init;
      PlanConflicts(w, compatible, args, n - 1);
      OpposedNext(w, compatible, args, n - 1);
      if PlanAll(w, compatible, init).Planned? {
        var p := PlanAll(w, compatible, init).plan;
        PlansAreGood(w, compatible, init);
        GoodEntries(w, init, p);
        ConflictIff(w, compatible, init, p.entries, args[n - 1]);
      }
    }
  }

  lemma NoneOpposed(w: World, compatible: M.Compatible, args: seq<Arg>)
    ensures !SomeOpposed(w, compatible, args, 0)
  {
  }

  lemma AllOpposed(w: World, compatible: M.Compatible, args: seq<Arg>)
    requires WorldOk(w) && ArgsOk(w, args) && M.Faithful(w, compatible)
    ensures PlanAll(w, compatible, args).Planned? ==> forall i, j :: !OpposedAt(w, compatible, args, i, j)
    ensures PlanAll(w, compatible, args).Conflicts? ==> exists i, j :: OpposedAt(w, compatible, args, i, j)
  {
    hide ArgOk;
    hide PlanAll;
    hide Opposes;
    hide M.Faithful;
    assert args[..|args|] == args;
    PlanConflicts(w, compatible, args, |args|);
    forall i, j | OpposedAt(w, compatible, args, i, j)
      ensures SomeOpposed(w, compatible, args, |args|)
    {
    }
  }

  lemma GoodEntries(w: World, args: seq<Arg>, p: Plan)
    requires WorldOk(w) && EachOk(w, args) && GoodPlan(w, args, p)
    ensures EntriesFrom(w, args, p.entries)
  {
  }

  // ----- references in merged instances -----

  /** In every merged instance of a plan references to what components export lead to the exports. */
  lemma PlannedReference(w: World, args: seq<Arg>, e: ImportEntry, st: T.TState, n: nat, now: T.TState, i: nat, a: nat,
      k: Key)
    requires WorldOk(w) && EachOk(w, args) && EntryFrom(w, args, e) && e.InstanceImport? && i < n <= |e.exports|
    requires FirstViewsOk(w, e.exports) && AllExported(w, T.Push(st, InstanceBody), e.exports[..n]).Done?
    requires InView(e.exports, i, a, k)
    requires R.Later(AllExported(w, T.Push(st, InstanceBody), e.exports[..n]).st.cur, now.cur)
    ensures InWorld(w, k)
    ensures var r := T.Ty(w, now, k.comp, k.id);
            && r.Done? && r.st == now.(cur := now.cur.(typeDefs := now.cur.typeDefs[k := r.value]))
            && R.IsTheExport(now.cur.items, e.exports[i].name, r.value)
  {
    hide M.MergedFrom;
    hide MergedOk;
    hide AllExported;
    hide R.ViewsFresh;
    hide R.Later;
    hide R.IsTheExport;
    hide T.Ty;
    M.MergedFromOk(w, e.exports, PartsOf(w, args, e.name));
    M.MergedFromFresh(w, e.exports, PartsOf(w, args, e.name));
    R.ReferenceIsExport(w, st, e.exports, n, now, i, a, k);
  }
}
