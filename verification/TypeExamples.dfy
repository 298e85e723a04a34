/**
 Three worlds in which wasm-compose goes wrong: an instance type that is named long before an
 instance of it is made, one that is named twice, and two components that want two imports in
 opposite orders.
 */
module TypeExamples {
  import opened Common
  import opened ComponentTypes
  import opened TypeScopes
  import opened TypeOrder
  import opened TypeImports
  import opened ImportOrder
  import opened ImportDeps
  import opened ImportPlan
  import M = ImportMerge
  import T = Translation

  // ----- instance types that export a name for a type without parts -----

  /** A type without parts is defined in place. */
  lemma LeafTy(w: World, st: T.TState, c: nat, id: nat, shape: string)
    requires WorldOk(w) && c < |w| && id < |w[c]| && w[c][id] == Ctor(shape, [])
    requires Key(c, id) !in st.cur.typeDefs && T.Find(st, Key(c, id)).None?
    ensures T.Ty(w, st, c, id)
         == T.Done(T.TState(st.scopes, st.cur.(items := st.cur.items + [DefCtor(shape, [])],
                                               typeDefs := st.cur.typeDefs[Key(c, id) := TypeCount(st.cur.items)])),
                   TypeCount(st.cur.items))
  {
    hide T.Find;
    assert T.ValTypes(w, st, c, [], id) == T.Done(st, []);
    assert T.Define(w, st, c, id) == T.Done(T.Emit(st, DefCtor(shape, [])), TypeCount(st.cur.items));
    assert T.TyInner(w, st, c, id) == T.Define(w, st, c, id);
  }

  function LeafBody(shape: string): seq<Item> {
    [DefCtor(shape, []), ExportItem("t", TType(0))]
  }

  /** The scope of an instance type that exports a name for such a type. */
  function LeafScope(c: nat, leaf: nat, created: nat, shape: string): Scope {
    Scope(map[Key(c, leaf) := 0, Key(c, created) := 1], map[Key(c, created) := "t"],
          map["t" := [Key(c, created)]], map[], InstanceBody, LeafBody(shape))
  }

  lemma LeafExported(w: World, st: T.TState, c: nat, leaf: nat, created: nat, shape: string, bound: nat)
    requires WorldOk(w) && c < |w| && created < bound <= |w[c]| && leaf < created && w[c][leaf] == Ctor(shape, [])
    requires w[c][created] == Alias(leaf) && st.cur == NewScope(InstanceBody)
    requires T.Holder(st.scopes, Key(c, leaf)).None?
    ensures NamedOk(w[c], [Named("t", TypeE(created, leaf))], bound)
    ensures T.ExportAll(w, st, c, [Named("t", TypeE(created, leaf))], bound)
         == T.Done(T.TState(st.scopes, LeafScope(c, leaf, created, shape)), ())
  {
    hide T.Ty;
    hide T.Holder;
    var e := TypeE(created, leaf);
    var exports := [Named("t", e)];
    LeafTy(w, st, c, leaf, shape);
    assert exports[..0] == [];
    assert T.ExportAll(w, st, c, [], bound) == T.Done(st, ());
    CountOne(shape);
    var defined := Scope(map[Key(c, leaf) := 0], map[], map[], map[], InstanceBody, [DefCtor(shape, [])]);
    assert T.EntityRef(w, st, c, e, bound) == T.Done(T.TState(st.scopes, defined), TType(0));
    var exported := T.Emit(T.TState(st.scopes, defined), ExportItem("t", TType(0)));
    assert T.ExportInto(w, st, c, "t", e, bound) == T.RegisterExport(exported, Key(c, created), "t", 1);
    var defs := map[Key(c, leaf) := 0, Key(c, created) := 1];
    var done := Exporting(exported.cur.(typeDefs := defs), Key(c, created), "t");
    assert [] + [Key(c, created)] == [Key(c, created)];
    assert done.typeExports == map[Key(c, created) := "t"] && done.typeExportsRev == map["t" := [Key(c, created)]];
    assert done.items == LeafBody(shape);
    assert done == LeafScope(c, leaf, created, shape);
    assert T.ExportInto(w, st, c, "t", e, bound) == T.Done(T.TState(st.scopes, LeafScope(c, leaf, created, shape)), ());
  }

  lemma CountOne(shape: string)
    ensures TypeCount([]) == 0 && TypeCount([DefCtor(shape, [])]) == 1
    ensures [] + [DefCtor(shape, [])] == [DefCtor(shape, [])]
    ensures [DefCtor(shape, [])] + [ExportItem("t", TType(0))] == LeafBody(shape)
  {
    assert [DefCtor(shape, [])][..0] == [];
  }

  /** Such an instance type is defined in place, and its type registered for the next instance. */
  lemma LeafInstance(w: World, st: T.TState, c: nat, id: nat, leaf: nat, created: nat, shape: string)
    requires WorldOk(w) && c < |w| && id < |w[c]| && w[c][id] == Instance([Named("t", TypeE(created, leaf))])
    requires created < id && leaf < created && w[c][leaf] == Ctor(shape, []) && w[c][created] == Alias(leaf)
    requires Key(c, id) !in st.cur.typeDefs && T.Find(st, Key(c, id)).None?
    requires T.Holder(st.scopes + [st.cur], Key(c, leaf)).None? && Key(c, created) !in st.cur.instanceExports
    ensures T.Ty(w, st, c, id)
         == T.Done(T.TState(st.scopes,
                            st.cur.(items := st.cur.items + [DefInstance(LeafBody(shape))],
                                    typeDefs := st.cur.typeDefs[Key(c, id) := TypeCount(st.cur.items)],
                                    instanceExports :=
                                      st.cur.instanceExports[Key(c, created) := (InstanceCount(st.cur.items), "t")])),
                   TypeCount(st.cur.items))
  {
    hide T.Find;
    hide T.Holder;
    hide T.ExportAll;
    var exports := [Named("t", TypeE(created, leaf))];
    assert DefOk(w[c], id);
    LeafExported(w, T.Push(st, InstanceBody), c, leaf, created, shape, id);
    var inner := T.TState(st.scopes + [st.cur], LeafScope(c, leaf, created, shape));
    assert inner.scopes[..|st.scopes|] == st.scopes && inner.scopes[|st.scopes|] == st.cur;
    assert map[Key(c, created) := "t"].Keys == {Key(c, created)};
    var outer := Registered(st.cur, map[Key(c, created) := "t"]);
    assert outer.instanceExports == st.cur.instanceExports[Key(c, created) := (InstanceCount(st.cur.items), "t")];
    assert T.Pop(inner) == T.Done(T.TState(st.scopes, outer), LeafBody(shape));
    assert T.ImportAll(w, T.Push(st, InstanceBody), c, [], id) == T.Done(T.Push(st, InstanceBody), ());
    assert T.Body(w, st, c, InstanceBody, [], exports, id) == T.Pop(inner);
    assert T.Define(w, st, c, id)
        == T.Done(T.Emit(T.TState(st.scopes, outer), DefInstance(LeafBody(shape))), TypeCount(st.cur.items));
    assert T.TyInner(w, st, c, id) == T.Define(w, st, c, id);
  }

  function Leaf(shape: string): Meaning {
    MInstance([MNamed("t", KType, MCtor(shape, []))])
  }

  lemma LeafMeans(shape: string, outer: seq<seq<Meaning>>)
    ensures Eval(LeafBody(shape), outer).Some?
    ensures Eval(LeafBody(shape), outer).value.exports == [MNamed("t", KType, MCtor(shape, []))]
  {
    var m := MCtor(shape, []);
    assert LeafBody(shape) == [DefCtor(shape, [])] + [ExportItem("t", TType(0))];
    assert [DefCtor(shape, [])] == [] + [DefCtor(shape, [])];
    EvalMore([], DefCtor(shape, []), outer);
    EvalMore([DefCtor(shape, [])], ExportItem("t", TType(0)), outer);
    assert ValMeanings(EmptyEnv.types, []).value == [];
    assert EmptyEnv.types + [m] == [m];
    assert Step(EmptyEnv, DefCtor(shape, []), outer) == Some(EmptyEnv.(types := [m]));
    assert Eval([DefCtor(shape, [])], outer) == Some(EmptyEnv.(types := [m]));
    assert [] + [MNamed("t", KType, m)] == [MNamed("t", KType, m)];
  }

  lemma InstanceStep(env: Env, shape: string, outer: seq<seq<Meaning>>)
    ensures Step(env, DefInstance(LeafBody(shape)), outer) == Some(env.(types := env.types + [Leaf(shape)]))
  {
    hide Eval;
    LeafMeans(shape, outer + [env.types]);
  }

  /** Defining such a type again, where what it exports is registered, fails an assertion. */
  lemma LeafPanics(w: World, st: T.TState, c: nat, id: nat, leaf: nat, created: nat, shape: string)
    requires WorldOk(w) && c < |w| && id < |w[c]| && w[c][id] == Instance([Named("t", TypeE(created, leaf))])
    requires created < id && leaf < created && w[c][leaf] == Ctor(shape, []) && w[c][created] == Alias(leaf)
    requires T.Holder(st.scopes + [st.cur], Key(c, leaf)).None? && Key(c, created) in st.cur.instanceExports
    ensures T.Define(w, st, c, id).Panics?
  {
    hide T.Holder;
    hide T.ExportAll;
    var exports := [Named("t", TypeE(created, leaf))];
    assert DefOk(w[c], id);
    LeafExported(w, T.Push(st, InstanceBody), c, leaf, created, shape, id);
    var inner := T.TState(st.scopes + [st.cur], LeafScope(c, leaf, created, shape));
    assert inner.scopes[|st.scopes|] == st.cur;
    assert Key(c, created) in inner.cur.typeExports.Keys && Key(c, created) in st.cur.instanceExports.Keys;
    assert T.Pop(inner).Panics?;
    assert T.ImportAll(w, T.Push(st, InstanceBody), c, [], id) == T.Done(T.Push(st, InstanceBody), ());
    assert T.Body(w, st, c, InstanceBody, [], exports, id) == T.Pop(inner);
  }

  /** Its exports are registered as defined by the import. */
  lemma LeafRegistered(ts: Types, r: Registry, cur: Name, leaf: nat, created: nat, shape: string, bound: nat)
    requires TypesOk(ts) && leaf < created < bound <= |ts| && ts[leaf] == Ctor(shape, []) && ts[created] == Alias(leaf)
    requires created !in r.definer && leaf !in r.definer
    ensures EntityOk(ts, TypeE(created, leaf), bound)
    ensures AfterMembers(ts, r, cur, [Named("t", TypeE(created, leaf))], bound)
         == Some(r.(definer := r.definer[created := cur][leaf := cur]))
  {
    var ns := [Named("t", TypeE(created, leaf))];
    var mid := r.(definer := r.definer[created := cur]);
    assert ns[..0] == [];
    assert AfterMembers(ts, r, cur, [], bound) == Some(r);
    var now := mid.(definer := mid.definer[leaf := cur]);
    assert AfterVals(ts, now, cur, [], leaf) == Some(now);
    assert AfterTy(ts, mid, cur, leaf) == Some(now);
  }

  // ----- an instance type that is named too early -----

  // 2 exports 1, a name for u8; 5 exports 4, a name for string; 6 is a name for 2; 7 uses 1.
  const NamedEarly: World :=
    [[Ctor("u8", []), Alias(0), Instance([Named("t", TypeE(1, 0))]),
      Ctor("string", []), Alias(3), Instance([Named("t", TypeE(4, 3))]),
      Alias(2), Ctor("func", [Ref(1)])]]

  const EarlyArgs := [Arg(0, "n", TypeE(6, 2)), Arg(0, "u", InstanceE(5)), Arg(0, "f", FuncE(7))]

  const EarlyEntries :=
    [ItemImport("n", 0, TypeE(6, 2)), ItemImport("u", 0, InstanceE(5)), ItemImport("f", 0, FuncE(7))]

  lemma EarlyCreates(id: nat, x: nat)
    requires Creates(NamedEarly[0], id, x)
    ensures (id == 2 && x == 1) || (id == 5 && x == 4)
  {
  }

  lemma EarlyDefsOk(id: nat)
    requires id < 8
    ensures DefOk(NamedEarly[0], id)
  {
    if id == 7 {
      assert Peel(NamedEarly[0], 1) == 0;
    }
  }

  lemma NamedEarlyOk()
    ensures WorldOk(NamedEarly)
  {
    hide DefOk;
    hide Creates;
    var ts := NamedEarly[0];
    forall id: nat | id < |ts|
      ensures DefOk(ts, id)
    {
      EarlyDefsOk(id);
    }
    forall id, id', created | Creates(ts, id, created) && Creates(ts, id', created)
      ensures id == id'
    {
      EarlyCreates(id, created);
      EarlyCreates(id', created);
    }
  }

  lemma EarlyArgsOk()
    ensures WorldOk(NamedEarly) && ArgsOk(NamedEarly, EarlyArgs) && EntriesOk(NamedEarly, EarlyEntries)
  {
    hide TypesOk;
    NamedEarlyOk();
    var w := NamedEarly;
    assert ViewOk(w, View(0, TypeE(6, 2))) && ViewOk(w, View(0, InstanceE(5))) && ViewOk(w, View(0, FuncE(7)));
    assert EntryOk(w, EarlyEntries[0]) && EntryOk(w, EarlyEntries[1]) && EntryOk(w, EarlyEntries[2]);
  }

  // What is registered after each import.

  const DefinedByN: map<nat, Name> := map[6 := "n", 2 := "n", 1 := "n", 0 := "n"]

  const DefinedByU: map<nat, Name> := DefinedByN[4 := "u"][3 := "u"]

  lemma RegisterN()
    ensures TypesOk(NamedEarly[0]) && EntityOk(NamedEarly[0], TypeE(6, 2), 8)
    ensures AfterEntity(NamedEarly[0], Registry(map[], map[]), "n", TypeE(6, 2), 8) == Some(Registry(DefinedByN, map[]))
  {
    hide AfterMembers;
    EarlyArgsOk();
    var ts := NamedEarly[0];
    var r := Registry(map[6 := "n", 2 := "n"], map[]);
    LeafRegistered(ts, r, "n", 0, 1, "u8", 2);
    assert map[6 := "n", 2 := "n"][1 := "n"][0 := "n"] == DefinedByN;
    var named := Registry(map[6 := "n"], map[]);
    assert map[6 := "n"][2 := "n"] == r.definer;
    assert AfterTy(ts, named, "n", 2) == Some(Registry(DefinedByN, map[]));
  }

  lemma RegisterU()
    ensures TypesOk(NamedEarly[0]) && EntityOk(NamedEarly[0], InstanceE(5), 8)
    ensures AfterEntity(NamedEarly[0], Registry(DefinedByN, map[]), "u", InstanceE(5), 8)
         == Some(Registry(DefinedByU, map[]))
  {
    hide AfterMembers;
    EarlyArgsOk();
    var ts := NamedEarly[0];
    LeafRegistered(ts, Registry(DefinedByN, map[]), "u", 3, 4, "string", 5);
    assert MembersOf(ts, 5) == [Named("t", TypeE(4, 3))];
  }

  lemma RegisterF()
    ensures TypesOk(NamedEarly[0]) && EntityOk(NamedEarly[0], FuncE(7), 8)
    ensures AfterEntity(NamedEarly[0], Registry(DefinedByU, map[]), "f", FuncE(7), 8)
         == Some(Registry(DefinedByU, map["f" := ["n"]]))
  {
    EarlyArgsOk();
    var ts, r := NamedEarly[0], Registry(DefinedByU, map[]);
    assert DefOk(ts, 7);
    assert ArgsOf(ts, 7) == [Ref(1)] && [Ref(1)][..0] == [];
    assert AfterVals(ts, r, "f", [], 7) == Some(r);
    var none: seq<Name> := [];
    assert none + ["n"] == ["n"];
    assert AfterTy(ts, r, "f", 1) == Some(Registry(DefinedByU, map["f" := ["n"]]));
    assert AfterVals(ts, r, "f", [Ref(1)], 7) == AfterTy(ts, r, "f", 1);
  }

  const EarlyPlan := Plan(EarlyEntries, map[0 := DefinedByU], map["f" := ["n"]])

  /** Every import is registered, and there is nothing to merge. */
  lemma EarlyPlanned(compatible: M.Compatible)
    ensures EachOk(NamedEarly, EarlyArgs) && PlanAll(NamedEarly, compatible, EarlyArgs) == Planned(EarlyPlan)
  {
    hide AfterEntity;
    hide Merged;
    EarlyArgsOk();
    RegisterN();
    RegisterU();
    RegisterF();
    var w, args := NamedEarly, EarlyArgs;
    PlanStep(w, compatible, args, 0, NoPlan, Plan(EarlyEntries[..1], map[0 := DefinedByN], map[]));
    PlanStep(w, compatible, args, 1, Plan(EarlyEntries[..1], map[0 := DefinedByN], map[]),
             Plan(EarlyEntries[..2], map[0 := DefinedByU], map[]));
    PlanStep(w, compatible, args, 2, Plan(EarlyEntries[..2], map[0 := DefinedByU], map[]), EarlyPlan);
    assert args[..3] == args;
  }

  /** An import of a new name is one more entry. */
  lemma PlanStep(w: World, compatible: M.Compatible, args: seq<Arg>, n: nat, p: Plan, q: Plan)
    requires EachOk(w, args) && n < |args| && PlanAll(w, compatible, args[..n]) == Planned(p) && ArgOk(w, args[n])
    requires var a := args[n];
             && (forall j :: 0 <= j < |p.entries| ==> p.entries[j].name != a.name)
             && q.entries == p.entries + [ItemImport(a.name, a.comp, a.entity)]
             && a.comp in q.definers && q.definers == p.definers[a.comp := q.definers[a.comp]]
             && AfterEntity(w[a.comp], RegistryOf(p, a.comp), a.name, a.entity, |w[a.comp]|)
             == Some(Registry(q.definers[a.comp], q.deps))
    ensures PlanAll(w, compatible, args[..n + 1]) == Planned(q)
  {
    hide AfterEntity;
    hide Merged;
    hide ArgOk;
    assert args[..n + 1][..n] == args[..n];
  }

  // The scope of the imports after each of them.

  const EarlyItems: seq<Item> :=
    [DefInstance(LeafBody("u8")), ImportItem("n", TType(0)),
     DefInstance(LeafBody("string")), ImportItem("u", TInstance(2)),
     AliasExport(0, "t"), DefCtor("func", [TIdx(3)]), ImportItem("f", TFunc(4))]

  function EarlyState(defs: map<Key, nat>, registered: map<Key, (nat, string)>, n: nat): T.TState
    requires n <= |EarlyItems|
  {
    T.TState([], Scope(defs, map[], map[], registered, Builder, EarlyItems[..n]))
  }

  const AfterN := EarlyState(map[Key(0, 2) := 0], map[Key(0, 1) := (0, "t")], 2)

  const AfterU := EarlyState(map[Key(0, 2) := 0, Key(0, 5) := 2],
                             map[Key(0, 1) := (0, "t"), Key(0, 4) := (0, "t")], 4)

  const AfterOne := EarlyState(map[Key(0, 2) := 0, Key(0, 5) := 2, Key(0, 1) := 3], AfterU.cur.instanceExports, 5)

  const AfterF := EarlyState(map[Key(0, 2) := 0, Key(0, 5) := 2, Key(0, 1) := 3, Key(0, 7) := 4],
                             AfterU.cur.instanceExports, 7)

  lemma CountNext(n: nat)
    requires n < |EarlyItems|
    ensures EarlyItems[..n + 1] == EarlyItems[..n] + [EarlyItems[n]]
    ensures TypeCount(EarlyItems[..n + 1]) == TypeCount(EarlyItems[..n]) + if DefinesType(EarlyItems[n]) then 1 else 0
    ensures InstanceCount(EarlyItems[..n + 1])
         == InstanceCount(EarlyItems[..n]) + if DefinesInstance(EarlyItems[n]) then 1 else 0
  {
    assert EarlyItems[..n + 1][..n] == EarlyItems[..n];
  }

  lemma EarlyCounts()
    ensures TypeCount(EarlyItems[..0]) == 0 && InstanceCount(EarlyItems[..0]) == 0
    ensures TypeCount(EarlyItems[..1]) == 1 && InstanceCount(EarlyItems[..1]) == 0
    ensures TypeCount(EarlyItems[..2]) == 2 && InstanceCount(EarlyItems[..2]) == 0
    ensures TypeCount(EarlyItems[..4]) == 3 && TypeCount(EarlyItems[..5]) == 4
  {
    CountNext(0);
    CountNext(1);
    CountNext(2);
    CountNext(3);
    CountNext(4);
  }

  lemma NothingHeld(cur: Scope, k: Key)
    requires k !in cur.instanceExports
    ensures T.Holder([], k) == None && T.Holder([] + [cur], k) == None
  {
    assert [cur][..0] == [];
    assert [] + [cur] == [cur];
  }

  lemma ImportN()
    ensures WorldOk(NamedEarly) && EntityOk(NamedEarly[0], TypeE(6, 2), 8)
    ensures T.ImportInto(NamedEarly, Start, 0, "n", TypeE(6, 2), 8) == T.Done(AfterN, ())
  {
    hide T.Ty;
    hide T.Holder;
    hide TypeCount;
    hide InstanceCount;
    EarlyArgsOk();
    NothingHeld(Start.cur, Key(0, 2));
    NothingHeld(Start.cur, Key(0, 0));
    EarlyCounts();
    CountNext(0);
    CountNext(1);
    LeafInstance(NamedEarly, Start, 0, 2, 0, 1, "u8");
    var mid := EarlyState(map[Key(0, 2) := 0], map[Key(0, 1) := (0, "t")], 1);
    assert T.EntityRef(NamedEarly, Start, 0, TypeE(6, 2), 8) == T.Done(mid, TType(0));
  }

  lemma ImportU()
    ensures WorldOk(NamedEarly) && EntityOk(NamedEarly[0], InstanceE(5), 8)
    ensures T.ImportInto(NamedEarly, AfterN, 0, "u", InstanceE(5), 8) == T.Done(AfterU, ())
  {
    hide T.Ty;
    hide T.Holder;
    hide TypeCount;
    hide InstanceCount;
    EarlyArgsOk();
    NothingHeld(AfterN.cur, Key(0, 5));
    NothingHeld(AfterN.cur, Key(0, 3));
    EarlyCounts();
    CountNext(2);
    CountNext(3);
    LeafInstance(NamedEarly, AfterN, 0, 5, 3, 4, "string");
    var mid := EarlyState(map[Key(0, 2) := 0, Key(0, 5) := 2], AfterU.cur.instanceExports, 3);
    assert T.EntityRef(NamedEarly, AfterN, 0, InstanceE(5), 8) == T.Done(mid, TInstance(2));
  }

  /** The name of the type that 2 exports leads to the first instance, which is one of 5. */
  lemma TyOne()
    ensures WorldOk(NamedEarly) && T.Ty(NamedEarly, AfterU, 0, 1) == T.Done(AfterOne, 3)
  {
    hide TypeCount;
    NamedEarlyOk();
    EarlyCounts();
    CountNext(4);
    assert T.Holder([], Key(0, 1)) == None;
    var found := AfterU.(cur := AfterU.cur.(items := EarlyItems[..5]));
    assert T.Find(AfterU, Key(0, 1)) == Some((found, 3));
    assert T.TyInner(NamedEarly, AfterU, 0, 1) == T.Done(found, 3);
  }

  lemma DefineSeven()
    ensures WorldOk(NamedEarly)
    ensures T.Define(NamedEarly, AfterU, 0, 7) == T.Done(T.Emit(AfterOne, DefCtor("func", [TIdx(3)])), 4)
  {
    hide TypeCount;
    hide T.Ty;
    NamedEarlyOk();
    EarlyCounts();
    TyOne();
    var w, st := NamedEarly, AfterU;
    assert DefOk(w[0], 7);
    assert T.ValType(w, st, 0, Ref(1), 7) == T.Done(AfterOne, TIdx(3));
    assert [Ref(1)][..0] == [];
    assert T.ValTypes(w, st, 0, [], 7) == T.Done(st, []);
    assert [] + [TIdx(3)] == [TIdx(3)];
    assert T.ValTypes(w, st, 0, [Ref(1)], 7) == T.Done(AfterOne, [TIdx(3)]);
    assert w[0][7] == Ctor("func", [Ref(1)]);
  }

  lemma ImportF()
    ensures WorldOk(NamedEarly) && EntityOk(NamedEarly[0], FuncE(7), 8)
    ensures T.ImportInto(NamedEarly, AfterU, 0, "f", FuncE(7), 8) == T.Done(AfterF, ())
  {
    hide TypeCount;
    hide T.Define;
    EarlyArgsOk();
    CountNext(5);
    CountNext(6);
    DefineSeven();
    var w, st := NamedEarly, AfterU;
    assert T.Holder([], Key(0, 7)) == None;
    assert T.Find(st, Key(0, 7)) == None;
    assert T.TyInner(w, st, 0, 7) == T.Define(w, st, 0, 7);
  }

  lemma EarlyImported()
    ensures WorldOk(NamedEarly) && EntriesOk(NamedEarly, EarlyEntries)
    ensures AllImported(NamedEarly, Start, EarlyEntries) == T.Done(AfterF, ())
  {
    hide T.ImportInto;
    hide EntriesOk;
    EarlyArgsOk();
    ImportN();
    ImportU();
    ImportF();
    var w, entries := NamedEarly, EarlyEntries;
    NothingYet(w, entries);
    ImportNext(w, entries, 0, Start);
    ImportNext(w, entries, 1, AfterN);
    ImportNext(w, entries, 2, AfterU);
    assert entries[..3] == entries;
  }

  lemma NothingYet(w: World, entries: seq<ImportEntry>)
    requires WorldOk(w) && EntriesOk(w, entries)
    ensures EntriesOk(w, entries[..0]) && AllImported(w, Start, entries[..0]) == T.Done(Start, ())
  {
  }

  // What comes out: types, instances and imports, in order.

  const EarlyTypes: seq<Meaning> :=
    [Leaf("u8"), Leaf("u8"), Leaf("string"), MCtor("string", []), MCtor("func", [MCtor("string", [])])]

  const EarlyMade: seq<MNamed> :=
    [MNamed("n", KType, Leaf("u8")), MNamed("u", KInstance, Leaf("string")),
     MNamed("f", KFunc, MCtor("func", [MCtor("string", [])]))]

  function EarlyEnv(types: nat, instances: nat, imports: nat): Env
    requires types <= 5 && instances <= 1 && imports <= 3
  {
    Env(EarlyTypes[..types], [Leaf("string")][..instances], EarlyMade[..imports], [])
  }

  lemma EarlyStep(n: nat, a: Env, b: Env)
    requires n < |EarlyItems| && Eval(EarlyItems[..n], []) == Some(a) && Step(a, EarlyItems[n], []) == Some(b)
    ensures Eval(EarlyItems[..n + 1], []) == Some(b)
  {
    hide Step;
    CountNext(n);
    EvalMore(EarlyItems[..n], EarlyItems[n], []);
  }

  lemma EarlySlices()
    ensures EarlyTypes[..1] == EarlyTypes[..0] + [Leaf("u8")] && EarlyTypes[..2] == EarlyTypes[..1] + [Leaf("u8")]
    ensures EarlyTypes[..3] == EarlyTypes[..2] + [Leaf("string")]
    ensures EarlyTypes[..4] == EarlyTypes[..3] + [MCtor("string", [])]
    ensures EarlyTypes[..5] == EarlyTypes[..4] + [MCtor("func", [MCtor("string", [])])]
    ensures [Leaf("string")][..1] == [Leaf("string")][..0] + [Leaf("string")]
    ensures EarlyMade[..1] == EarlyMade[..0] + [EarlyMade[0]] && EarlyMade[..2] == EarlyMade[..1] + [EarlyMade[1]]
    ensures EarlyMade[..3] == EarlyMade[..2] + [EarlyMade[2]]
  {
  }

  lemma EarlyBegins()
    ensures Eval(EarlyItems[..4], []) == Some(EarlyEnv(3, 1, 2))
  {
    hide Eval;
    EvalNothing([]);
    EarlySlices();
    assert EarlyItems[..0] == [] && EarlyEnv(0, 0, 0) == EmptyEnv;
    InstanceStep(EarlyEnv(0, 0, 0), "u8", []);
    EarlyStep(0, EarlyEnv(0, 0, 0), EarlyEnv(1, 0, 0));
    EarlyStep(1, EarlyEnv(1, 0, 0), EarlyEnv(2, 0, 1));
    InstanceStep(EarlyEnv(2, 0, 1), "string", []);
    EarlyStep(2, EarlyEnv(2, 0, 1), EarlyEnv(3, 0, 1));
    EarlyStep(3, EarlyEnv(3, 0, 1), EarlyEnv(3, 1, 2));
  }

  lemma EarlyEnds()
    ensures Eval(EarlyItems, []) == Some(EarlyEnv(5, 1, 3))
  {
    hide Eval;
    EarlyBegins();
    EarlySlices();
    assert TypeExport(Leaf("string").exports, "t") == Some(MCtor("string", []));
    EarlyStep(4, EarlyEnv(3, 1, 2), EarlyEnv(4, 1, 2));
    assert ValMeanings(EarlyTypes[..4], [TIdx(3)]).value == [MCtor("string", [])];
    EarlyStep(5, EarlyEnv(4, 1, 2), EarlyEnv(5, 1, 2));
    EarlyStep(6, EarlyEnv(5, 1, 2), EarlyEnv(5, 1, 3));
    assert EarlyItems[..7] == EarlyItems;
  }

  lemma EarlyExpected()
    ensures WorldOk(NamedEarly) && ArgOk(NamedEarly, EarlyArgs[2])
    ensures ViewMeaning(NamedEarly, View(0, FuncE(7))) == (KFunc, MCtor("func", [MCtor("u8", [])]))
  {
    EarlyArgsOk();
    var ts := NamedEarly[0];
    assert DefOk(ts, 7) && DefOk(ts, 1) && DefOk(ts, 0);
    assert Unfold(ts, 0) == MCtor("u8", []);
    assert Unfold(ts, 1) == MCtor("u8", []);
    assert UnfoldVal(ts, Ref(1), 7) == MCtor("u8", []);
    assert Unfold(ts, 7).args == [MCtor("u8", [])];
  }

  lemma EarlyUnsatisfied()
    ensures EachOk(NamedEarly, EarlyArgs) && !Satisfies(NamedEarly, EarlyItems, EarlyArgs)
  {
    hide Eval;
    hide ViewMeaning;
    EarlyArgsOk();
    EarlyEnds();
    EarlyExpected();
    var w, imports := NamedEarly, Eval(EarlyItems, []).value.imports;
    assert imports == EarlyMade;
    assert MCtor("u8", []) != MCtor("string", []);
    forall j | 0 <= j < |imports|
      ensures !Provides(w, imports[j], EarlyArgs[2])
    {
    }
    assert !ProvidedFor(w, imports, EarlyArgs[2]);
  }

  lemma EarlySorted()
    ensures Acyclic(EarlyPlan.deps) && TopologicalOrder(EarlyPlan.deps, NamesOf(EarlyEntries))
  {
    var rank: Name -> nat := n => if n == "f" then 1 else 0;
    assert Ranks(EarlyPlan.deps, rank);
    assert NamesOf(EarlyEntries) == ["n", "u", "f"];
    assert ["n", "u", "f"][..2] == ["n", "u"];
  }

  /** After a name for the instance type 2 the next instance is to be one of it. */
  lemma EarlyOutOfOrder()
    ensures EntriesOk(NamedEarly, EarlyEntries) && !InOrderAll(NamedEarly, EarlyEntries)
  {
    EarlyArgsOk();
    var w, ds := NamedEarly, EntryDecls(EarlyEntries);
    EntryDeclsOk(w, EarlyEntries);
    assert Creates(w[0], 2, 1) by {
      assert w[0][2].exports[0].entity.created == 1;
    }
    assert MakerOf(w, ds[0]) == Some(Key(0, 2));
    assert ds[..1][..0] == [] && ds[..1][0] == ds[0];
    assert OpenAfter(w, ds[..1]) == Some(Key(0, 2));
    assert !Known(ds[..1], ds[1]);
    assert !Timely(w, ds[..1], ds[1]);
  }

  /**
   The instance type 2 is named, and then an instance of 5 is imported. Every import is
   registered and no assertion fails, but the function takes a string where it is to take an u8.
   */
  lemma NamedTooEarly(compatible: M.Compatible)
    ensures WorldOk(NamedEarly) && ArgsOk(NamedEarly, EarlyArgs) && EntriesOk(NamedEarly, EarlyEntries)
    ensures PlanAll(NamedEarly, compatible, EarlyArgs) == Planned(EarlyPlan) && EarlyPlan.entries == EarlyEntries
    ensures Acyclic(EarlyPlan.deps) && TopologicalOrder(EarlyPlan.deps, NamesOf(EarlyEntries))
    ensures Translated(NamedEarly, EarlyEntries) == Imports(EarlyItems)
    ensures Eval(EarlyItems, []).Some? && !Satisfies(NamedEarly, EarlyItems, EarlyArgs)
    ensures !InOrderAll(NamedEarly, EarlyEntries)
  {
    hide AllImported;
    hide InOrderAll;
    EarlyArgsOk();
    EarlyPlanned(compatible);
    EarlySorted();
    EarlyImported();
    EarlyEnds();
    EarlyUnsatisfied();
    EarlyOutOfOrder();
    assert EarlyItems[..7] == EarlyItems;
  }

  // ----- an instance type that is named twice -----

  // 2 exports 1, a name for u8; 3 is a name for 2, and 4 one for 3.
  const NamedTwice: World :=
    [[Ctor("u8", []), Alias(0), Instance([Named("t", TypeE(1, 0))]), Alias(2), Alias(3)]]

  const TwiceArgs := [Arg(0, "n", TypeE(3, 2)), Arg(0, "m", TypeE(4, 3))]

  const TwiceEntries := [ItemImport("n", 0, TypeE(3, 2)), ItemImport("m", 0, TypeE(4, 3))]

  lemma TwiceArgsOk()
    ensures WorldOk(NamedTwice) && ArgsOk(NamedTwice, TwiceArgs) && EntriesOk(NamedTwice, TwiceEntries)
  {
    var w, ts := NamedTwice, NamedTwice[0];
    assert DefOk(ts, 0) && DefOk(ts, 1) && DefOk(ts, 2) && DefOk(ts, 3) && DefOk(ts, 4);
    assert TypesOk(ts);
    assert ViewOk(w, View(0, TypeE(3, 2))) && ViewOk(w, View(0, TypeE(4, 3)));
    assert EntryOk(w, TwiceEntries[0]) && EntryOk(w, TwiceEntries[1]);
  }

  const TwiceDefined: map<nat, Name> := map[3 := "n", 2 := "n", 1 := "n", 0 := "n"]

  const TwicePlan := Plan(TwiceEntries, map[0 := TwiceDefined[4 := "m"]], map["m" := ["n"]])

  lemma TwiceRegistered()
    ensures TypesOk(NamedTwice[0]) && EntityOk(NamedTwice[0], TypeE(3, 2), 5) && EntityOk(NamedTwice[0], TypeE(4, 3), 5)
    ensures AfterEntity(NamedTwice[0], Registry(map[], map[]), "n", TypeE(3, 2), 5)
         == Some(Registry(TwiceDefined, map[]))
    ensures AfterEntity(NamedTwice[0], Registry(TwiceDefined, map[]), "m", TypeE(4, 3), 5)
         == Some(Registry(TwiceDefined[4 := "m"], map["m" := ["n"]]))
  {
    hide AfterMembers;
    TwiceArgsOk();
    var ts, both := NamedTwice[0], map[3 := "n", 2 := "n"];
    LeafRegistered(ts, Registry(both, map[]), "n", 0, 1, "u8", 2);
    assert both[1 := "n"][0 := "n"] == TwiceDefined && map[3 := "n"][2 := "n"] == both;
    assert AfterTy(ts, Registry(map[3 := "n"], map[]), "n", 2) == Some(Registry(TwiceDefined, map[]));
    var none: seq<Name> := [];
    assert none + ["n"] == ["n"];
  }

  /** The second name refers to the first, which is registered already. */
  lemma TwicePlanned(compatible: M.Compatible)
    ensures EachOk(NamedTwice, TwiceArgs) && PlanAll(NamedTwice, compatible, TwiceArgs) == Planned(TwicePlan)
  {
    hide AfterEntity;
    hide Merged;
    hide TypesOk;
    TwiceArgsOk();
    TwiceRegistered();
    var w, args, first := NamedTwice, TwiceArgs, Plan(TwiceEntries[..1], map[0 := TwiceDefined], map[]);
    PlanStep(w, compatible, args, 0, NoPlan, first);
    PlanStep(w, compatible, args, 1, first, TwicePlan);
    assert args[..2] == args;
  }

  const TwiceItems: seq<Item> := [DefInstance(LeafBody("u8"))]

  const AfterFirst :=
    T.TState([], Scope(map[Key(0, 2) := 0], map[], map[], map[Key(0, 1) := (0, "t")], Builder,
                       TwiceItems + [ImportItem("n", TType(0))]))

  lemma FirstName()
    ensures WorldOk(NamedTwice) && EntityOk(NamedTwice[0], TypeE(3, 2), 5)
    ensures T.ImportInto(NamedTwice, Start, 0, "n", TypeE(3, 2), 5) == T.Done(AfterFirst, ())
  {
    hide T.Ty;
    hide T.Holder;
    TwiceArgsOk();
    NothingHeld(Start.cur, Key(0, 2));
    NothingHeld(Start.cur, Key(0, 0));
    LeafInstance(NamedTwice, Start, 0, 2, 0, 1, "u8");
    assert [] + [DefInstance(LeafBody("u8"))] == TwiceItems;
    var mid := T.TState([], AfterFirst.cur.(items := TwiceItems));
    assert T.EntityRef(NamedTwice, Start, 0, TypeE(3, 2), 5) == T.Done(mid, TType(0));
  }

  lemma SecondName()
    ensures WorldOk(NamedTwice) && EntityOk(NamedTwice[0], TypeE(4, 3), 5)
    ensures T.ImportInto(NamedTwice, AfterFirst, 0, "m", TypeE(4, 3), 5).Panics?
  {
    hide T.Holder;
    hide T.Define;
    TwiceArgsOk();
    var w, st := NamedTwice, AfterFirst;
    NothingHeld(st.cur, Key(0, 0));
    NothingHeld(st.cur, Key(0, 2));
    NothingHeld(st.cur, Key(0, 3));
    LeafPanics(w, st, 0, 2, 0, 1, "u8");
    assert T.Find(st, Key(0, 3)) == None && T.Find(st, Key(0, 2)) == None;
    assert T.TyInner(w, st, 0, 2).Panics?;
    assert T.TyInner(w, st, 0, 3).Panics?;
    assert T.Ty(w, st, 0, 3).Panics?;
  }

  lemma TwiceSorted()
    ensures Acyclic(TwicePlan.deps) && TopologicalOrder(TwicePlan.deps, NamesOf(TwiceEntries))
  {
    var rank: Name -> nat := n => if n == "m" then 1 else 0;
    assert Ranks(TwicePlan.deps, rank);
    assert NamesOf(TwiceEntries) == ["n", "m"];
    assert ["n", "m"][..1] == ["n"];
  }

  /** A name for a name of an instance type is registered, but translating it fails an assertion. */
  lemma NamedTwiceFails(compatible: M.Compatible)
    ensures WorldOk(NamedTwice) && ArgsOk(NamedTwice, TwiceArgs) && EntriesOk(NamedTwice, TwiceEntries)
    ensures PlanAll(NamedTwice, compatible, TwiceArgs) == Planned(TwicePlan) && TwicePlan.entries == TwiceEntries
    ensures Acyclic(TwicePlan.deps) && TopologicalOrder(TwicePlan.deps, NamesOf(TwiceEntries))
    ensures Translated(NamedTwice, TwiceEntries) == AssertionFails
  {
    hide T.ImportInto;
    hide EntriesOk;
    TwiceArgsOk();
    TwicePlanned(compatible);
    TwiceSorted();
    FirstName();
    SecondName();
    var w, entries := NamedTwice, TwiceEntries;
    NothingYet(w, entries);
    ImportNext(w, entries, 0, Start);
    ImportNext(w, entries, 1, AfterFirst);
    assert entries[..2] == entries;
  }

  // ----- two imports in opposite orders -----

  // 2 exports 1, a name for u8; 4 exports a function that uses 1.
  const CrossTypes: Types :=
    [Ctor("u8", []), Alias(0), Instance([Named("t", TypeE(1, 0))]),
     Ctor("func", [Ref(1)]), Instance([Named("g", FuncE(3))])]

  const Crossed: World := [CrossTypes, CrossTypes]

  // One component imports the type from a and uses it in b, the other the other way round.
  const CrossArgs :=
    [Arg(0, "a", InstanceE(2)), Arg(0, "b", InstanceE(4)), Arg(1, "b", InstanceE(2)), Arg(1, "a", InstanceE(4))]

  lemma CrossDefsOk(id: nat)
    requires id < 5
    ensures DefOk(CrossTypes, id)
  {
    assert Peel(CrossTypes, 1) == 0;
  }

  lemma CrossTypesOk()
    ensures TypesOk(CrossTypes)
  {
    hide DefOk;
    forall id: nat | id < 5
      ensures DefOk(CrossTypes, id)
    {
      CrossDefsOk(id);
    }
    forall id, x | Creates(CrossTypes, id, x)
      ensures id == 2
    {
    }
  }

  lemma CrossOk()
    ensures WorldOk(Crossed) && TypesOk(CrossTypes) && ArgsOk(Crossed, CrossArgs)
  {
    hide TypesOk;
    CrossTypesOk();
    assert ViewOk(Crossed, View(0, InstanceE(2))) && ViewOk(Crossed, View(0, InstanceE(4)));
    assert ViewOk(Crossed, View(1, InstanceE(2))) && ViewOk(Crossed, View(1, InstanceE(4)));
  }

  function CrossDefined(name: Name): map<nat, Name> {
    map[1 := name, 0 := name]
  }

  lemma RegisterType(deps: Deps, name: Name)
    ensures TypesOk(CrossTypes) && EntityOk(CrossTypes, InstanceE(2), 5)
    ensures AfterEntity(CrossTypes, Registry(map[], deps), name, InstanceE(2), 5)
         == Some(Registry(CrossDefined(name), deps))
  {
    hide AfterMembers;
    CrossOk();
    LeafRegistered(CrossTypes, Registry(map[], deps), name, 0, 1, "u8", 2);
    assert MembersOf(CrossTypes, 2) == [Named("t", TypeE(1, 0))];
  }

  lemma UseVals(deps: Deps, name: Name, other: Name)
    requires name != other
    ensures TypesOk(CrossTypes) && ValOk(CrossTypes, Ref(1), 3)
    ensures AfterVals(CrossTypes, Registry(CrossDefined(other), deps), name, [Ref(1)], 3)
         == Some(Registry(CrossDefined(other), deps[name := DepsOf(deps, name) + [other]]))
  {
    CrossOk();
    var ts, r := CrossTypes, Registry(CrossDefined(other), deps);
    assert DefOk(ts, 3);
    var now := Registry(CrossDefined(other), deps[name := DepsOf(deps, name) + [other]]);
    assert AfterTy(ts, r, name, 1) == Some(now);
    assert [Ref(1)][..0] == [];
    assert AfterVals(ts, r, name, [], 3) == Some(r);
  }

  lemma RegisterUse(deps: Deps, name: Name, other: Name)
    requires name != other
    ensures TypesOk(CrossTypes) && EntityOk(CrossTypes, InstanceE(4), 5)
    ensures AfterEntity(CrossTypes, Registry(CrossDefined(other), deps), name, InstanceE(4), 5)
         == Some(Registry(CrossDefined(other), deps[name := DepsOf(deps, name) + [other]]))
  {
    hide AfterVals;
    hide CrossDefined;
    hide TypesOk;
    CrossOk();
    UseVals(deps, name, other);
    var ts, r := CrossTypes, Registry(CrossDefined(other), deps);
    var now := Registry(CrossDefined(other), deps[name := DepsOf(deps, name) + [other]]);
    assert ArgsOf(ts, 3) == [Ref(1)];
    var ns := [Named("g", FuncE(3))];
    assert MembersOf(ts, 4) == ns && ns[..0] == [];
    assert AfterMembers(ts, r, name, [], 4) == Some(r);
    assert AfterEntity(ts, r, name, FuncE(3), 4) == Some(now);
    assert AfterMembers(ts, r, name, ns, 4) == Some(now);
  }

  const TypeThenUse := [MergedExport("t", [View(0, TypeE(1, 0))]), MergedExport("g", [View(1, FuncE(3))])]

  const UseThenType := [MergedExport("g", [View(0, FuncE(3))]), MergedExport("t", [View(1, TypeE(1, 0))])]

  const CrossItems := [ItemImport("a", 0, InstanceE(2)), ItemImport("b", 0, InstanceE(4))]

  const CrossEntries := [InstanceImport("a", TypeThenUse), InstanceImport("b", UseThenType)]

  const CrossDeps: Deps := map["b" := ["a"], "a" := ["b"]]

  const CrossPlan := Plan(CrossEntries, map[0 := CrossDefined("a"), 1 := CrossDefined("b")], CrossDeps)

  /** An instance with one export gets another one. */
  lemma OneMoreExport(compatible: M.Compatible, e: ImportEntry, a: Arg, m: Named, n: Named)
    requires ItemOk(Crossed, e) && ArgOk(Crossed, a) && e.ItemImport? && e.entity.InstanceE? && a.entity.InstanceE?
    requires ArgOk(Crossed, Arg(e.comp, e.name, e.entity))
    requires Members(Crossed, Arg(e.comp, e.name, e.entity)) == [m] && Members(Crossed, a) == [n] && m.name != n.name
    ensures Merged(Crossed, compatible, e, a)
         == Some(InstanceImport(e.name, [MergedExport(m.name, [View(e.comp, m.entity)]),
                                         MergedExport(n.name, [View(a.comp, n.entity)])]))
  {
    hide ArgOk;
    var xs := M.SingleViews(e.comp, [m]);
    assert xs == [MergedExport(m.name, [View(e.comp, m.entity)])];
    assert [n][..0] == [];
    assert M.AddViews(compatible, xs, a.comp, []) == Some(xs);
    assert M.IndexOf(xs[1..], n.name) == None;
    assert M.IndexOf(xs, n.name) == None;
    var both := xs + [MergedExport(n.name, [View(a.comp, n.entity)])];
    assert M.AddView(compatible, xs, n.name, View(a.comp, n.entity)) == Some(both);
    assert M.AddViews(compatible, xs, a.comp, [n]) == Some(both);
    assert AsInstance(Crossed, e) == InstanceImport(e.name, xs);
    assert both == [xs[0], MergedExport(n.name, [View(a.comp, n.entity)])];
  }

  lemma CrossMerged(compatible: M.Compatible)
    ensures ArgOk(Crossed, CrossArgs[2]) && ArgOk(Crossed, CrossArgs[3]) && ItemsOk(Crossed, CrossItems)
    ensures ItemsOk(Crossed, [CrossItems[0], CrossEntries[1]])
    ensures Add(Crossed, compatible, CrossItems, CrossArgs[2]) == Some([CrossItems[0], CrossEntries[1]])
    ensures Add(Crossed, compatible, [CrossItems[0], CrossEntries[1]], CrossArgs[3]) == Some(CrossEntries)
  {
    hide Merged;
    CrossOk();
    assert ArgOk(Crossed, CrossArgs[0]) && ArgOk(Crossed, CrossArgs[1]);
    var t, g := Named("t", TypeE(1, 0)), Named("g", FuncE(3));
    assert MembersOf(CrossTypes, 2) == [t] && MembersOf(CrossTypes, 4) == [g];
    OneMoreExport(compatible, CrossItems[1], CrossArgs[2], g, t);
    OneMoreExport(compatible, CrossItems[0], CrossArgs[3], t, g);
    assert EntryIndex(CrossItems[1..], "b") == Some(0);
    assert EntryIndex(CrossItems, "b") == Some(1);
    assert CrossItems[1 := CrossEntries[1]] == [CrossItems[0], CrossEntries[1]];
    assert EntryIndex([CrossItems[0], CrossEntries[1]], "a") == Some(0);
    assert [CrossItems[0], CrossEntries[1]][0 := CrossEntries[0]] == CrossEntries;
  }

  /** An import of a name that is there already is merged into its entry. */
  lemma MergeStep(w: World, compatible: M.Compatible, args: seq<Arg>, n: nat, p: Plan, q: Plan)
    requires EachOk(w, args) && n < |args| && PlanAll(w, compatible, args[..n]) == Planned(p) && ArgOk(w, args[n])
    requires ItemsOk(w, p.entries)
    requires var a := args[n];
             && Add(w, compatible, p.entries, a) == Some(q.entries)
             && a.comp in q.definers && q.definers == p.definers[a.comp := q.definers[a.comp]]
             && AfterEntity(w[a.comp], RegistryOf(p, a.comp), a.name, a.entity, |w[a.comp]|)
             == Some(Registry(q.definers[a.comp], q.deps))
    ensures PlanAll(w, compatible, args[..n + 1]) == Planned(q)
  {
    hide AfterEntity;
    hide Add;
    hide ArgOk;
    assert args[..n + 1][..n] == args[..n];
  }

  lemma CrossPlanned(compatible: M.Compatible)
    ensures EachOk(Crossed, CrossArgs) && PlanAll(Crossed, compatible, CrossArgs) == Planned(CrossPlan)
  {
    hide AfterEntity;
    hide Add;
    hide CrossDefined;
    CrossOk();
    CrossMerged(compatible);
    var w, args := Crossed, CrossArgs;
    var first := Plan(CrossItems[..1], map[0 := CrossDefined("a")], map[]);
    var second := Plan(CrossItems, map[0 := CrossDefined("a")], map["b" := ["a"]]);
    var third := Plan([CrossItems[0], CrossEntries[1]], map[0 := CrossDefined("a"), 1 := CrossDefined("b")],
                      map["b" := ["a"]]);
    RegisterType(map[], "a");
    PlanStep(w, compatible, args, 0, NoPlan, first);
    var none: seq<Name> := [];
    assert none + ["a"] == ["a"] && none + ["b"] == ["b"];
    RegisterUse(map[], "b", "a");
    PlanStep(w, compatible, args, 1, first, second);
    RegisterType(map["b" := ["a"]], "b");
    MergeStep(w, compatible, args, 2, second, third);
    RegisterUse(map["b" := ["a"]], "a", "b");
    MergeStep(w, compatible, args, 3, third, CrossPlan);
    assert args[..4] == args;
  }

  lemma CrossNoNames()
    ensures NoNames(Crossed)
  {
    assert !Creating(CrossTypes, Peel(CrossTypes, 1));
  }

  /** Each of two imports then depends on the other, and the search for an order does not end. */
  lemma OppositeOrders(compatible: M.Compatible)
    ensures WorldOk(Crossed) && ArgsOk(Crossed, CrossArgs) && NoNames(Crossed)
    ensures PlanAll(Crossed, compatible, CrossArgs) == Planned(CrossPlan) && !Acyclic(CrossPlan.deps)
  {
    hide PlanAll;
    hide TypesOk;
    CrossOk();
    CrossPlanned(compatible);
    CrossNoNames();
    assert IsPath(CrossDeps, ["a", "b", "a"]);
    if Acyclic(CrossDeps) {
      AcyclicHasNoCycle(CrossDeps, ["a", "b", "a"]);
    }
  }
}
