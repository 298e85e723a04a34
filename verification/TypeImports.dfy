/**
 wasm-compose's imports of a composed component: single items, and instances merged from the
 views that several components have of them.
 */
module TypeImports {
  import opened Common
  import opened ComponentTypes
  import opened TypeScopes
  import opened TypeOrder
  import opened TypeMeaning
  import opened TypeEncoder
  import T = Translation

  /** One component's view of an export. */
  datatype View = View(comp: nat, entity: Entity)

  datatype MergedExport = MergedExport(name: string, views: seq<View>)

  datatype ImportEntry =
    | ItemImport(name: string, comp: nat, entity: Entity)
    | InstanceImport(name: string, exports: seq<MergedExport>)

  ghost predicate ViewOk(w: World, v: View) {
    v.comp < |w| && TypesOk(w[v.comp]) && EntityOk(w[v.comp], v.entity, |w[v.comp]|)
  }

  ghost function ViewMeaning(w: World, v: View): (Kind, Meaning)
    requires ViewOk(w, v)
  {
    UnfoldEntity(w[v.comp], v.entity, |w[v.comp]|)
  }

  predicate CreatesKey(v: View, k: Key) {
    v.entity.TypeE? && k == Key(v.comp, v.entity.created)
  }

  /** All views of an export agree on what it is. */
  ghost predicate MergedExportOk(w: World, x: MergedExport) {
    && x.views != [] && (forall a :: 0 <= a < |x.views| ==> ViewOk(w, x.views[a]))
    && forall a :: 0 <= a < |x.views| ==> ViewMeaning(w, x.views[a]) == ViewMeaning(w, x.views[0])
  }

  /** Names differ, each created type is in one view, and views of one component come in its order. */
  ghost predicate MergedOk(w: World, exports: seq<MergedExport>) {
    && (forall j :: 0 <= j < |exports| ==> MergedExportOk(w, exports[j]))
    && (forall i, j :: 0 <= i < j < |exports| ==> exports[i].name != exports[j].name)
    && (forall i, j, a, b, k :: InView(exports, i, a, k) && InView(exports, j, b, k) ==> i == j && a == b)
    && (forall i, j :: 0 <= i < j < |exports| ==> InOrder(exports[i].views[0], exports[j].views[0]))
  }

  ghost predicate InView(exports: seq<MergedExport>, j: int, a: int, k: Key) {
    0 <= j < |exports| && 0 <= a < |exports[j].views| && CreatesKey(exports[j].views[a], k)
  }

  predicate InOrder(u: View, v: View) {
    u.comp == v.comp && v.entity.TypeE? ==> Top(u.entity) < v.entity.created
  }

  ghost predicate EntryOk(w: World, e: ImportEntry) {
    match e
    case ItemImport(_, comp, entity) => ViewOk(w, View(comp, entity))
    case InstanceImport(_, exports) => MergedOk(w, exports)
  }

  ghost function MergedMeaning(w: World, exports: seq<MergedExport>): (r: seq<MNamed>)
    requires MergedOk(w, exports)
    ensures |r| == |exports|
  {
    seq(|exports|, j requires 0 <= j < |exports| =>
      assert MergedExportOk(w, exports[j]);
      MNamed(exports[j].name, ViewMeaning(w, exports[j].views[0]).0, ViewMeaning(w, exports[j].views[0]).1))
  }

  /** What the import is, as the components that need it see it. */
  ghost function EntryMeaning(w: World, e: ImportEntry): MNamed
    requires EntryOk(w, e)
  {
    match e
    case ItemImport(name, comp, entity) =>
      MNamed(name, ViewMeaning(w, View(comp, entity)).0, ViewMeaning(w, View(comp, entity)).1)
    case InstanceImport(name, exports) => MNamed(name, KInstance, MInstance(MergedMeaning(w, exports)))
  }

  // ----- in which order the imports must come -----

  /** The types that the views create. */
  function CreatedKeys(exports: seq<MergedExport>): set<Key> {
    set j, a | 0 <= j < |exports| && 0 <= a < |exports[j].views| && exports[j].views[a].entity.TypeE? ::
      Key(exports[j].views[a].comp, exports[j].views[a].entity.created)
  }

  /** What is declared in the body of a merged instance: each export as its first view has it. */
  function FirstViews(exports: seq<MergedExport>): (ds: seq<Decl>)
    requires forall j :: 0 <= j < |exports| ==> exports[j].views != []
    ensures |ds| == |exports|
    ensures forall j :: 0 <= j < |ds| ==> ds[j] == OfEntity(exports[j].views[0].comp, exports[j].views[0].entity, true)
  {
    seq(|exports|, j requires 0 <= j < |exports| =>
        OfEntity(exports[j].views[0].comp, exports[j].views[0].entity, true))
  }

  function EntryDecl(e: ImportEntry): Decl {
    match e
    case ItemImport(_, comp, entity) => OfEntity(comp, entity, false)
    case InstanceImport(_, exports) => OfViews(CreatedKeys(exports))
  }

  function EntryDecls(entries: seq<ImportEntry>): (ds: seq<Decl>)
    ensures |ds| == |entries| && forall j :: 0 <= j < |ds| ==> ds[j] == EntryDecl(entries[j])
  {
    seq(|entries|, j requires 0 <= j < |entries| => EntryDecl(entries[j]))
  }

  /** Inside a merged instance types are registered at the right instance, and once. */
  ghost predicate ViewsInOrder(w: World, exports: seq<MergedExport>)
    requires MergedOk(w, exports)
  {
    && (forall j :: 0 <= j < |exports| ==> MergedExportOk(w, exports[j]))
    && Orderly(w, FirstViews(exports)) && NoRepeats(w, FirstViews(exports))
  }

  ghost predicate EntriesOk(w: World, entries: seq<ImportEntry>) {
    forall j :: 0 <= j < |entries| ==> EntryOk(w, entries[j])
  }

  /** Everywhere types are registered at the right instance. */
  ghost predicate InOrderAll(w: World, entries: seq<ImportEntry>)
    requires EntriesOk(w, entries)
  {
    && BodiesOk(w) && Orderly(w, EntryDecls(entries))
    && forall j :: 0 <= j < |entries| && entries[j].InstanceImport? ==>
         EntryOk(w, entries[j]) && ViewsInOrder(w, entries[j].exports)
  }

  /** No two imports make the same type available, unless they name it by the same type. */
  ghost predicate NoClash(w: World, entries: seq<ImportEntry>) {
    NoRepeats(w, EntryDecls(entries))
  }

  // ----- the imports as functions -----

  /** The other views only add their own keys for what is exported already. */
  function OtherViews(st: T.TState, name: string, views: seq<View>): T.Outcome<()> {
    if views == [] then T.Done(st, ())
    else
      var n := |views| - 1;
      match OtherViews(st, name, views[..n])
      case Panics => T.Panics
      case Done(st', _) =>
        if views[n].entity.TypeE?
        then T.AddTypeExport(st', Key(views[n].comp, views[n].entity.created), name)
        else T.Done(st', ())
  }

  /** One export of a merged instance: translated from its first view, known under all of them. */
  function MergedExported(w: World, st: T.TState, x: MergedExport): T.Outcome<()>
    requires WorldOk(w) && x.views != [] && ViewOk(w, x.views[0])
  {
    var v := x.views[0];
    match T.ExportInto(w, st, v.comp, x.name, v.entity, |w[v.comp]|)
    case Panics => T.Panics
    case Done(st', _) => OtherViews(st', x.name, x.views[1..])
  }

  ghost predicate FirstViewsOk(w: World, exports: seq<MergedExport>) {
    forall j :: 0 <= j < |exports| ==> exports[j].views != [] && ViewOk(w, exports[j].views[0])
  }

  function AllExported(w: World, st: T.TState, exports: seq<MergedExport>): T.Outcome<()>
    requires WorldOk(w) && FirstViewsOk(w, exports)
  {
    if exports == [] then T.Done(st, ())
    else
      var n := |exports| - 1;
      match AllExported(w, st, exports[..n])
      case Panics => T.Panics
      case Done(st', _) => MergedExported(w, st', exports[n])
  }

  function MergedImported(w: World, st: T.TState, name: string, exports: seq<MergedExport>): T.Outcome<()>
    requires WorldOk(w) && FirstViewsOk(w, exports)
  {
    match AllExported(w, T.Push(st, InstanceBody), exports)
    case Panics => T.Panics
    case Done(st', _) =>
      match T.Pop(st')
      case Panics => T.Panics
      case Done(st'', body) =>
        var index := TypeCount(st''.cur.items);
        T.Done(T.Emit(T.Emit(st'', DefInstance(body)), Declaration(true, name, TInstance(index))), ())
  }

  function Imported(w: World, st: T.TState, e: ImportEntry): T.Outcome<()>
    requires WorldOk(w) && EntryOk(w, e)
  {
    match e
    case ItemImport(name, comp, entity) => T.ImportInto(w, st, comp, name, entity, |w[comp]|)
    case InstanceImport(name, exports) =>
      FirstsOk(w, exports);
      MergedImported(w, st, name, exports)
  }

  function AllImported(w: World, st: T.TState, entries: seq<ImportEntry>): T.Outcome<()>
    requires WorldOk(w) && EntriesOk(w, entries)
  {
    if entries == [] then T.Done(st, ())
    else
      var n := |entries| - 1;
      match AllImported(w, st, entries[..n])
      case Panics => T.Panics
      case Done(st', _) => Imported(w, st', entries[n])
  }

  const Start := T.TState([], NewScope(Builder))

  lemma FirstsOk(w: World, exports: seq<MergedExport>)
    requires MergedOk(w, exports)
    ensures FirstViewsOk(w, exports)
  {
    forall j | 0 <= j < |exports|
      ensures exports[j].views != [] && ViewOk(w, exports[j].views[0])
    {
      assert MergedExportOk(w, exports[j]);
    }
  }

  // ----- the imports as they are written -----

  method AddOtherViews(st: TypeState, name: string, views: seq<View>) returns (r: Option<()>)
    modifies st
    ensures Matches(r, st.State(), OtherViews(old(st.State()), name, views))
  {
    for a := 0 to |views|
      invariant OtherViews(old(st.State()), name, views[..a]) == T.Done(st.State(), ())
    {
      assert views[..a + 1][..a] == views[..a];
      if views[a].entity.TypeE? {
        var added := st.AddTypeExport(Key(views[a].comp, views[a].entity.created), name);
        if added.None? {
          OtherViewsPanic(old(st.State()), name, views, a + 1);
          return None;
        }
        assert added.value == ();
      }
    }
    assert views[..|views|] == views;
    return Some(());
  }

  lemma {:induction false} OtherViewsPanic(st: T.TState, name: string, views: seq<View>, a: nat)
    requires a <= |views| && OtherViews(st, name, views[..a]).Panics?
    ensures OtherViews(st, name, views).Panics?
    decreases |views| - a
  {
    if a < |views| {
      assert views[..a + 1][..a] == views[..a];
      OtherViewsPanic(st, name, views, a + 1);
    } else {
      assert views[..a] == views;
    }
  }

  method ExportMerged(st: TypeState, x: MergedExport) returns (r: Option<()>)
    requires WorldOk(st.w) && x.views != [] && ViewOk(st.w, x.views[0])
    modifies st
    ensures Matches(r, st.State(), MergedExported(st.w, old(st.State()), x))
  {
    hide T.ExportInto;
    hide OtherViews;
    var v := x.views[0];
    var exported := st.ExportInto(v.comp, x.name, v.entity, |st.w[v.comp]|);
    if exported.None? {
      return None;
    }
    r := AddOtherViews(st, x.name, x.views[1..]);
  }

  method EncodeInstanceImport(st: TypeState, name: string, exports: seq<MergedExport>) returns (r: Option<()>)
    requires WorldOk(st.w) && FirstViewsOk(st.w, exports)
    modifies st
    ensures Matches(r, st.State(), MergedImported(st.w, old(st.State()), name, exports))
  {
    hide MergedExported;
    st.Push(InstanceBody);
    for j := 0 to |exports|
      invariant AllExported(st.w, T.Push(old(st.State()), InstanceBody), exports[..j]) == T.Done(st.State(), ())
    {
      assert exports[..j + 1][..j] == exports[..j];
      var exported := ExportMerged(st, exports[j]);
      if exported.None? {
        AllExportedPanic(st.w, T.Push(old(st.State()), InstanceBody), exports, j + 1);
        return None;
      }
      assert exported.value == ();
    }
    assert exports[..|exports|] == exports;
    var body := st.Pop();
    if body.None? {
      return None;
    }
    var index := st.Emit(DefInstance(body.value));
    var _ := st.Emit(Declaration(true, name, TInstance(index)));
    return Some(());
  }

  lemma {:induction false} AllExportedPanic(w: World, st: T.TState, exports: seq<MergedExport>, j: nat)
    requires WorldOk(w) && FirstViewsOk(w, exports) && j <= |exports| && AllExported(w, st, exports[..j]).Panics?
    ensures AllExported(w, st, exports).Panics?
    decreases |exports| - j
  {
    if j < |exports| {
      assert exports[..j + 1][..j] == exports[..j];
      AllExportedPanic(w, st, exports, j + 1);
    } else {
      assert exports[..j] == exports;
    }
  }

  method EncodeItemImport(st: TypeState, name: string, comp: nat, entity: Entity) returns (r: Option<()>)
    requires WorldOk(st.w) && ViewOk(st.w, View(comp, entity))
    modifies st
    ensures Matches(r, st.State(), T.ImportInto(st.w, old(st.State()), comp, name, entity, |st.w[comp]|))
  {
    r := st.ImportInto(comp, name, entity, |st.w[comp]|);
  }

  // ----- inside a merged instance -----

  ghost predicate CachedFrom(typeDefs: map<Key, nat>, exports: seq<MergedExport>) {
    forall k :: k in typeDefs ==> exists i :: 0 <= i < |exports| && Covers(exports[i], k)
  }

  predicate Covers(x: MergedExport, k: Key) {
    x.views != [] && x.views[0].comp == k.comp && k.id <= Top(x.views[0].entity)
  }

  /** View `b` of export `i` comes before view `a` of export `j`. */
  predicate Earlier(i: int, b: int, j: nat, a: nat) {
    i < j || (i == j && b < a)
  }

  /** Exported are exactly the types that earlier views create. */
  ghost predicate ExportedViews(typeExports: map<Key, string>, exports: seq<MergedExport>, j: nat, a: nat) {
    && (forall k :: k in typeExports ==>
          exists i, b :: Earlier(i, b, j, a) && InView(exports, i, b, k) && typeExports[k] == exports[i].name)
    && (forall i, b, k :: Earlier(i, b, j, a) && InView(exports, i, b, k) ==> k in typeExports)
  }

  lemma ViewNotExported(w: World, typeExports: map<Key, string>, exports: seq<MergedExport>, j: nat, a: nat)
    requires MergedOk(w, exports) && ExportedViews(typeExports, exports, j, a)
    requires j < |exports| && a < |exports[j].views|
    ensures var v := exports[j].views[a]; v.entity.TypeE? ==> Key(v.comp, v.entity.created) !in typeExports
    ensures a == 0 ==> forall k :: k in typeExports ==> typeExports[k] != exports[j].name
  {
    var v := exports[j].views[a];
    if v.entity.TypeE? {
      assert InView(exports, j, a, Key(v.comp, v.entity.created));
    }
  }

  lemma FirstNotCached(w: World, typeDefs: map<Key, nat>, exports: seq<MergedExport>, j: nat)
    requires MergedOk(w, exports) && j < |exports| && CachedFrom(typeDefs, exports[..j]) && exports[j].views != []
    ensures var v := exports[j].views[0]; v.entity.TypeE? ==> Key(v.comp, v.entity.created) !in typeDefs
  {
    var v := exports[j].views[0];
    if v.entity.TypeE? {
      forall k | k in typeDefs && k.comp == v.comp
        ensures k.id < v.entity.created
      {
        var done := exports[..j];
        var i :| 0 <= i < |done| && Covers(done[i], k);
        assert done[i] == exports[i] && InOrder(exports[i].views[0], v);
      }
    }
  }

  lemma CachedMore(w: World, a: Snapshot, b: Snapshot, exports: seq<MergedExport>, j: nat)
    requires j < |exports| && exports[j].views != [] && CachedFrom(a.cur.typeDefs, exports[..j])
    requires Advanced(w, a, b, exports[j].views[0].comp, exports[j].views[0].entity)
    ensures CachedFrom(b.cur.typeDefs, exports[..j + 1])
  {
    var now, was := exports[..j + 1], exports[..j];
    forall k | k in b.cur.typeDefs
      ensures exists i :: 0 <= i < |now| && Covers(now[i], k)
    {
      if k in a.cur.typeDefs {
        var i :| 0 <= i < |was| && Covers(was[i], k);
        assert now[i] == was[i];
      } else {
        assert Covers(now[j], k);
      }
    }
  }

  lemma ViewsMore(a: map<Key, string>, b: map<Key, string>, exports: seq<MergedExport>, j: nat, i: nat)
    requires j < |exports| && i < |exports[j].views| && ExportedViews(a, exports, j, i)
    requires var v := exports[j].views[i];
             b == if v.entity.TypeE? then a[Key(v.comp, v.entity.created) := exports[j].name] else a
    ensures ExportedViews(b, exports, j, i + 1)
  {
    var v := exports[j].views[i];
    forall k | k in b
      ensures exists m, n :: Earlier(m, n, j, i + 1) && InView(exports, m, n, k) && b[k] == exports[m].name
    {
      if CreatesKey(v, k) {
        assert Earlier(j, i, j, i + 1) && InView(exports, j, i, k);
      } else {
        var m, n :| Earlier(m, n, j, i) && InView(exports, m, n, k) && a[k] == exports[m].name;
        assert Earlier(m, n, j, i + 1);
      }
    }
    forall m, n, k | Earlier(m, n, j, i + 1) && InView(exports, m, n, k)
      ensures k in b
    {
      assert Earlier(m, n, j, i) || (m == j && n == i);
    }
  }

  lemma ViewsDone(a: map<Key, string>, exports: seq<MergedExport>, j: nat)
    requires j < |exports| && ExportedViews(a, exports, j, |exports[j].views|)
    ensures ExportedViews(a, exports, j + 1, 0)
  {
    forall k | k in a
      ensures exists m, n :: Earlier(m, n, j + 1, 0) && InView(exports, m, n, k) && a[k] == exports[m].name
    {
      var m, n :| Earlier(m, n, j, |exports[j].views|) && InView(exports, m, n, k) && a[k] == exports[m].name;
      assert Earlier(m, n, j + 1, 0);
    }
    forall m, n, k | Earlier(m, n, j + 1, 0) && InView(exports, m, n, k)
      ensures k in a
    {
      assert Earlier(m, n, j, |exports[j].views|);
    }
  }

  lemma ViewExported(w: World, x: MergedExport, a: nat, before: seq<MNamed>)
    requires MergedExportOk(w, x) && WorldOk(w) && a < |x.views| && x.views[a].entity.TypeE?
    ensures var v := x.views[0];
            var k := Key(x.views[a].comp, x.views[a].entity.created);
            IsAlias(w, k)
            && TypeExport(before + [Meaningful(w[v.comp], x.name, v.entity, |w[v.comp]|)], x.name) == Some(Meant(w, k))
  {
    hide TypeExport;
    var u, v := x.views[a], x.views[0];
    assert ViewOk(w, u) && ViewOk(w, v) && ViewMeaning(w, u) == ViewMeaning(w, v);
    CreatedMeaning(w[u.comp], u.entity, |w[u.comp]|);
    OtherExport(before, Meaningful(w[v.comp], x.name, v.entity, |w[v.comp]|), x.name);
  }

  /** The other views of export `j`, up to view `n`. */
  lemma {:induction false} OtherViewsMean(w: World, s: Snapshot, exports: seq<MergedExport>, j: nat, n: nat,
      before: seq<MNamed>)
    returns (t: Snapshot)
    requires WorldOk(w) && MergedOk(w, exports) && j < |exports| && MergedExportOk(w, exports[j])
    requires Inv(w, s) && ExportedViews(s.cur.typeExports, exports, j, 1) && 1 <= n <= |exports[j].views|
    requires var v := exports[j].views[0];
             CurEnv(s).exports == before + [Meaningful(w[v.comp], exports[j].name, v.entity, |w[v.comp]|)]
    ensures OtherViews(StateOf(s), exports[j].name, exports[j].views[1..n]) == T.Done(StateOf(t), ())
    ensures Inv(w, t) && t.scopes == s.scopes && t.envs == s.envs
    ensures t.cur == s.cur.(typeExports := t.cur.typeExports, typeExportsRev := t.cur.typeExportsRev)
    ensures ExportedViews(t.cur.typeExports, exports, j, n)
    decreases n
  {
    hide Inv;
    hide ExportedViews;
    hide UnfoldEntity;
    hide EntityOk;
    hide MergedOk;
    hide TypeExport;
    InvShape(w, s);
    var views, name := exports[j].views, exports[j].name;
    if n == 1 {
      t := s;
    } else {
      var mid := OtherViewsMean(w, s, exports, j, n - 1, before);
      assert views[1..n][..|views[1..n]| - 1] == views[1..n - 1];
      var v := views[n - 1];
      if v.entity.TypeE? {
        var k := Key(v.comp, v.entity.created);
        ViewNotExported(w, mid.cur.typeExports, exports, j, n - 1);
        ViewExported(w, exports[j], n - 1, before);
        ExportingKeeps(w, mid, k, name);
        t := ExportingNow(mid, k, name);
      } else {
        t := mid;
      }
      ViewsMore(mid.cur.typeExports, t.cur.typeExports, exports, j, n - 1);
    }
  }

  /** Nothing waits for an instance in the scopes around the current one. */
  ghost predicate OuterSettled(s: Snapshot) {
    |s.envs| == |s.scopes| + 1 &&
    forall level, k :: 0 <= level < |s.scopes| ==> !Pending(s.scopes[level], s.envs[level], k)
  }

  lemma OuterSettledKept(a: Snapshot, b: Snapshot)
    requires OuterKept(a, b) && OuterSettled(a)
    ensures OuterSettled(b)
  {
    forall level, k | 0 <= level < |b.scopes|
      ensures !Pending(b.scopes[level], b.envs[level], k)
    {
      assert !Pending(a.scopes[level], a.envs[level], k);
    }
  }

  lemma SettledClear(w: World, s: Snapshot, c: nat, id: nat)
    requires OuterSettled(s) && c < |w| && TypesOk(w[c]) && id < |w[c]|
    ensures OuterClear(w, s, c, id)
  {
  }

  /** The first `n` exports of a merged instance. */
  ghost predicate MergedTo(w: World, s: Snapshot, exports: seq<MergedExport>, n: nat)
    requires MergedOk(w, exports) && n <= |exports| && forall j :: 0 <= j < |exports| ==> exports[j].views != []
  {
    && Inv(w, s) && OuterSettled(s) && Tracks(w, s, FirstViews(exports)[..n])
    && CachedFrom(s.cur.typeDefs, exports[..n]) && ExportedViews(s.cur.typeExports, exports, n, 0)
    && s.cur.kind == InstanceBody && CurEnv(s).exports == MergedMeaning(w, exports)[..n]
  }

  lemma MergedNext(w: World, s: Snapshot, exports: seq<MergedExport>, n: nat) returns (t: Snapshot)
    requires BodiesOk(w) && WorldOk(w) && MergedOk(w, exports) && ViewsInOrder(w, exports) && n < |exports|
    requires MergedTo(w, s, exports, n)
    ensures exports[n].views != [] && ViewOk(w, exports[n].views[0])
    ensures MergedExported(w, StateOf(s), exports[n]) == T.Done(StateOf(t), ())
    ensures MergedTo(w, t, exports, n + 1) && OuterKept(s, t)
  {
    hide Inv;
    hide Tracks;
    hide OuterKept;
    hide CachedFrom;
    hide ExportedViews;
    hide UnfoldEntity;
    hide EntityOk;
    hide Advanced;
    hide BodiesOk;
    hide OuterSettled;
    hide OuterClear;
    hide MergedOk;
    hide Orderly;
    hide NoRepeats;
    hide T.ExportInto;
    InvShape(w, s);
    var x, ds := exports[n], FirstViews(exports);
    assert MergedExportOk(w, x);
    var v := x.views[0];
    OrderPrefix(w, ds, n + 1);
    var now := ds[..n + 1];
    assert now[..n] == ds[..n] && now == ds[..n] + [ds[n]];
    OrderLast(w, now);
    ViewNotExported(w, s.cur.typeExports, exports, n, 0);
    FirstNotCached(w, s.cur.typeDefs, exports, n);
    if KeyOf(v.entity).Some? {
      KeyInRange(w[v.comp], v.entity, |w[v.comp]|);
      SettledClear(w, s, v.comp, KeyOf(v.entity).value);
    }
    var mid := ExportIntoMeans(w, s, ds[..n], v.comp, x.name, v.entity, |w[v.comp]|);
    ViewsMore(s.cur.typeExports, mid.cur.typeExports, exports, n, 0);
    CachedMore(w, s, mid, exports, n);
    AdvancedKind(w, s, mid, v.comp, v.entity);
    t := OtherViewsMean(w, mid, exports, n, |x.views|, CurEnv(s).exports);
    assert x.views[1..|x.views|] == x.views[1..];
    ViewsDone(t.cur.typeExports, exports, n);
    SameTracks(w, mid, t, now);
    OuterSame(s, mid, t);
    OuterSettledKept(s, t);
    MergedMeaningAt(w, exports, n);
  }

  lemma AdvancedKind(w: World, a: Snapshot, b: Snapshot, c: nat, e: Entity)
    requires Advanced(w, a, b, c, e)
    ensures b.cur.kind == a.cur.kind
  {
  }

  lemma SameTracks(w: World, a: Snapshot, b: Snapshot, ds: seq<Decl>)
    requires Tracks(w, a, ds) && b.envs == a.envs && b.scopes == a.scopes
    requires b.cur.typeDefs == a.cur.typeDefs && b.cur.instanceExports == a.cur.instanceExports
    ensures Tracks(w, b, ds)
  {
    hide Registers;
    hide OpenAfter;
    hide Offers;
    forall k | Pending(b.cur, CurEnv(b), k)
      ensures WaitsFor(w, b.cur, k, OpenAfter(w, ds))
    {
      assert Pending(a.cur, CurEnv(a), k);
      assert WaitsFor(w, a.cur, k, OpenAfter(w, ds));
    }
  }

  lemma OuterSame(a: Snapshot, b: Snapshot, d: Snapshot)
    requires OuterKept(a, b) && d.scopes == b.scopes && d.envs == b.envs
    ensures OuterKept(a, d)
  {
  }

  lemma MergedMeaningAt(w: World, exports: seq<MergedExport>, n: nat)
    requires WorldOk(w) && MergedOk(w, exports) && n < |exports| && MergedExportOk(w, exports[n])
    ensures var v := exports[n].views[0];
            MergedMeaning(w, exports)[..n + 1]
            == MergedMeaning(w, exports)[..n] + [Meaningful(w[v.comp], exports[n].name, v.entity, |w[v.comp]|)]
  {
    hide UnfoldEntity;
    hide EntityOk;
    var all := MergedMeaning(w, exports);
    assert all[..n + 1] == all[..n] + [all[n]];
  }

  lemma {:induction false} AllExportedMeans(w: World, s: Snapshot, exports: seq<MergedExport>, n: nat)
    returns (t: Snapshot)
    requires BodiesOk(w) && WorldOk(w) && MergedOk(w, exports) && ViewsInOrder(w, exports) && n <= |exports|
    requires FirstViewsOk(w, exports) && MergedTo(w, s, exports, 0)
    ensures AllExported(w, StateOf(s), exports[..n]) == T.Done(StateOf(t), ())
    ensures MergedTo(w, t, exports, n) && OuterKept(s, t)
    decreases n
  {
    hide MergedTo;
    hide MergedOk;
    hide ViewsInOrder;
    hide BodiesOk;
    hide MergedExported;
    hide OuterKept;
    if n == 0 {
      MergedShape(w, s, exports, 0);
      OuterKeptSelf(s);
      t := s;
    } else {
      var mid := AllExportedMeans(w, s, exports, n - 1);
      assert exports[..n][..n - 1] == exports[..n - 1];
      t := MergedNext(w, mid, exports, n - 1);
      OuterKeptTransitive(s, mid, t);
    }
  }

  lemma MergedShape(w: World, s: Snapshot, exports: seq<MergedExport>, n: nat)
    requires MergedOk(w, exports) && n <= |exports| && (forall j :: 0 <= j < |exports| ==> exports[j].views != [])
    requires MergedTo(w, s, exports, n)
    ensures Inv(w, s) && |s.envs| == |s.scopes| + 1
  {
  }

  /** The body of a merged instance is filled in a scope of its own; only leaving it may fail. */
  lemma MergedFilled(w: World, s: Snapshot, exports: seq<MergedExport>) returns (b: Snapshot)
    requires BodiesOk(w) && WorldOk(w) && Inv(w, s) && MergedOk(w, exports) && ViewsInOrder(w, exports)
    requires FirstViewsOk(w, exports) && OuterSettled(s) && forall k :: !Pending(s.cur, CurEnv(s), k)
    ensures AllExported(w, T.Push(StateOf(s), InstanceBody), exports) == T.Done(StateOf(b), ())
    ensures Inv(w, b) && OuterKept(Pushed(s, InstanceBody), b) && b.cur.kind == InstanceBody
    ensures b.cur.typeExports.Keys == CreatedKeys(exports) && |b.envs| == |b.scopes| + 1
    ensures CurEnv(b).exports == MergedMeaning(w, exports)
  {
    hide Inv;
    hide OuterKept;
    hide MergedOk;
    hide ViewsInOrder;
    hide BodiesOk;
    hide AllExported;
    hide MergedMeaning;
    InvShape(w, s);
    PushKeeps(w, s, InstanceBody);
    var p := Pushed(s, InstanceBody);
    StartsMerged(w, s, exports);
    b := AllExportedMeans(w, p, exports, |exports|);
    assert exports[..|exports|] == exports;
    InvShape(w, b);
    ViewsAreKeys(b.cur.typeExports, exports);
  }

  lemma StartsMerged(w: World, s: Snapshot, exports: seq<MergedExport>)
    requires WorldOk(w) && MergedOk(w, exports) && FirstViewsOk(w, exports) && Inv(w, Pushed(s, InstanceBody))
    requires OuterSettled(s) && forall k :: !Pending(s.cur, CurEnv(s), k)
    ensures MergedTo(w, Pushed(s, InstanceBody), exports, 0)
  {
    hide Inv;
    hide MergedOk;
    var p := Pushed(s, InstanceBody);
    NothingTracked(w, p);
    assert FirstViews(exports)[..0] == [];
    forall level, k | 0 <= level < |p.scopes|
      ensures !Pending(p.scopes[level], p.envs[level], k)
    {
      if level < |s.scopes| {
        assert !Pending(s.scopes[level], s.envs[level], k);
      } else {
        assert !Pending(s.cur, CurEnv(s), k);
      }
    }
  }

  lemma ViewsAreKeys(typeExports: map<Key, string>, exports: seq<MergedExport>)
    requires ExportedViews(typeExports, exports, |exports|, 0)
    ensures typeExports.Keys == CreatedKeys(exports)
  {
    forall k
      ensures k in typeExports <==> k in CreatedKeys(exports)
    {
      if k in CreatedKeys(exports) {
        var j, a :| 0 <= j < |exports| && 0 <= a < |exports[j].views| && CreatesKey(exports[j].views[a], k);
        assert InView(exports, j, a, k) && Earlier(j, a, |exports|, 0);
      }
    }
  }

  /** The merged instance is imported, or what it exports was registered before. */
  lemma MergedImportMeans(w: World, s: Snapshot, name: string, exports: seq<MergedExport>) returns (t: Snapshot)
    requires BodiesOk(w) && WorldOk(w) && Inv(w, s) && MergedOk(w, exports) && ViewsInOrder(w, exports)
    requires FirstViewsOk(w, exports) && OuterSettled(s) && forall k :: !Pending(s.cur, CurEnv(s), k)
    ensures !(CreatedKeys(exports) !! s.cur.instanceExports.Keys) ==>
              MergedImported(w, StateOf(s), name, exports).Panics?
    ensures CreatedKeys(exports) !! s.cur.instanceExports.Keys ==>
              && MergedImported(w, StateOf(s), name, exports) == T.Done(StateOf(t), ())
              && Inv(w, t) && OuterKept(s, t) && |t.envs| == |t.scopes| + 1
              && t.cur.typeDefs == s.cur.typeDefs && t.cur.typeExports == s.cur.typeExports
              && t.cur.instanceExports.Keys == s.cur.instanceExports.Keys + CreatedKeys(exports)
              && (forall k :: !Pending(t.cur, CurEnv(t), k))
              && CurEnv(t).imports
                 == CurEnv(s).imports + [MNamed(name, KInstance, MInstance(MergedMeaning(w, exports)))]
  {
    hide Inv;
    hide OuterKept;
    hide Kept;
    hide Eval;
    hide Step;
    hide MergedOk;
    hide ViewsInOrder;
    hide BodiesOk;
    hide AllExported;
    hide MergedMeaning;
    hide CreatedKeys;
    hide Popped;
    hide RefMeaning;
    InvShape(w, s);
    var b := MergedFilled(w, s, exports);
    InnerScope(s, InstanceBody, b);
    t := s;
    if CreatedKeys(exports) !! s.cur.instanceExports.Keys {
      var m := MInstance(MergedMeaning(w, exports));
      var p := MergedPopped(w, s, b, m);
      var item, index := DefInstance(b.cur.items), TypeCount(p.cur.items);
      InstanceSteps(p, b.cur.items, CurEnv(b));
      DefinedKeeps(w, p, item, m);
      var q := Defined(p, item, m);
      KeptTransitive(s, p, q);
      InvShape(w, q);
      InstanceRef(CurEnv(q).types, index, m);
      StillAwaited(w, p, q, m);
      DeclareKeeps(w, q, true, name, TInstance(index));
      t := DeclaredNow(q, true, name, TInstance(index));
      DeclaredIs(q, true, name, TInstance(index));
      DeclaredParts(q, true, name, TInstance(index));
      KeptParts(s, q);
      OuterKeptTransitive(s, q, t);
      NothingWaits(w, q, t);
    }
  }

  lemma InstanceRef(types: seq<Meaning>, index: nat, m: Meaning)
    requires index < |types| && types[index] == m && m.MInstance?
    ensures RefMeaning(types, TInstance(index)) == Some((KInstance, m))
  {
  }

  lemma KeptParts(a: Snapshot, b: Snapshot)
    requires Kept(a, b)
    ensures OuterKept(a, b) && |a.envs| == |a.scopes| + 1 && |b.envs| == |b.scopes| + 1
    ensures EnvGrew(CurEnv(a), CurEnv(b)) && b.cur.typeExports == a.cur.typeExports
  {
  }

  lemma StillAwaited(w: World, a: Snapshot, b: Snapshot, m: Meaning)
    requires |a.envs| == |a.scopes| + 1 && |b.envs| == |b.scopes| + 1 && Awaited(w, a.cur, CurEnv(a), m)
    requires b.cur.instanceExports == a.cur.instanceExports && |CurEnv(b).instances| == |CurEnv(a).instances|
    ensures Awaited(w, b.cur, CurEnv(b), m)
  {
    hide Offers;
    forall k | Pending(b.cur, CurEnv(b), k)
      ensures InWorld(w, k) && Offers(m, b.cur.instanceExports[k].1, Meant(w, k))
    {
      assert Pending(a.cur, CurEnv(a), k);
    }
  }

  /** Once an instance was made nothing waits any more. */
  lemma NothingWaits(w: World, a: Snapshot, b: Snapshot)
    requires Inv(w, a) && |b.envs| == |b.scopes| + 1 && b.cur.instanceExports == a.cur.instanceExports
    requires |CurEnv(b).instances| == |CurEnv(a).instances| + 1
    ensures forall k :: !Pending(b.cur, CurEnv(b), k)
  {
    hide Evaluates;
    hide OuterOk;
    hide Offers;
  }

  /** The body of the merged instance is left: everything that waits is exported by it. */
  lemma MergedPopped(w: World, s: Snapshot, b: Snapshot, m: Meaning) returns (p: Snapshot)
    requires Inv(w, b) && |s.envs| == |s.scopes| + 1 && OuterKept(Pushed(s, InstanceBody), b)
    requires b.cur.kind == InstanceBody && b.cur.typeExports.Keys !! s.cur.instanceExports.Keys
    requires m == MInstance(CurEnv(b).exports) && forall k :: !Pending(s.cur, CurEnv(s), k)
    ensures T.Pop(StateOf(b)) == T.Done(StateOf(p), b.cur.items)
    ensures Inv(w, p) && Kept(s, p) && |p.envs| == |p.scopes| + 1 && p.cur.typeDefs == s.cur.typeDefs
    ensures p.cur.instanceExports.Keys == s.cur.instanceExports.Keys + b.cur.typeExports.Keys
    ensures Awaited(w, p.cur, CurEnv(p), m) && Eval(b.cur.items, Outers(p.envs)) == Some(CurEnv(b))
  {
    hide Inv;
    hide Kept;
    hide Eval;
    hide Offers;
    InnerScope(s, InstanceBody, b);
    BodyKept(s, InstanceBody, b);
    PopKeeps(w, b);
    p := Popped(b);
    InvShape(w, p);
    KeptParts(s, p);
    forall k | Pending(p.cur, CurEnv(p), k)
      ensures InWorld(w, k) && Offers(m, p.cur.instanceExports[k].1, Meant(w, k))
    {
      assert !Pending(s.cur, CurEnv(s), k);
      assert k in b.cur.typeExports;
    }
  }

  // ----- at the outermost level -----

  /** The state between the imports of the composed component. */
  ghost predicate AtTop(w: World, s: Snapshot, ds: seq<Decl>) {
    Inv(w, s) && s.scopes == [] && Tracks(w, s, ds) && s.cur.typeExports == map[]
  }

  lemma StartsAtTop(w: World)
    requires WorldOk(w)
    ensures AtTop(w, Snapshot([], NewScope(Builder), [EmptyEnv]), [])
  {
    var s := Snapshot([], NewScope(Builder), [EmptyEnv]);
    NewScopeOk(w, Builder);
    EvalNothing(Outers(s.envs[..0]));
    NothingTracked(w, s);
  }

  lemma TopSettled(s: Snapshot)
    requires s.scopes == [] && |s.envs| == 1
    ensures OuterSettled(s)
  {
  }

  lemma NothingOpen(w: World, s: Snapshot, ds: seq<Decl>)
    requires Tracks(w, s, ds) && OpenAfter(w, ds).None?
    ensures forall k :: !Pending(s.cur, CurEnv(s), k)
  {
    hide Registers;
    hide OpenAfter;
    forall k
      ensures !Pending(s.cur, CurEnv(s), k)
    {
      assert Pending(s.cur, CurEnv(s), k) ==> WaitsFor(w, s.cur, k, OpenAfter(w, ds));
    }
  }

  lemma {:induction false} ItemMeans(w: World, s: Snapshot, ds: seq<Decl>, name: string, c: nat, e: Entity)
    returns (t: Snapshot)
    requires BodiesOk(w) && WorldOk(w) && AtTop(w, s, ds) && c < |w| && EntityOk(w[c], e, |w[c]|)
    requires DeclOk(w, OfEntity(c, e, false))
    requires Timely(w, ds, OfEntity(c, e, false)) && NoRepeat(w, ds, OfEntity(c, e, false))
    ensures T.ImportInto(w, StateOf(s), c, name, e, |w[c]|) == T.Done(StateOf(t), ())
    ensures AtTop(w, t, ds + [OfEntity(c, e, false)]) && |s.envs| == 1 && |t.envs| == 1
    ensures Advanced(w, s, t, c, e) && Added(w, s.cur, t.cur, c, Touched(e), KeySet(e))
    ensures Complete(w, s, t, c, e, |w[c]|)
    ensures CurEnv(t).imports == CurEnv(s).imports + [Meaningful(w[c], name, e, |w[c]|)]
  {
    hide Inv;
    hide Tracks;
    hide OuterKept;
    hide UnfoldEntity;
    hide Advanced;
    hide BodiesOk;
    hide EntityOk;
    hide Timely;
    hide NoRepeat;
    hide OuterSettled;
    hide T.ImportInto;
    InvShape(w, s);
    if KeyOf(e).Some? {
      KeyInRange(w[c], e, |w[c]|);
      TopSettled(s);
      SettledClear(w, s, c, KeyOf(e).value);
    }
    t := ImportIntoMeans(w, s, ds, c, name, e, |w[c]|);
    InvShape(w, t);
    SameDepth(s, t);
  }

  // ----- the next instance decides -----

  /** The emitted items evaluate, and the index denotes the type. */
  ghost predicate Denotes(found: (T.TState, nat), m: Meaning) {
    var env := Eval(found.0.cur.items, []);
    env.Some? && found.1 < |env.value.types| && env.value.types[found.1] == m
  }

  /** Looking up a registered type gives an alias to whatever the instance at its index exports. */
  lemma AliasDenotes(cur: Scope, env: Env, k: Key, m: Meaning)
    requires Eval(cur.items, []) == Some(env) && cur.typeExports == map[] && k in cur.instanceExports
    requires TypeCount(cur.items) == |env.types| && cur.instanceExports[k].0 < |env.instances|
    ensures var found := T.Find(T.TState([], cur), k);
            found.Some? && (Denotes(found.value, m) <==>
                            Offers(env.instances[cur.instanceExports[k].0], cur.instanceExports[k].1, m))
  {
    hide Eval;
    var (i, name) := cur.instanceExports[k];
    EvalMore(cur.items, AliasExport(i, name), []);
    assert T.Find(T.TState([], cur), k)
        == Some((T.Emit(T.TState([], cur), AliasExport(i, name)), TypeCount(cur.items)));
  }

  /** An instance may be translated while another instance type waits, if it uses none of its types. */
  ghost predicate Aside(w: World, ds: seq<Decl>, d: Decl)
    requires DeclsOk(w, ds) && DeclOk(w, d)
  {
    Known(ds, d) || (NoRepeat(w, ds, d) && (OpenAfter(w, ds).Some? ==> Avoids(w, d, OpenAfter(w, ds).value)))
  }

  lemma AsideReady(w: World, s: Snapshot, ds: seq<Decl>, d: Decl)
    requires WorldOk(w) && AtTop(w, s, ds) && DeclsOk(w, ds) && DeclOk(w, d) && d.OfEntity? && Aside(w, ds, d)
    requires KeyOf(d.entity).Some? && KeyOf(d.entity).value < |w[d.comp]|
    ensures Ready(w, s, d.comp, KeyOf(d.entity).value)
  {
    hide OpenAfter;
    hide Touches;
    hide Inv;
    var c, id := d.comp, KeyOf(d.entity).value;
    if !Known(ds, d) {
      forall x: nat | Creates(w[c], Peel(w[c], id), x)
        ensures Key(c, x) !in s.cur.instanceExports
      {
        assert Creating(w[c], Peel(w[c], id));
        assert Registers(w, d, Key(c, x));
      }
      forall k | Pending(s.cur, CurEnv(s), k) && k.comp == c
        ensures !Touches(w[c], id, k.id)
      {
        assert WaitsFor(w, s.cur, k, OpenAfter(w, ds));
      }
    }
  }

  lemma WaitsAtEnd(w: World, s: Snapshot, k: Key)
    requires Inv(w, s) && Pending(s.cur, CurEnv(s), k)
    ensures s.cur.instanceExports[k].0 == |CurEnv(s).instances| && InWorld(w, k)
  {
    hide Evaluates;
    hide Offers;
  }

  /**
   After an instance type was named, the types it creates are looked up in the instance that is
   imported next, whatever that is: the alias is right exactly if that instance exports the type
   under the name that the named instance type has for it.
   */
  lemma {:induction false} NextInstanceDecides(w: World, s: Snapshot, ds: seq<Decl>, name: string, c: nat, e: Entity,
      k: Key)
    requires BodiesOk(w) && WorldOk(w) && AtTop(w, s, ds) && DeclsOk(w, ds) && c < |w| && EntityOk(w[c], e, |w[c]|)
    requires DeclOk(w, OfEntity(c, e, false)) && e.InstanceE? && Aside(w, ds, OfEntity(c, e, false))
    requires Pending(s.cur, CurEnv(s), k)
    ensures WaitsFor(w, s.cur, k, OpenAfter(w, ds)) && InWorld(w, k) && e.id < |w[c]|
    ensures var next := T.ImportInto(w, StateOf(s), c, name, e, |w[c]|);
            && next.Done? && T.Find(next.st, k).Some?
            && (Denotes(T.Find(next.st, k).value, Meant(w, k)) <==>
                Offers(Unfold(w[c], e.id), s.cur.instanceExports[k].1, Meant(w, k)))
  {
    hide Tracks;
    hide Inv;
    hide Eval;
    hide Unfold;
    hide BodiesOk;
    hide Ready;
    hide RefMeaning;
    hide Announced;
    hide Added;
    hide T.EntityRef;
    hide OuterKept;
    hide Offers;
    hide EntityOk;
    InvShape(w, s);
    var d := OfEntity(c, e, false);
    KeyInRange(w[c], e, |w[c]|);
    AsideReady(w, s, ds, d);
    PendingWaits(w, s, ds, k);
    var t, r := EntityRefMeans(w, s, c, e, |w[c]|);
    EntityKind(w[c], e, |w[c]|);
    SameDepth(s, t);
    WaitsAtEnd(w, s, k);
    var u := DeclaredHere(w, t, name, r);
    AliasDenotes(u.cur, u.envs[0], k, Meant(w, k));
  }

  lemma PendingWaits(w: World, s: Snapshot, ds: seq<Decl>, k: Key)
    requires Tracks(w, s, ds) && Pending(s.cur, CurEnv(s), k)
    ensures WaitsFor(w, s.cur, k, OpenAfter(w, ds))
  {
  }

  /** An import at the top, whether or not the instance is one that is waited for. */
  lemma DeclaredHere(w: World, t: Snapshot, name: string, r: TRef) returns (u: Snapshot)
    requires Inv(w, t) && t.scopes == [] && |t.envs| == 1 && RefMeaning(t.envs[0].types, r).Some?
    requires RefMeaning(t.envs[0].types, r).value.0 == KInstance
    ensures StateOf(u) == T.Emit(StateOf(t), Declaration(true, name, r)) && u.scopes == [] && |u.envs| == 1
    ensures Eval(u.cur.items, []) == Some(u.envs[0]) && TypeCount(u.cur.items) == |u.envs[0].types|
    ensures u.envs[0].instances == t.envs[0].instances + [RefMeaning(t.envs[0].types, r).value.1]
  {
    hide Eval;
    hide Step;
    hide RefMeaning;
    hide ScopeOk;
    var (kind, m) := RefMeaning(t.envs[0].types, r).value;
    var env := Declared(t.envs[0], true, name, kind, m);
    assert Outers(t.envs[..0]) == [];
    DeclarationSteps(t.envs[0], true, name, r, []);
    EmittedEvaluates(t, Declaration(true, name, r), env);
    u := Emitted(t, Declaration(true, name, r), env);
    assert Eval(Level(u, 0).items, Outers(u.envs[..0])) == Some(u.envs[0]);
    assert Outers(u.envs[..0]) == [];
    CountsMatch(u.cur.items, []);
  }

  lemma SameDepth(a: Snapshot, b: Snapshot)
    requires OuterKept(a, b)
    ensures |a.scopes| == |b.scopes|
  {
  }

  lemma MergedMeans(w: World, s: Snapshot, ds: seq<Decl>, name: string, exports: seq<MergedExport>)
    returns (t: Snapshot)
    requires BodiesOk(w) && WorldOk(w) && AtTop(w, s, ds) && MergedOk(w, exports) && ViewsInOrder(w, exports)
    requires FirstViewsOk(w, exports) && Timely(w, ds, OfViews(CreatedKeys(exports)))
    ensures !(CreatedKeys(exports) !! s.cur.instanceExports.Keys) ==>
              MergedImported(w, StateOf(s), name, exports).Panics?
    ensures NoRepeat(w, ds, OfViews(CreatedKeys(exports))) ==> CreatedKeys(exports) !! s.cur.instanceExports.Keys
    ensures CreatedKeys(exports) !! s.cur.instanceExports.Keys ==>
              && MergedImported(w, StateOf(s), name, exports) == T.Done(StateOf(t), ())
              && AtTop(w, t, ds + [OfViews(CreatedKeys(exports))]) && |s.envs| == 1 && |t.envs| == 1
              && t.cur.typeDefs == s.cur.typeDefs
              && t.cur.instanceExports.Keys == s.cur.instanceExports.Keys + CreatedKeys(exports)
              && CurEnv(t).imports
                 == CurEnv(s).imports + [MNamed(name, KInstance, MInstance(MergedMeaning(w, exports)))]
  {
    hide Inv;
    hide Tracks;
    hide OuterKept;
    hide BodiesOk;
    hide MergedOk;
    hide ViewsInOrder;
    hide CreatedKeys;
    hide MergedImported;
    hide OuterSettled;
    hide OpenAfter;
    hide MergedMeaning;
    hide Registers;
    InvShape(w, s);
    TopSettled(s);
    TracksOk(w, s, ds);
    NothingOpen(w, s, ds);
    t := MergedImportMeans(w, s, name, exports);
    if NoRepeat(w, ds, OfViews(CreatedKeys(exports))) {
      ViewsDisjoint(w, s, ds, CreatedKeys(exports));
    }
    if CreatedKeys(exports) !! s.cur.instanceExports.Keys {
      SameDepth(s, t);
      TracksMerged(w, s, t, ds, CreatedKeys(exports));
    }
  }

  lemma TracksOk(w: World, s: Snapshot, ds: seq<Decl>)
    requires Tracks(w, s, ds)
    ensures DeclsOk(w, ds) && |s.envs| == |s.scopes| + 1
  {
  }

  lemma ViewsDisjoint(w: World, s: Snapshot, ds: seq<Decl>, keys: set<Key>)
    requires Tracks(w, s, ds) && NoRepeat(w, ds, OfViews(keys))
    ensures keys !! s.cur.instanceExports.Keys
  {
    hide OpenAfter;
    forall k | k in keys
      ensures k !in s.cur.instanceExports
    {
      assert Registers(w, OfViews(keys), k);
    }
  }

  lemma TracksMerged(w: World, s: Snapshot, t: Snapshot, ds: seq<Decl>, keys: set<Key>)
    requires Tracks(w, s, ds) && |t.envs| == |t.scopes| + 1
    requires t.cur.typeDefs == s.cur.typeDefs && t.cur.instanceExports.Keys == s.cur.instanceExports.Keys + keys
    requires forall k :: !Pending(t.cur, CurEnv(t), k)
    ensures Tracks(w, t, ds + [OfViews(keys)])
  {
    var now := ds + [OfViews(keys)];
    forall k | k in t.cur.instanceExports
      ensures exists i :: 0 <= i < |now| && Registers(w, now[i], k)
    {
      if k in s.cur.instanceExports {
        var i :| 0 <= i < |ds| && Registers(w, ds[i], k);
        assert Registers(w, now[i], k);
      } else {
        assert Registers(w, now[|ds|], k);
      }
    }
    forall i, c: nat, id: nat | 0 <= i < |now| && Introduces(now[i], c, id)
      ensures Key(c, id) in t.cur.typeDefs
    {
      assert Introduces(ds[i], c, id);
    }
  }

  // ----- everything that is declared is registered -----

  predicate OnChain(ts: Types, id: nat, x: nat)
    requires id < |ts|
  {
    x == id || (ts[id].Alias? && ts[id].target < id && OnChain(ts, ts[id].target, x))
  }

  /** The chain of aliases from a declared instance type leads through no type that is registered. */
  ghost predicate Direct(w: World, ds: seq<Decl>, d: Decl)
    requires DeclsOk(w, ds) && DeclOk(w, d)
  {
    d.OfEntity? && MakerOf(w, d).Some? ==>
      forall x: nat, i :: OnChain(w[d.comp], KeyOf(d.entity).value, x) && 0 <= i < |ds| ==>
        !Registers(w, ds[i], Key(d.comp, x))
  }

  /** Everything the declarations register is there, and instance types are cached only for them. */
  ghost predicate Full(w: World, s: Snapshot, ds: seq<Decl>)
    requires DeclsOk(w, ds)
  {
    && (forall i :: 0 <= i < |ds| && ds[i].OfEntity? ==> !ds[i].exported)
    && (forall i, k :: 0 <= i < |ds| && Registers(w, ds[i], k) ==> k in s.cur.instanceExports)
    && (forall k :: k in s.cur.typeDefs && NamesInstance(w, k) ==>
          exists i :: 0 <= i < |ds| && Introduces(ds[i], k.comp, k.id))
  }

  lemma {:induction false} NotFound(w: World, s: Snapshot, ds: seq<Decl>, c: nat, id: nat)
    requires WorldOk(w) && AtTop(w, s, ds) && DeclsOk(w, ds) && c < |w| && id < |w[c]|
    requires forall x: nat, i :: OnChain(w[c], id, x) && 0 <= i < |ds| ==> !Registers(w, ds[i], Key(c, x))
    ensures !FoundOnChain(w, StateOf(s), c, id)
    decreases id
  {
    hide Inv;
    hide Registers;
    hide OpenAfter;
    assert DefOk(w[c], id);
    assert OnChain(w[c], id, id);
    if w[c][id].Alias? {
      forall x: nat, i | OnChain(w[c], w[c][id].target, x) && 0 <= i < |ds|
        ensures !Registers(w, ds[i], Key(c, x))
      {
        assert OnChain(w[c], id, x);
      }
      NotFound(w, s, ds, c, w[c][id].target);
    }
  }

  lemma ItemFull(w: World, s: Snapshot, t: Snapshot, ds: seq<Decl>, d: Decl)
    requires WorldOk(w) && AtTop(w, s, ds) && DeclsOk(w, ds) && DeclOk(w, d) && d.OfEntity? && !d.exported
    requires Full(w, s, ds) && Direct(w, ds, d) && Advanced(w, s, t, d.comp, d.entity)
    requires Added(w, s.cur, t.cur, d.comp, Touched(d.entity), KeySet(d.entity))
    requires Complete(w, s, t, d.comp, d.entity, |w[d.comp]|)
    ensures Full(w, t, ds + [d])
  {
    hide AtTop;
    hide FoundOnChain;
    var now := ds + [d];
    forall i, k | 0 <= i < |now| && Registers(w, now[i], k)
      ensures k in t.cur.instanceExports
    {
      if i < |ds| {
        assert Registers(w, ds[i], k);
      } else {
        NewRegistered(w, s, t, ds, d, k);
      }
    }
    forall k | k in t.cur.typeDefs && NamesInstance(w, k)
      ensures exists i :: 0 <= i < |now| && Introduces(now[i], k.comp, k.id)
    {
      if k in s.cur.typeDefs {
        var i :| 0 <= i < |ds| && Introduces(ds[i], k.comp, k.id);
        assert Introduces(now[i], k.comp, k.id);
      } else {
        assert Introduces(now[|ds|], k.comp, k.id);
      }
    }
  }

  lemma NewRegistered(w: World, s: Snapshot, t: Snapshot, ds: seq<Decl>, d: Decl, k: Key)
    requires WorldOk(w) && AtTop(w, s, ds) && DeclsOk(w, ds) && DeclOk(w, d) && d.OfEntity? && !d.exported
    requires Full(w, s, ds) && Direct(w, ds, d) && Advanced(w, s, t, d.comp, d.entity)
    requires Complete(w, s, t, d.comp, d.entity, |w[d.comp]|) && Registers(w, d, k)
    ensures k in t.cur.instanceExports
  {
    hide AtTop;
    hide FoundOnChain;
    hide Added;
    var c, id := d.comp, KeyOf(d.entity).value;
    NotFound(w, s, ds, c, id);
    if Key(c, id) in s.cur.typeDefs {
      assert NamesInstance(w, Key(c, id));
      var i :| 0 <= i < |ds| && Introduces(ds[i], c, id);
      assert Registers(w, ds[i], k);
    } else {
      assert k == Key(c, k.id);
    }
  }

  lemma MergedFull(w: World, s: Snapshot, t: Snapshot, ds: seq<Decl>, keys: set<Key>)
    requires DeclsOk(w, ds) && Full(w, s, ds) && t.cur.typeDefs == s.cur.typeDefs
    requires t.cur.instanceExports.Keys == s.cur.instanceExports.Keys + keys
    ensures Full(w, t, ds + [OfViews(keys)])
  {
    var now := ds + [OfViews(keys)];
    forall i, k | 0 <= i < |now| && Registers(w, now[i], k)
      ensures k in t.cur.instanceExports
    {
      if i < |ds| {
        assert Registers(w, ds[i], k);
      }
    }
    forall k | k in t.cur.typeDefs && NamesInstance(w, k)
      ensures exists i :: 0 <= i < |now| && Introduces(now[i], k.comp, k.id)
    {
      var i :| 0 <= i < |ds| && Introduces(ds[i], k.comp, k.id);
      assert Introduces(now[i], k.comp, k.id);
    }
  }

  /** An item that registers again what is registered cannot be imported. */
  lemma ItemPanics(w: World, s: Snapshot, ds: seq<Decl>, name: string, c: nat, e: Entity)
    requires BodiesOk(w) && WorldOk(w) && AtTop(w, s, ds) && DeclsOk(w, ds) && c < |w| && EntityOk(w[c], e, |w[c]|)
    requires DeclOk(w, OfEntity(c, e, false)) && Full(w, s, ds) && Direct(w, ds, OfEntity(c, e, false))
    requires Timely(w, ds, OfEntity(c, e, false)) && !NoRepeat(w, ds, OfEntity(c, e, false))
    ensures T.ImportInto(w, StateOf(s), c, name, e, |w[c]|).Panics?
  {
    hide Inv;
    hide Tracks;
    hide BodiesOk;
    hide FoundOnChain;
    hide OpenAfter;
    hide T.Ty;
    hide Touches;
    hide OuterSettled;
    var d := OfEntity(c, e, false);
    var i, k :| 0 <= i < |ds| && Registers(w, ds[i], k) && Registers(w, d, k);
    var id := KeyOf(e).value;
    InvShape(w, s);
    assert NamesInstance(w, Key(c, id)) && !Known(ds, d);
    assert Key(c, id) !in s.cur.typeDefs;
    NotFound(w, s, ds, c, id);
    assert k == Key(c, k.id) && k in s.cur.instanceExports;
    NothingOpen(w, s, ds);
    TopSettled(s);
    SettledClear(w, s, c, id);
    TyPanics(w, s, c, id);
  }

  // ----- all imports -----

  /** No declared instance type is reached through a type that another declaration registers. */
  ghost predicate AllDirect(w: World, ds: seq<Decl>) {
    DeclsOk(w, ds) && forall j :: 0 <= j < |ds| ==> Direct(w, ds[..j], ds[j])
  }

  /** The first `n` imports mean what the components expect. */
  lemma {:induction false} ImportsMean(w: World, entries: seq<ImportEntry>, n: nat) returns (t: Snapshot)
    requires WorldOk(w) && EntriesOk(w, entries) && InOrderAll(w, entries) && n <= |entries|
    requires forall j :: 0 <= j < n ==> NoRepeat(w, EntryDecls(entries)[..j], EntryDecls(entries)[j])
    ensures AllImported(w, Start, entries[..n]) == T.Done(StateOf(t), ())
    ensures AtTop(w, t, EntryDecls(entries)[..n]) && |t.envs| == 1 && |CurEnv(t).imports| == n
    ensures AllDirect(w, EntryDecls(entries)) ==> Full(w, t, EntryDecls(entries)[..n])
    ensures forall j :: 0 <= j < n ==> CurEnv(t).imports[j] == EntryMeaning(w, entries[j])
    decreases n
  {
    hide AtTop;
    hide BodiesOk;
    hide EntryOk;
    hide EntryMeaning;
    hide Imported;
    hide Full;
    hide NoRepeat;
    hide AllDirect;
    hide InOrderAll;
    hide EntryDecls;
    EntryDeclsOk(w, entries);
    if n == 0 {
      StartsAtTop(w);
      t := Snapshot([], NewScope(Builder), [EmptyEnv]);
      NothingFull(w, t);
      assert EntryDecls(entries)[..0] == [];
    } else {
      var s := ImportsMean(w, entries, n - 1);
      ImportNext(w, entries, n - 1, StateOf(s));
      t := EntryMeans(w, s, entries, n - 1);
    }
  }

  lemma ImportNext(w: World, entries: seq<ImportEntry>, n: nat, st: T.TState)
    requires WorldOk(w) && EntriesOk(w, entries) && n < |entries| && EntriesOk(w, entries[..n])
    requires AllImported(w, Start, entries[..n]) == T.Done(st, ())
    ensures EntriesOk(w, entries[..n + 1]) && EntryOk(w, entries[n])
    ensures AllImported(w, Start, entries[..n + 1]) == Imported(w, st, entries[n])
  {
    hide EntryOk;
    hide Imported;
    assert entries[..n + 1][..n] == entries[..n];
  }

  lemma NothingFull(w: World, s: Snapshot)
    requires s.cur.typeDefs == map[]
    ensures Full(w, s, [])
  {
  }

  lemma EntryMeans(w: World, s: Snapshot, entries: seq<ImportEntry>, j: nat) returns (t: Snapshot)
    requires WorldOk(w) && EntriesOk(w, entries) && InOrderAll(w, entries) && j < |entries|
    requires AtTop(w, s, EntryDecls(entries)[..j]) && |s.envs| == 1
    requires NoRepeat(w, EntryDecls(entries)[..j], EntryDecls(entries)[j])
    ensures Imported(w, StateOf(s), entries[j]) == T.Done(StateOf(t), ())
    ensures AtTop(w, t, EntryDecls(entries)[..j + 1]) && |t.envs| == 1
    ensures AllDirect(w, EntryDecls(entries)) && Full(w, s, EntryDecls(entries)[..j]) ==>
              Full(w, t, EntryDecls(entries)[..j + 1])
    ensures CurEnv(t).imports == CurEnv(s).imports + [EntryMeaning(w, entries[j])]
  {
    hide AtTop;
    hide BodiesOk;
    hide UnfoldEntity;
    hide EntityOk;
    hide Timely;
    hide NoRepeat;
    hide MergedOk;
    hide ViewsInOrder;
    hide MergedImported;
    hide MergedMeaning;
    hide Advanced;
    hide Complete;
    hide Full;
    hide Direct;
    hide Added;
    hide T.ImportInto;
    var ds := EntryDecls(entries);
    assert ds[..j + 1] == ds[..j] + [ds[j]];
    assert EntryOk(w, entries[j]);
    match entries[j] {
      case ItemImport(name, comp, entity) =>
        t := ItemMeans(w, s, ds[..j], name, comp, entity);
        if AllDirect(w, ds) && Full(w, s, ds[..j]) {
          ItemFull(w, s, t, ds[..j], ds[j]);
        }
      case InstanceImport(name, exports) =>
        FirstsOk(w, exports);
        t := MergedMeans(w, s, ds[..j], name, exports);
        if Full(w, s, ds[..j]) {
          MergedFull(w, s, t, ds[..j], CreatedKeys(exports));
        }
    }
  }

  lemma EntryPanics(w: World, s: Snapshot, entries: seq<ImportEntry>, j: nat)
    requires WorldOk(w) && EntriesOk(w, entries) && InOrderAll(w, entries) && j < |entries|
    requires AtTop(w, s, EntryDecls(entries)[..j]) && AllDirect(w, EntryDecls(entries))
    requires Full(w, s, EntryDecls(entries)[..j])
    requires !NoRepeat(w, EntryDecls(entries)[..j], EntryDecls(entries)[j])
    ensures Imported(w, StateOf(s), entries[j]).Panics?
  {
    hide AtTop;
    hide BodiesOk;
    hide EntityOk;
    hide Timely;
    hide MergedOk;
    hide ViewsInOrder;
    hide MergedImported;
    hide Direct;
    hide T.ImportInto;
    var ds := EntryDecls(entries);
    assert EntryOk(w, entries[j]);
    match entries[j] {
      case ItemImport(name, comp, entity) =>
        ItemPanics(w, s, ds[..j], name, comp, entity);
      case InstanceImport(name, exports) =>
        FirstsOk(w, exports);
        var t := MergedMeans(w, s, ds[..j], name, exports);
        var i, k :| 0 <= i < j && Registers(w, ds[..j][i], k) && Registers(w, ds[j], k);
        assert k in s.cur.instanceExports.Keys && k in CreatedKeys(exports);
    }
  }

  lemma {:induction false} AllImportedPanic(w: World, st: T.TState, entries: seq<ImportEntry>, j: nat)
    requires WorldOk(w) && EntriesOk(w, entries) && j <= |entries| && AllImported(w, st, entries[..j]).Panics?
    ensures AllImported(w, st, entries).Panics?
    decreases |entries| - j
  {
    if j < |entries| {
      assert entries[..j + 1][..j] == entries[..j];
      AllImportedPanic(w, st, entries, j + 1);
    } else {
      assert entries[..j] == entries;
    }
  }

  /** If imports clash an assertion of the translation fails. */
  lemma {:induction false} ClashPanics(w: World, entries: seq<ImportEntry>, n: nat)
    requires WorldOk(w) && EntriesOk(w, entries) && InOrderAll(w, entries) && AllDirect(w, EntryDecls(entries))
    requires !NoClash(w, entries) && n <= |entries|
    requires forall j :: 0 <= j < n ==> NoRepeat(w, EntryDecls(entries)[..j], EntryDecls(entries)[j])
    ensures AllImported(w, Start, entries).Panics?
    decreases |entries| - n
  {
    hide BodiesOk;
    hide EntryOk;
    hide NoRepeat;
    hide Imported;
    hide AtTop;
    hide Full;
    hide AllDirect;
    hide EntryMeaning;
    hide InOrderAll;
    hide EntryDecls;
    hide AllImported;
    var ds := EntryDecls(entries);
    EntryDeclsOk(w, entries);
    assert n < |entries|;
    if NoRepeat(w, ds[..n], ds[n]) {
      ClashPanics(w, entries, n + 1);
    } else {
      var s := ImportsMean(w, entries, n);
      EntryPanics(w, s, entries, n);
      ImportNext(w, entries, n, StateOf(s));
      AllImportedPanic(w, Start, entries, n + 1);
    }
  }

  lemma TopEvaluates(w: World, s: Snapshot)
    requires Inv(w, s) && s.scopes == []
    ensures |s.envs| == 1 && Eval(s.cur.items, []) == Some(s.envs[0])
  {
    hide Eval;
    assert Eval(Level(s, 0).items, Outers(s.envs[..0])) == Some(s.envs[0]);
    assert Outers(s.envs[..0]) == [];
  }

  /** The items that were emitted are the imports that the components expect, in order. */
  ghost predicate MeansImports(w: World, items: seq<Item>, entries: seq<ImportEntry>)
    requires EntriesOk(w, entries)
  {
    && Eval(items, []).Some? && |Eval(items, []).value.imports| == |entries|
    && forall j :: 0 <= j < |entries| ==> Eval(items, []).value.imports[j] == EntryMeaning(w, entries[j])
  }

  /** The whole translation, where the order is right. */
  lemma TranslationMeans(w: World, entries: seq<ImportEntry>)
    requires WorldOk(w) && EntriesOk(w, entries) && InOrderAll(w, entries)
    ensures NoClash(w, entries) ==>
              && AllImported(w, Start, entries).Done?
              && MeansImports(w, AllImported(w, Start, entries).st.cur.items, entries)
    ensures AllDirect(w, EntryDecls(entries)) ==> (NoClash(w, entries) <==> AllImported(w, Start, entries).Done?)
  {
    hide BodiesOk;
    hide EntryOk;
    hide NoRepeat;
    hide Inv;
    hide Full;
    hide Eval;
    hide AllImported;
    hide AllDirect;
    hide EntryMeaning;
    if NoClash(w, entries) {
      var t := ImportsMean(w, entries, |entries|);
      assert entries[..|entries|] == entries;
      TopEvaluates(w, t);
    } else if AllDirect(w, EntryDecls(entries)) {
      ClashPanics(w, entries, 0);
    }
  }

  /**
   All imports of the composed component. Where types are registered at the right instance they
   mean what the components expect, in order; an assertion of the translation then fails only if
   imports clash, and if they do unless a type is reached through what another import registers.
   */
  method TranslateImports(w: World, entries: seq<ImportEntry>) returns (r: Option<seq<Item>>)
    requires WorldOk(w) && EntriesOk(w, entries)
    ensures r == if AllImported(w, Start, entries).Panics? then None
                 else Some(AllImported(w, Start, entries).st.cur.items)
    ensures InOrderAll(w, entries) && NoClash(w, entries) ==> r.Some? && MeansImports(w, r.value, entries)
    ensures InOrderAll(w, entries) && AllDirect(w, EntryDecls(entries)) ==> (r.Some? <==> NoClash(w, entries))
  {
    hide BodiesOk;
    hide EntryOk;
    hide NoClash;
    hide InOrderAll;
    hide MeansImports;
    hide AllDirect;
    hide Imported;
    if InOrderAll(w, entries) {
      TranslationMeans(w, entries);
    }
    var st := new TypeState(w);
    for j: nat := 0 to |entries|
      invariant st.w == w && fresh(st) && AllImported(w, Start, entries[..j]) == T.Done(st.State(), ())
    {
      assert entries[..j + 1][..j] == entries[..j];
      var done := EncodeImport(st, entries[j]);
      if done.None? {
        AllImportedPanic(w, Start, entries, j + 1);
        return None;
      }
      assert done.value == ();
    }
    assert entries[..|entries|] == entries;
    return Some(st.cur.items);
  }

  method EncodeImport(st: TypeState, e: ImportEntry) returns (r: Option<()>)
    requires WorldOk(st.w) && EntryOk(st.w, e)
    modifies st
    ensures Matches(r, st.State(), Imported(st.w, old(st.State()), e))
  {
    hide MergedImported;
    hide T.ImportInto;
    match e {
      case ItemImport(name, comp, entity) =>
        r := EncodeItemImport(st, name, comp, entity);
      case InstanceImport(name, exports) =>
        FirstsOk(st.w, exports);
        r := EncodeInstanceImport(st, name, exports);
    }
  }

  // ----- worlds without names for instance types -----

  lemma EntryDeclsOk(w: World, entries: seq<ImportEntry>)
    requires WorldOk(w) && EntriesOk(w, entries)
    ensures DeclsOk(w, EntryDecls(entries))
  {
    hide EntityOk;
    hide MergedOk;
    forall j | 0 <= j < |entries|
      ensures DeclOk(w, EntryDecl(entries[j]))
    {
      assert EntryOk(w, entries[j]);
    }
  }

  lemma NoNamesViews(w: World, exports: seq<MergedExport>)
    requires WorldOk(w) && NoNames(w) && MergedOk(w, exports)
    ensures ViewsInOrder(w, exports)
  {
    hide NoNames;
    forall j | 0 <= j < |exports|
      ensures MergedExportOk(w, exports[j]) && ViewOk(w, exports[j].views[0])
    {
      assert MergedExportOk(w, exports[j]);
    }
    var ds := FirstViews(exports);
    NoNamesOrderly(w, ds);
    forall j | 0 <= j < |ds|
      ensures NoRepeat(w, ds[..j], ds[j])
    {
      NoNamesNoRepeat(w, ds[..j], ds[j]);
    }
  }

  /** Types that imports register are names, so no instance type is found among them. */
  lemma NoNamesDirect(w: World, entries: seq<ImportEntry>, j: nat)
    requires WorldOk(w) && NoNames(w) && EntriesOk(w, entries) && j < |entries| && DeclsOk(w, EntryDecls(entries))
    ensures Direct(w, EntryDecls(entries)[..j], EntryDecls(entries)[j])
  {
    hide NoNames;
    var ds, d := EntryDecls(entries), EntryDecls(entries)[j];
    if d.OfEntity? && MakerOf(w, d).Some? {
      NoNamesMaker(w, d);
      var id := d.entity.id;
      forall x: nat, i | OnChain(w[d.comp], id, x) && 0 <= i < j
        ensures !Registers(w, ds[..j][i], Key(d.comp, x))
      {
        assert x == id && w[d.comp][id].Instance?;
        NotRegisteredItself(w, entries[i], Key(d.comp, id));
      }
    }
  }

  lemma NotRegisteredItself(w: World, e: ImportEntry, k: Key)
    requires WorldOk(w) && EntryOk(w, e) && InWorld(w, k) && w[k.comp][k.id].Instance? && DeclOk(w, EntryDecl(e))
    ensures !Registers(w, EntryDecl(e), k)
  {
    match e
    case ItemImport(_, comp, entity) =>
      if Registers(w, EntryDecl(e), k) {
        var maker := MakerOf(w, EntryDecl(e)).value.id;
        InstanceFacts(w[comp], maker);
      }
    case InstanceImport(_, exports) =>
      forall j, a | 0 <= j < |exports| && 0 <= a < |exports[j].views| && exports[j].views[a].entity.TypeE?
        ensures k != Key(exports[j].views[a].comp, exports[j].views[a].entity.created)
      {
        assert MergedExportOk(w, exports[j]);
        assert ViewOk(w, exports[j].views[a]);
      }
  }

  /** If no name stands for an instance type that exports types, the order of imports does not matter. */
  lemma NoNamesInOrder(w: World, entries: seq<ImportEntry>)
    requires WorldOk(w) && NoNames(w) && EntriesOk(w, entries)
    ensures InOrderAll(w, entries) && AllDirect(w, EntryDecls(entries))
  {
    hide NoNames;
    hide Direct;
    EntryDeclsOk(w, entries);
    NoNamesBodiesOk(w);
    NoNamesOrderly(w, EntryDecls(entries));
    forall j | 0 <= j < |entries|
      ensures entries[j].InstanceImport? ==> EntryOk(w, entries[j]) && ViewsInOrder(w, entries[j].exports)
      ensures Direct(w, EntryDecls(entries)[..j], EntryDecls(entries)[j])
    {
      assert EntryOk(w, entries[j]);
      if entries[j].InstanceImport? {
        NoNamesViews(w, entries[j].exports);
      }
      NoNamesDirect(w, entries, j);
    }
  }
}
