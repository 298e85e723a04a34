/**
 When the types that instances export are registered at the right instance. Leaving the body of
 an instance type registers the types it exports for the instance that is declared next in the
 scope around it. If the instance type was only named, by exporting or importing a type, that
 need not be an instance of it.
 */
module TypeOrder {
  import opened Common
  import opened ComponentTypes
  import opened TypeScopes

  /** What is declared in a scope: an entity of a component, or an instance merged from views. */
  datatype Decl =
    | OfEntity(comp: nat, entity: Entity, exported: bool)
    | OfViews(keys: set<Key>)

  ghost predicate DeclOk(w: World, d: Decl) {
    d.OfEntity? ==>
      d.comp < |w| && TypesOk(w[d.comp]) && EntityOk(w[d.comp], d.entity, |w[d.comp]|)
  }

  ghost predicate DeclsOk(w: World, ds: seq<Decl>) {
    forall i :: 0 <= i < |ds| ==> DeclOk(w, ds[i])
  }

  ghost predicate Creating(ts: Types, id: nat) {
    exists x: nat :: Creates(ts, id, x)
  }

  /** The instance type that the declaration names, if it exports types. */
  ghost function MakerOf(w: World, d: Decl): Option<Key>
    requires DeclOk(w, d)
  {
    if d.OfEntity? && KeyOf(d.entity).Some? && Creating(w[d.comp], Peel(w[d.comp], KeyOf(d.entity).value))
    then Some(Key(d.comp, Peel(w[d.comp], KeyOf(d.entity).value)))
    else None
  }

  /** The type becomes available with the declaration. */
  ghost predicate Registers(w: World, d: Decl, k: Key)
    requires DeclOk(w, d)
  {
    if d.OfViews? then k in d.keys
    else MakerOf(w, d).Some? && k.comp == d.comp && Creates(w[d.comp], MakerOf(w, d).value.id, k.id)
  }

  /** The type that the entity names was translated for an earlier declaration. */
  ghost predicate Known(ds: seq<Decl>, d: Decl) {
    && d.OfEntity? && KeyOf(d.entity).Some?
    && exists i :: 0 <= i < |ds| && Introduces(ds[i], d.comp, KeyOf(d.entity).value)
  }

  predicate Introduces(d: Decl, comp: nat, id: nat) {
    && d.OfEntity? && d.comp == comp
    && (KeyOf(d.entity) == Some(id) || (d.exported && d.entity.TypeE? && d.entity.created == id))
  }

  /** What a new instance type exports is not registered twice. */
  ghost predicate NoRepeat(w: World, ds: seq<Decl>, d: Decl)
    requires DeclsOk(w, ds) && DeclOk(w, d)
  {
    Known(ds, d) || forall i, k :: 0 <= i < |ds| && Registers(w, ds[i], k) ==> !Registers(w, d, k)
  }

  /** The instance type that has been named and of which no instance has been made since. */
  ghost function OpenAfter(w: World, ds: seq<Decl>): Option<Key>
    requires DeclsOk(w, ds)
  {
    if ds == [] then None
    else
      var init, last := ds[..|ds| - 1], ds[|ds| - 1];
      if last.OfViews? || last.entity.InstanceE? then None
      else if MakerOf(w, last).Some? && !Known(init, last) then MakerOf(w, last)
      else OpenAfter(w, init)
  }

  /** The declaration refers to none of the types that the instance type creates. */
  ghost predicate Avoids(w: World, d: Decl, open: Key)
    requires DeclOk(w, d)
  {
    d.OfEntity? && d.comp == open.comp && KeyOf(d.entity).Some? ==>
      forall x: nat :: Creates(w[d.comp], open.id, x) ==> !Touches(w[d.comp], KeyOf(d.entity).value, x)
  }

  /**
   While an instance type is named and not made, the next instance declared is one of it; what
   else is declared before that names no other such type and refers to none that it creates.
   */
  ghost predicate Timely(w: World, ds: seq<Decl>, d: Decl)
    requires DeclsOk(w, ds) && DeclOk(w, d)
  {
    OpenAfter(w, ds).Some? ==>
      && d.OfEntity?
      && if Known(ds, d) then d.entity.InstanceE? ==> MakerOf(w, d) == OpenAfter(w, ds)
         else !d.entity.InstanceE? && MakerOf(w, d).None? && Avoids(w, d, OpenAfter(w, ds).value)
  }

  ghost predicate Orderly(w: World, ds: seq<Decl>) {
    DeclsOk(w, ds) && forall j :: 0 <= j < |ds| ==> Timely(w, ds[..j], ds[j])
  }

  ghost predicate NoRepeats(w: World, ds: seq<Decl>) {
    DeclsOk(w, ds) && forall j :: 0 <= j < |ds| ==> NoRepeat(w, ds[..j], ds[j])
  }

  function DeclsOf(c: nat, ns: seq<Named>, exported: bool): (ds: seq<Decl>)
    ensures |ds| == |ns| && forall i :: 0 <= i < |ns| ==> ds[i] == OfEntity(c, ns[i].entity, exported)
  {
    seq(|ns|, i requires 0 <= i < |ns| => OfEntity(c, ns[i].entity, exported))
  }

  /** What is declared in the body of a type. */
  function BodyDecls(c: nat, def: Def): seq<Decl> {
    match def
    case Instance(exports) => DeclsOf(c, exports, true)
    case Component(imports, exports) => DeclsOf(c, imports, false) + DeclsOf(c, exports, true)
    case _ => []
  }

  /** In every body the types are registered at the right instance, and once. */
  ghost predicate BodiesOk(w: World) {
    && WorldOk(w)
    && forall c: nat, id: nat :: c < |w| && id < |w[c]| ==>
         Orderly(w, BodyDecls(c, w[c][id])) && NoRepeats(w, BodyDecls(c, w[c][id]))
  }

  lemma EntityOkLater(ts: Types, e: Entity, bound: nat)
    requires EntityOk(ts, e, bound)
    ensures EntityOk(ts, e, |ts|)
  {
  }

  // ----- worlds without names for such types -----

  /** No type name, in any component, stands for an instance type that exports types. */
  ghost predicate NoNames(w: World) {
    forall c: nat, id: nat :: c < |w| && id < |w[c]| && w[c][id].Alias? ==> !Creating(w[c], Peel(w[c], id))
  }

  /** Then only instances register types, and each is declared by its own type. */
  lemma NoNamesMaker(w: World, d: Decl)
    requires WorldOk(w) && NoNames(w) && DeclOk(w, d) && MakerOf(w, d).Some?
    ensures d.OfEntity? && d.entity.InstanceE? && MakerOf(w, d) == Some(Key(d.comp, d.entity.id))
  {
    var ts, e := w[d.comp], d.entity;
    var id := KeyOf(e).value;
    var end := Peel(ts, id);
    assert ts[end].Instance?;
    assert e.TypeE? ==> Peel(ts, e.created) == end;
    assert !e.TypeE? && !ts[id].Alias?;
  }

  lemma {:induction false} NoNamesOpen(w: World, ds: seq<Decl>)
    requires WorldOk(w) && NoNames(w) && DeclsOk(w, ds)
    ensures OpenAfter(w, ds) == None
  {
    if ds != [] {
      var init, last := ds[..|ds| - 1], ds[|ds| - 1];
      NoNamesOpen(w, init);
      if MakerOf(w, last).Some? {
        NoNamesMaker(w, last);
      }
    }
  }

  lemma NoNamesOrderly(w: World, ds: seq<Decl>)
    requires WorldOk(w) && NoNames(w) && DeclsOk(w, ds)
    ensures Orderly(w, ds)
  {
    hide OpenAfter;
    forall j | 0 <= j < |ds|
      ensures Timely(w, ds[..j], ds[j])
    {
      NoNamesOpen(w, ds[..j]);
    }
  }

  /** Two entities that register the same type name the same instance type, by the same type. */
  lemma NoNamesNoRepeat(w: World, ds: seq<Decl>, d: Decl)
    requires WorldOk(w) && NoNames(w) && DeclsOk(w, ds) && DeclOk(w, d) && d.OfEntity?
    requires forall i :: 0 <= i < |ds| ==> ds[i].OfEntity?
    ensures NoRepeat(w, ds, d)
  {
    forall i, k | 0 <= i < |ds| && Registers(w, ds[i], k) && Registers(w, d, k)
      ensures Known(ds, d)
    {
      NoNamesMaker(w, ds[i]);
      NoNamesMaker(w, d);
      assert TypesOk(w[d.comp]);
      assert Introduces(ds[i], d.comp, d.entity.id);
    }
  }

  lemma DeclsOfOk(w: World, c: nat, ns: seq<Named>, bound: nat, exported: bool)
    requires c < |w| && TypesOk(w[c]) && NamedOk(w[c], ns, bound)
    ensures DeclsOk(w, DeclsOf(c, ns, exported))
  {
    hide EntityOk;
    forall i | 0 <= i < |ns|
      ensures EntityOk(w[c], ns[i].entity, |w[c]|)
    {
      EntityOkLater(w[c], ns[i].entity, bound);
    }
  }

  lemma BodyDeclsOk(w: World, c: nat, id: nat)
    requires WorldOk(w) && c < |w| && id < |w[c]|
    ensures var ds := BodyDecls(c, w[c][id]);
            DeclsOk(w, ds) && forall i :: 0 <= i < |ds| ==> ds[i].OfEntity?
  {
    hide DeclOk;
    assert DefOk(w[c], id);
    match w[c][id]
    case Instance(exports) =>
      DeclsOfOk(w, c, exports, id, true);
    case Component(imports, exports) =>
      DeclsOfOk(w, c, imports, id, false);
      DeclsOfOk(w, c, exports, id, true);
    case _ =>
  }

  /** In such worlds the order of declarations does not matter. */
  lemma NoNamesBodiesOk(w: World)
    requires WorldOk(w) && NoNames(w)
    ensures BodiesOk(w)
  {
    hide NoNames;
    hide BodyDecls;
    forall c: nat, id: nat | c < |w| && id < |w[c]|
      ensures Orderly(w, BodyDecls(c, w[c][id])) && NoRepeats(w, BodyDecls(c, w[c][id]))
    {
      var ds := BodyDecls(c, w[c][id]);
      BodyDeclsOk(w, c, id);
      NoNamesOrderly(w, ds);
      forall j | 0 <= j < |ds|
        ensures NoRepeat(w, ds[..j], ds[j])
      {
        NoNamesNoRepeat(w, ds[..j], ds[j]);
      }
    }
  }

  // ----- named and made at once -----

  lemma OrderAppend(w: World, ds: seq<Decl>, d: Decl)
    requires Orderly(w, ds) && NoRepeats(w, ds) && DeclOk(w, d) && Timely(w, ds, d) && NoRepeat(w, ds, d)
    ensures Orderly(w, ds + [d]) && NoRepeats(w, ds + [d])
  {
    hide Timely;
    hide NoRepeat;
    var now := ds + [d];
    forall j | 0 <= j < |now|
      ensures Timely(w, now[..j], now[j]) && NoRepeat(w, now[..j], now[j])
    {
      assert now[..j] == ds[..j];
      assert ds[..|ds|] == ds;
    }
  }

  /** Naming an instance type and then declaring an instance of it is in order, and leaves nothing open. */
  lemma NamedThenMade(w: World, ds: seq<Decl>, c: nat, created: nat, id: nat, exported: bool)
    requires Orderly(w, ds) && NoRepeats(w, ds) && OpenAfter(w, ds).None?
    requires DeclOk(w, OfEntity(c, TypeE(created, id), exported)) && DeclOk(w, OfEntity(c, InstanceE(id), exported))
    requires NoRepeat(w, ds, OfEntity(c, TypeE(created, id), exported))
    ensures var both := ds + [OfEntity(c, TypeE(created, id), exported)] + [OfEntity(c, InstanceE(id), exported)];
            Orderly(w, both) && NoRepeats(w, both) && OpenAfter(w, both) == None
  {
    var name, made := OfEntity(c, TypeE(created, id), exported), OfEntity(c, InstanceE(id), exported);
    var named := ds + [name];
    var both := named + [made];
    OrderAppend(w, ds, name);
    assert named[..|ds|] == ds && both[..|named|] == named;
    assert Introduces(named[|ds|], c, id);
    assert Known(named, made) && MakerOf(w, made) == MakerOf(w, name);
    OrderAppend(w, named, made);
  }

  // ----- named twice -----

  /** A named instance type of which no instance is declared stays open. */
  lemma {:induction false} StaysOpen(w: World, ds: seq<Decl>, maker: Key, i: nat, n: nat)
    requires Orderly(w, ds) && i < n <= |ds| && ds[i].OfEntity? && MakerOf(w, ds[i]) == Some(maker)
    requires forall m :: 0 <= m < |ds| && ds[m].OfEntity? ==>
               !ds[m].exported && (ds[m].entity.InstanceE? ==> MakerOf(w, ds[m]) != Some(maker))
    ensures OpenAfter(w, ds[..n]) == Some(maker)
    decreases n
  {
    hide Introduces;
    hide Avoids;
    hide MakerOf;
    hide DeclOk;
    assert ds[..n][..n - 1] == ds[..n - 1];
    assert Timely(w, ds[..n - 1], ds[n - 1]);
    if i < n - 1 {
      StaysOpen(w, ds, maker, i, n - 1);
    } else if Known(ds[..i], ds[i]) {
      var m :| 0 <= m < i && Introduces(ds[..i][m], ds[i].comp, KeyOf(ds[i].entity).value);
      SameMaker(w, ds[m], ds[i]);
      StaysOpen(w, ds, maker, m, n - 1);
    }
  }

  lemma SameMaker(w: World, a: Decl, b: Decl)
    requires DeclOk(w, a) && DeclOk(w, b) && b.OfEntity? && KeyOf(b.entity).Some? && !(a.OfEntity? && a.exported)
    requires Introduces(a, b.comp, KeyOf(b.entity).value)
    ensures a.OfEntity? && MakerOf(w, a) == MakerOf(w, b)
  {
  }

  /** So in order it can be named again only by the same type. */
  lemma NamedAgain(w: World, ds: seq<Decl>, maker: Key, i: nat, j: nat)
    requires Orderly(w, ds) && i < j < |ds| && ds[i].OfEntity? && MakerOf(w, ds[i]) == Some(maker)
    requires MakerOf(w, ds[j]).Some?
    requires forall m :: 0 <= m < |ds| && ds[m].OfEntity? ==>
               !ds[m].exported && (ds[m].entity.InstanceE? ==> MakerOf(w, ds[m]) != Some(maker))
    ensures Known(ds[..j], ds[j])
  {
    hide OpenAfter;
    hide Known;
    hide MakerOf;
    StaysOpen(w, ds, maker, i, j);
    assert Timely(w, ds[..j], ds[j]);
  }
}
