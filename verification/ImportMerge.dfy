/**
 wasm-compose's merging of imports: imports of one name by several components become one import,
 and for instances the union of what the components expect of it.
 */
module ImportMerge {
  import opened Common
  import opened ComponentTypes
  import opened TypeScopes
  import opened TypeOrder
  import opened TypeMeaning
  import opened TypeImports
  import TypeReuse

  /** Whether two views can be of the same thing, as the code's subtype test in both directions. */
  type Compatible = (View, View) -> bool

  /** Compatible views mean the same. */
  ghost predicate Faithful(w: World, compatible: Compatible) {
    forall u, v :: ViewOk(w, u) && ViewOk(w, v) && compatible(u, v) ==> ViewMeaning(w, u) == ViewMeaning(w, v)
  }

  function IndexOf(xs: seq<MergedExport>, name: string): (r: Option<nat>)
    ensures r.Some? ==> r.value < |xs| && xs[r.value].name == name
    ensures r.None? ==> forall j :: 0 <= j < |xs| ==> xs[j].name != name
  {
    if xs == [] then None
    else if xs[0].name == name then Some(0)
    else
      var rest := IndexOf(xs[1..], name);
      if rest.Some? then Some(rest.value + 1) else None
  }

  /** One more component's view of an export; `None` is a conflict. */
  function AddView(compatible: Compatible, xs: seq<MergedExport>, name: string, v: View): Option<seq<MergedExport>> {
    match IndexOf(xs, name)
    case None => Some(xs + [MergedExport(name, [v])])
    case Some(j) =>
      if forall u :: u in xs[j].views ==> compatible(u, v)
      then Some(xs[j := MergedExport(name, xs[j].views + [v])])
      else None
  }

  function AddViews(compatible: Compatible, xs: seq<MergedExport>, c: nat, ns: seq<Named>): Option<seq<MergedExport>> {
    if ns == [] then Some(xs)
    else
      var n := |ns| - 1;
      match AddViews(compatible, xs, c, ns[..n])
      case None => None
      case Some(ys) => AddView(compatible, ys, ns[n].name, View(c, ns[n].entity))
  }

  // ----- what a merged instance is made of -----

  /** For each component the exports it contributed. */
  type Parts = map<nat, seq<Named>>

  ghost predicate PartsFit(w: World, parts: Parts) {
    forall c :: c in parts ==> c < |w| && TypesOk(w[c]) && NamedOk(w[c], parts[c], |w[c]|) && Created([], parts[c])
  }

  ghost predicate At(xs: seq<MergedExport>, j: int, a: int) {
    0 <= j < |xs| && 0 <= a < |xs[j].views|
  }

  function NamedAt(xs: seq<MergedExport>, j: int, a: int): Named
    requires 0 <= j < |xs| && 0 <= a < |xs[j].views|
  {
    Named(xs[j].name, xs[j].views[a].entity)
  }

  ghost predicate Before(ns: seq<Named>, m: Named, n: Named) {
    exists p, q :: 0 <= p < q < |ns| && ns[p] == m && ns[q] == n
  }

  /** Every view is a contribution, at most one per component and export. */
  ghost predicate Contributed(xs: seq<MergedExport>, parts: Parts) {
    && (forall j, a :: At(xs, j, a) ==> xs[j].views[a].comp in parts && NamedAt(xs, j, a) in parts[xs[j].views[a].comp])
    && (forall j, a, b :: At(xs, j, a) && At(xs, j, b) && a != b ==> xs[j].views[a].comp != xs[j].views[b].comp)
  }

  /** What a component contributed after the first view of an export, which is its own, it also lists later. */
  ghost predicate InPartOrder(xs: seq<MergedExport>, parts: Parts) {
    forall i, j, a :: i < j && At(xs, i, 0) && At(xs, j, a) && xs[i].views[0].comp == xs[j].views[a].comp
                      && xs[i].views[0].comp in parts ==>
      Before(parts[xs[i].views[0].comp], NamedAt(xs, i, 0), NamedAt(xs, j, a))
  }

  /** Every contribution has its view. */
  ghost predicate Complete(xs: seq<MergedExport>, parts: Parts) {
    forall c, p :: c in parts && 0 <= p < |parts[c]| ==> Covered(xs, c, parts[c][p])
  }

  ghost predicate Covered(xs: seq<MergedExport>, c: nat, n: Named) {
    exists j, a :: At(xs, j, a) && xs[j].name == n.name && xs[j].views[a] == View(c, n.entity)
  }

  ghost predicate NamesDiffer(xs: seq<MergedExport>) {
    forall i, j :: 0 <= i < j < |xs| ==> xs[i].name != xs[j].name
  }

  ghost predicate MergedFrom(w: World, xs: seq<MergedExport>, parts: Parts) {
    && PartsFit(w, parts) && NamesDiffer(xs) && Contributed(xs, parts) && InPartOrder(xs, parts)
    && (forall j :: 0 <= j < |xs| ==> MergedExportOk(w, xs[j])) && Complete(xs, parts)
  }

  /** A type is created once in a list, and later than everything before it. */
  lemma CreatedOnce(ns: seq<Named>, p: nat, q: nat)
    requires Created([], ns) && p < |ns| && q < |ns|
    requires ns[p].entity.TypeE? && ns[q].entity.TypeE? && ns[p].entity.created == ns[q].entity.created
    ensures p == q
  {
  }

  lemma MergedFromOk(w: World, xs: seq<MergedExport>, parts: Parts)
    requires MergedFrom(w, xs, parts)
    ensures MergedOk(w, xs)
  {
    hide MergedExportOk;
    hide Complete;
    hide EntityOk;
    forall i, j, a, b, k | InView(xs, i, a, k) && InView(xs, j, b, k)
      ensures i == j && a == b
    {
      assert At(xs, i, a) && At(xs, j, b);
      var ns := parts[k.comp];
      var p :| 0 <= p < |ns| && ns[p] == NamedAt(xs, i, a);
      var q :| 0 <= q < |ns| && ns[q] == NamedAt(xs, j, b);
      CreatedOnce(ns, p, q);
      assert xs[i].name == xs[j].name;
    }
    forall j | 0 <= j < |xs|
      ensures xs[j].views != []
    {
      ViewsThere(w, xs[j]);
    }
    forall i, j | 0 <= i < j < |xs|
      ensures InOrder(xs[i].views[0], xs[j].views[0])
    {
      assert At(xs, i, 0) && At(xs, j, 0);
      if xs[i].views[0].comp == xs[j].views[0].comp {
        var ns := parts[xs[i].views[0].comp];
        var p, q :| 0 <= p < q < |ns| && ns[p] == NamedAt(xs, i, 0) && ns[q] == NamedAt(xs, j, 0);
        assert ns[q].entity.TypeE? ==> Top(ns[p].entity) < ns[q].entity.created;
      }
    }
  }

  /** Types that a component creates are created after everything of it that is translated before. */
  lemma MergedFromFresh(w: World, xs: seq<MergedExport>, parts: Parts)
    requires MergedFrom(w, xs, parts)
    ensures TypeReuse.ViewsFresh(xs)
  {
    hide MergedExportOk;
    hide Complete;
    hide EntityOk;
    forall j | 0 <= j < |xs|
      ensures xs[j].views != []
    {
      ViewsThere(w, xs[j]);
    }
    forall i, j, a | 0 <= i <= j < |xs| && 0 <= a < |xs[j].views| && (i < j || a > 0)
      ensures InOrder(xs[i].views[0], xs[j].views[a])
    {
      assert At(xs, i, 0) && At(xs, j, a);
      if xs[i].views[0].comp == xs[j].views[a].comp {
        var ns := parts[xs[i].views[0].comp];
        var p, q :| 0 <= p < q < |ns| && ns[p] == NamedAt(xs, i, 0) && ns[q] == NamedAt(xs, j, a);
        assert ns[q].entity.TypeE? ==> Top(ns[p].entity) < ns[q].entity.created;
      }
    }
  }

  lemma ViewsThere(w: World, x: MergedExport)
    requires MergedExportOk(w, x)
    ensures x.views != []
  {
  }

  // ----- one more view -----

  /** The part of a component that is being merged, so far and with the next export. */
  ghost predicate NextPart(w: World, parts: Parts, c: nat, n: Named) {
    && c in parts && c < |w| && PartsFit(w, parts[c := parts[c] + [n]])
    && (forall p :: 0 <= p < |parts[c]| ==> parts[c][p].name != n.name)
  }

  lemma ViewMore(w: World, compatible: Compatible, xs: seq<MergedExport>, parts: Parts, c: nat, n: Named)
    requires MergedFrom(w, xs, parts) && NextPart(w, parts, c, n) && Faithful(w, compatible)
    requires AddView(compatible, xs, n.name, View(c, n.entity)).Some?
    ensures MergedFrom(w, AddView(compatible, xs, n.name, View(c, n.entity)).value, parts[c := parts[c] + [n]])
  {
    var v, now := View(c, n.entity), parts[c := parts[c] + [n]];
    var ys := AddView(compatible, xs, n.name, v).value;
    LastIn(parts[c], n);
    ViewIsOk(w, now, c, n);
    var found := IndexOf(xs, n.name);
    if found.None? {
      NewExportMore(w, xs, parts, c, n);
    } else {
      MoreViews(w, compatible, xs, parts, c, n, found.value);
    }
  }

  lemma LastIn(ns: seq<Named>, n: Named)
    ensures n in ns + [n] && forall m :: m in ns ==> m in ns + [n]
  {
    assert (ns + [n])[|ns|] == n;
    forall m | m in ns
      ensures m in ns + [n]
    {
      var i :| 0 <= i < |ns| && ns[i] == m;
      assert (ns + [n])[i] == m;
    }
  }

  lemma ViewIsOk(w: World, parts: Parts, c: nat, n: Named)
    requires PartsFit(w, parts) && c in parts && n in parts[c]
    ensures ViewOk(w, View(c, n.entity))
  {
    hide EntityOk;
  }

  lemma BeforeMore(ns: seq<Named>, last: Named, m: Named, n: Named)
    requires Before(ns, m, n)
    ensures Before(ns + [last], m, n)
  {
    var p, q :| 0 <= p < q < |ns| && ns[p] == m && ns[q] == n;
    assert (ns + [last])[p] == m && (ns + [last])[q] == n;
  }

  lemma BeforeLast(ns: seq<Named>, last: Named, m: Named)
    requires m in ns
    ensures Before(ns + [last], m, last)
  {
    var p :| 0 <= p < |ns| && ns[p] == m;
    assert (ns + [last])[p] == m && (ns + [last])[|ns|] == last;
  }

  /** Views are only added, so what was covered still is. */
  lemma StillCovered(xs: seq<MergedExport>, ys: seq<MergedExport>, parts: Parts, c: nat, n: Named)
    requires c in parts && Complete(xs, parts) && Covered(ys, c, n)
    requires |xs| <= |ys| && forall j :: 0 <= j < |xs| ==> ys[j].name == xs[j].name && xs[j].views <= ys[j].views
    ensures Complete(ys, parts[c := parts[c] + [n]])
  {
    var now := parts[c := parts[c] + [n]];
    forall d, p | d in now && 0 <= p < |now[d]|
      ensures Covered(ys, d, now[d][p])
    {
      if d != c || p < |parts[c]| {
        assert now[d][p] == parts[d][p];
        assert Covered(xs, d, parts[d][p]);
        var j, a :| At(xs, j, a) && xs[j].name == parts[d][p].name && xs[j].views[a] == View(d, parts[d][p].entity);
        assert At(ys, j, a) && ys[j].views[a] == xs[j].views[a];
      }
    }
  }

  /** The one new view is the new contribution. */
  lemma StillContributed(xs: seq<MergedExport>, ys: seq<MergedExport>, parts: Parts, c: nat, n: Named, k: nat, b: nat)
    requires c in parts && Contributed(xs, parts) && (forall p :: 0 <= p < |parts[c]| ==> parts[c][p].name != n.name)
    requires At(ys, k, b) && ys[k].name == n.name && ys[k].views[b] == View(c, n.entity)
    requires forall j, a :: At(ys, j, a) && (j != k || a != b) ==>
               At(xs, j, a) && ys[j].name == xs[j].name && ys[j].views[a] == xs[j].views[a]
    ensures Contributed(ys, parts[c := parts[c] + [n]])
  {
    var now := parts[c := parts[c] + [n]];
    LastIn(parts[c], n);
    forall j, a | At(ys, j, a)
      ensures ys[j].views[a].comp in now && NamedAt(ys, j, a) in now[ys[j].views[a].comp]
    {
      if j != k || a != b {
        assert At(xs, j, a) && NamedAt(xs, j, a) == NamedAt(ys, j, a);
      }
    }
    forall a | At(ys, k, a) && a != b
      ensures ys[k].views[a].comp != c
    {
      assert At(xs, k, a) && NamedAt(xs, k, a) in parts[xs[k].views[a].comp];
    }
    forall j, a, a' | At(ys, j, a) && At(ys, j, a') && a != a'
      ensures ys[j].views[a].comp != ys[j].views[a'].comp
    {
      assert j != k || a != b ==> At(xs, j, a);
      assert j != k || a' != b ==> At(xs, j, a');
    }
  }

  /** An export that nobody had. */
  lemma NewExportMore(w: World, xs: seq<MergedExport>, parts: Parts, c: nat, n: Named)
    requires MergedFrom(w, xs, parts) && NextPart(w, parts, c, n) && ViewOk(w, View(c, n.entity))
    requires forall j :: 0 <= j < |xs| ==> xs[j].name != n.name
    ensures MergedFrom(w, xs + [MergedExport(n.name, [View(c, n.entity)])], parts[c := parts[c] + [n]])
  {
    hide ViewOk;
    hide ViewMeaning;
    hide PartsFit;
    hide Contributed;
    hide Complete;
    hide InPartOrder;
    hide At;
    var ys := xs + [MergedExport(n.name, [View(c, n.entity)])];
    ViewAt(xs, ys, n, c);
    StillContributed(xs, ys, parts, c, n, |xs|, 0);
    StillCovered(xs, ys, parts, c, n);
    NewFirstView(xs, parts, c, n);
  }

  lemma ViewAt(xs: seq<MergedExport>, ys: seq<MergedExport>, n: Named, c: nat)
    requires ys == xs + [MergedExport(n.name, [View(c, n.entity)])]
    ensures At(ys, |xs|, 0) && Covered(ys, c, n)
    ensures forall j, a :: At(ys, j, a) && (j != |xs| || a != 0) ==> At(xs, j, a) && ys[j] == xs[j]
  {
    assert At(ys, |xs|, 0) && ys[|xs|].views[0] == View(c, n.entity);
  }

  lemma NewFirstView(xs: seq<MergedExport>, parts: Parts, c: nat, n: Named)
    requires c in parts && Contributed(xs, parts) && InPartOrder(xs, parts)
    ensures InPartOrder(xs + [MergedExport(n.name, [View(c, n.entity)])], parts[c := parts[c] + [n]])
  {
    var ys, now := xs + [MergedExport(n.name, [View(c, n.entity)])], parts[c := parts[c] + [n]];
    forall i, j, a | i < j && At(ys, i, 0) && At(ys, j, a) && ys[i].views[0].comp == ys[j].views[a].comp
      ensures ys[i].views[0].comp in now
      ensures Before(now[ys[i].views[0].comp], NamedAt(ys, i, 0), NamedAt(ys, j, a))
    {
      assert At(xs, i, 0) && NamedAt(xs, i, 0) == NamedAt(ys, i, 0);
      var d := ys[i].views[0].comp;
      if j < |xs| {
        assert At(xs, j, a) && NamedAt(xs, j, a) == NamedAt(ys, j, a);
        assert Before(parts[d], NamedAt(xs, i, 0), NamedAt(xs, j, a));
        if d == c {
          BeforeMore(parts[c], n, NamedAt(xs, i, 0), NamedAt(xs, j, a));
        }
      } else {
        BeforeLast(parts[c], n, NamedAt(xs, i, 0));
      }
    }
  }

  /** Another view of an export. */
  lemma MoreViews(w: World, compatible: Compatible, xs: seq<MergedExport>, parts: Parts, c: nat, n: Named, k: nat)
    requires MergedFrom(w, xs, parts) && NextPart(w, parts, c, n) && Faithful(w, compatible)
    requires ViewOk(w, View(c, n.entity)) && k < |xs| && xs[k].name == n.name
    requires forall u :: u in xs[k].views ==> compatible(u, View(c, n.entity))
    ensures MergedFrom(w, xs[k := MergedExport(n.name, xs[k].views + [View(c, n.entity)])], parts[c := parts[c] + [n]])
  {
    hide ViewOk;
    hide ViewMeaning;
    hide PartsFit;
    hide Contributed;
    hide Complete;
    hide InPartOrder;
    hide At;
    hide Faithful;
    var v := View(c, n.entity);
    var ys := xs[k := MergedExport(n.name, xs[k].views + [v])];
    OneMoreViewOk(w, compatible, xs[k], v);
    MoreAt(xs, ys, n, c, k);
    StillContributed(xs, ys, parts, c, n, k, |xs[k].views|);
    StillCovered(xs, ys, parts, c, n);
    FirstViewsStay(xs, ys, k, parts, c, n);
  }

  lemma MoreAt(xs: seq<MergedExport>, ys: seq<MergedExport>, n: Named, c: nat, k: nat)
    requires k < |xs| && xs[k].name == n.name
    requires ys == xs[k := MergedExport(n.name, xs[k].views + [View(c, n.entity)])]
    ensures At(ys, k, |xs[k].views|) && Covered(ys, c, n)
    ensures forall j, a :: At(ys, j, a) && (j != k || a != |xs[k].views|) ==>
              At(xs, j, a) && ys[j].name == xs[j].name && ys[j].views[a] == xs[j].views[a]
  {
    assert At(ys, k, |xs[k].views|) && ys[k].views[|xs[k].views|] == View(c, n.entity);
  }

  lemma FirstViewsStay(xs: seq<MergedExport>, ys: seq<MergedExport>, k: nat, parts: Parts, c: nat, n: Named)
    requires Contributed(xs, parts) && InPartOrder(xs, parts) && c in parts && k < |xs| && xs[k].name == n.name
    requires forall j :: 0 <= j < |xs| ==> xs[j].views != []
    requires ys == xs[k := MergedExport(n.name, xs[k].views + [View(c, n.entity)])]
    ensures InPartOrder(ys, parts[c := parts[c] + [n]])
  {
    var now := parts[c := parts[c] + [n]];
    forall i, j, a | i < j && At(ys, i, 0) && At(ys, j, a) && ys[i].views[0].comp == ys[j].views[a].comp
      ensures ys[i].views[0].comp in now
      ensures Before(now[ys[i].views[0].comp], NamedAt(ys, i, 0), NamedAt(ys, j, a))
    {
      assert At(xs, i, 0) && NamedAt(xs, i, 0) == NamedAt(ys, i, 0) && xs[i].views[0] == ys[i].views[0];
      var d := xs[i].views[0].comp;
      if j == k && a == |xs[k].views| {
        BeforeLast(parts[c], n, NamedAt(xs, i, 0));
      } else {
        assert At(xs, j, a) && NamedAt(xs, j, a) == NamedAt(ys, j, a) && xs[j].views[a] == ys[j].views[a];
        assert Before(parts[d], NamedAt(xs, i, 0), NamedAt(xs, j, a));
        if d == c {
          BeforeMore(parts[c], n, NamedAt(xs, i, 0), NamedAt(xs, j, a));
        }
      }
    }
  }

  lemma OneMoreViewOk(w: World, compatible: Compatible, x: MergedExport, v: View)
    requires MergedExportOk(w, x) && ViewOk(w, v) && Faithful(w, compatible)
    requires forall u :: u in x.views ==> compatible(u, v)
    ensures MergedExportOk(w, MergedExport(x.name, x.views + [v]))
  {
    hide ViewMeaning;
    assert ViewOk(w, x.views[0]) && compatible(x.views[0], v);
    var more := x.views + [v];
    forall a | 0 <= a < |more|
      ensures ViewOk(w, more[a]) && ViewMeaning(w, more[a]) == ViewMeaning(w, more[0])
    {
      assert more[a] == if a < |x.views| then x.views[a] else v;
    }
  }

  // ----- all views of a component -----

  /** A component that has not contributed yet. */
  lemma NewPart(w: World, xs: seq<MergedExport>, parts: Parts, c: nat)
    requires MergedFrom(w, xs, parts) && c !in parts && c < |w| && TypesOk(w[c])
    ensures MergedFrom(w, xs, parts[c := []])
  {
    hide MergedExportOk;
    hide NamedOk;
    hide TypesOk;
    var now := parts[c := []];
    NothingNamed(w[c]);
    forall d, p | d in now && 0 <= p < |now[d]|
      ensures Covered(xs, d, now[d][p])
    {
      assert Covered(xs, d, parts[d][p]);
    }
    forall i, j | 0 <= i < j < |xs| && At(xs, i, 0) && At(xs, j, 0) && xs[i].views[0].comp == xs[j].views[0].comp
      ensures Before(now[xs[i].views[0].comp], NamedAt(xs, i, 0), NamedAt(xs, j, 0))
    {
      assert xs[i].views[0].comp in parts;
    }
  }

  lemma NothingNamed(ts: Types)
    ensures NamedOk(ts, [], |ts|) && Created([], [])
  {
  }

  lemma ViewsUnfold(compatible: Compatible, xs: seq<MergedExport>, c: nat, ns: seq<Named>)
    requires AddViews(compatible, xs, c, ns).Some?
    ensures ns == [] ==> AddViews(compatible, xs, c, ns) == Some(xs)
    ensures ns != [] ==>
              var n := |ns| - 1;
              var init := AddViews(compatible, xs, c, ns[..n]);
              && init.Some?
              && AddViews(compatible, xs, c, ns)
              == AddView(compatible, init.value, ns[n].name, View(c, ns[n].entity))
  {
    hide AddView;
  }

  lemma LastViewMerges(w: World, compatible: Compatible, ys: seq<MergedExport>, parts: Parts, c: nat, ns: seq<Named>)
    requires ns != [] && MergedFrom(w, ys, parts[c := ns[..|ns| - 1]]) && Faithful(w, compatible)
    requires NextPart(w, parts[c := ns[..|ns| - 1]], c, ns[|ns| - 1])
    requires AddView(compatible, ys, ns[|ns| - 1].name, View(c, ns[|ns| - 1].entity)).Some?
    ensures var added := AddView(compatible, ys, ns[|ns| - 1].name, View(c, ns[|ns| - 1].entity)).value;
            MergedFrom(w, added, parts[c := ns])
  {
    hide MergedFrom;
    hide Faithful;
    hide AddView;
    hide NextPart;
    var n := |ns| - 1;
    var mid := parts[c := ns[..n]];
    assert ns == ns[..n] + [ns[n]];
    assert mid[c := mid[c] + [ns[n]]] == parts[c := ns];
    ViewMore(w, compatible, ys, mid, c, ns[n]);
  }

  lemma {:induction false} ViewsMerge(w: World, compatible: Compatible, xs: seq<MergedExport>, parts: Parts, c: nat,
      ns: seq<Named>)
    requires MergedFrom(w, xs, parts) && Faithful(w, compatible) && c !in parts && c < |w| && TypesOk(w[c])
    requires NamedOk(w[c], ns, |w[c]|) && Created([], ns) && AddViews(compatible, xs, c, ns).Some?
    ensures MergedFrom(w, AddViews(compatible, xs, c, ns).value, parts[c := ns])
  {
    hide MergedFrom;
    hide Faithful;
    hide AddView;
    hide AddViews;
    hide TypesOk;
    hide NamedOk;
    hide Created;
    hide NextPart;
    ViewsUnfold(compatible, xs, c, ns);
    if ns == [] {
      NewPart(w, xs, parts, c);
    } else {
      var n := |ns| - 1;
      ListPrefixOk(w[c], ns);
      ViewsMerge(w, compatible, xs, parts, c, ns[..n]);
      NextIsOk(w, xs, parts, c, ns);
      LastViewMerges(w, compatible, AddViews(compatible, xs, c, ns[..n]).value, parts, c, ns);
    }
  }

  lemma ListPrefixOk(ts: Types, ns: seq<Named>)
    requires ns != [] && NamedOk(ts, ns, |ts|) && Created([], ns)
    ensures NamedOk(ts, ns[..|ns| - 1], |ts|) && Created([], ns[..|ns| - 1])
  {
    hide EntityOk;
    CreatedPrefix([], ns);
    NamedPrefix(ts, ns, |ts|);
  }

  lemma NextIsOk(w: World, xs: seq<MergedExport>, parts: Parts, c: nat, ns: seq<Named>)
    requires MergedFrom(w, xs, parts) && c !in parts && c < |w| && TypesOk(w[c])
    requires ns != [] && NamedOk(w[c], ns, |w[c]|) && Created([], ns)
    ensures NextPart(w, parts[c := ns[..|ns| - 1]], c, ns[|ns| - 1])
  {
    hide EntityOk;
    hide TypesOk;
    var n := |ns| - 1;
    var mid := parts[c := ns[..n]];
    assert mid[c] + [ns[n]] == ns;
    assert forall p :: 0 <= p < n ==> ns[..n][p].name == ns[p].name;
  }

  // ----- the views of one component -----

  /** An instance of one component: each export is what that component says. */
  function SingleViews(c: nat, ns: seq<Named>): (xs: seq<MergedExport>)
    ensures |xs| == |ns|
    ensures forall j :: 0 <= j < |ns| ==> xs[j] == MergedExport(ns[j].name, [View(c, ns[j].entity)])
  {
    seq(|ns|, j requires 0 <= j < |ns| => MergedExport(ns[j].name, [View(c, ns[j].entity)]))
  }

  lemma SingleMerged(w: World, c: nat, ns: seq<Named>)
    requires c < |w| && TypesOk(w[c]) && NamedOk(w[c], ns, |w[c]|) && Created([], ns)
    ensures MergedFrom(w, SingleViews(c, ns), map[c := ns])
  {
    hide EntityOk;
    hide TypesOk;
    var xs, parts := SingleViews(c, ns), map[c := ns];
    forall j, a | At(xs, j, a)
      ensures a == 0 && xs[j].views[a].comp == c && NamedAt(xs, j, a) == ns[j]
    {
    }
    forall i, j | 0 <= i < j < |xs| && At(xs, i, 0) && At(xs, j, 0)
      ensures Before(ns, NamedAt(xs, i, 0), NamedAt(xs, j, 0))
    {
      assert ns[i] == NamedAt(xs, i, 0) && ns[j] == NamedAt(xs, j, 0);
    }
    forall d, p | d in parts && 0 <= p < |parts[d]|
      ensures Covered(xs, d, parts[d][p])
    {
      assert At(xs, p, 0) && xs[p].views[0] == View(c, ns[p].entity);
    }
    forall j | 0 <= j < |xs|
      ensures MergedExportOk(w, xs[j])
    {
      assert xs[j].views == [View(c, ns[j].entity)];
    }
  }

  // ----- conflicts -----

  /** The views of the export of that name, if there is one. */
  function ViewsOf(xs: seq<MergedExport>, name: string): seq<View> {
    match IndexOf(xs, name)
    case None => []
    case Some(j) => xs[j].views
  }

  lemma {:induction false} IndexOfAppend(xs: seq<MergedExport>, x: MergedExport, name: string)
    ensures IndexOf(xs + [x], name)
         == if IndexOf(xs, name).Some? then IndexOf(xs, name) else if x.name == name then Some(|xs|) else None
  {
    if xs == [] {
      assert xs + [x] == [x] && [x][1..] == [];
    } else {
      assert (xs + [x])[0] == xs[0] && (xs + [x])[1..] == xs[1..] + [x];
      IndexOfAppend(xs[1..], x, name);
    }
  }

  lemma {:induction false} IndexOfUpdate(xs: seq<MergedExport>, j: nat, x: MergedExport, name: string)
    requires j < |xs| && x.name == xs[j].name
    ensures IndexOf(xs[j := x], name) == IndexOf(xs, name)
  {
    if j > 0 {
      assert xs[j := x][1..] == xs[1..][j - 1 := x];
      IndexOfUpdate(xs[1..], j - 1, x, name);
    } else {
      assert xs[j := x][1..] == xs[1..];
    }
  }

  /** A view conflicts with those of its name, and leaves the others alone. */
  lemma AddViewIs(compatible: Compatible, xs: seq<MergedExport>, name: string, v: View, other: string)
    ensures AddView(compatible, xs, name, v).None? <==> exists u :: u in ViewsOf(xs, name) && !compatible(u, v)
    ensures AddView(compatible, xs, name, v).Some? && other != name ==>
              ViewsOf(AddView(compatible, xs, name, v).value, other) == ViewsOf(xs, other)
  {
    match IndexOf(xs, name) {
      case None =>
        IndexOfAppend(xs, MergedExport(name, [v]), other);
      case Some(j) =>
        IndexOfUpdate(xs, j, MergedExport(name, xs[j].views + [v]), other);
    }
  }

  /** Some export of the list is not what a view of the same name is. */
  ghost predicate Disagrees(compatible: Compatible, xs: seq<MergedExport>, c: nat, n: Named) {
    exists u :: u in ViewsOf(xs, n.name) && !compatible(u, View(c, n.entity))
  }

  lemma {:induction false} AddViewsIs(compatible: Compatible, xs: seq<MergedExport>, c: nat, ns: seq<Named>)
    requires forall i, j :: 0 <= i < j < |ns| ==> ns[i].name != ns[j].name
    ensures AddViews(compatible, xs, c, ns).None? <==> exists p :: 0 <= p < |ns| && Disagrees(compatible, xs, c, ns[p])
    ensures AddViews(compatible, xs, c, ns).Some? ==>
              forall name :: (forall p :: 0 <= p < |ns| ==> ns[p].name != name) ==>
                ViewsOf(AddViews(compatible, xs, c, ns).value, name) == ViewsOf(xs, name)
  {
    hide AddView;
    hide ViewsOf;
    if ns != [] {
      var n := |ns| - 1;
      var init, last := ns[..n], ns[n];
      AddViewsIs(compatible, xs, c, init);
      assert forall p :: 0 <= p < n ==> init[p] == ns[p];
      if AddViews(compatible, xs, c, init).Some? {
        var ys := AddViews(compatible, xs, c, init).value;
        assert ViewsOf(ys, last.name) == ViewsOf(xs, last.name);
        AddViewIs(compatible, ys, last.name, View(c, last.entity), last.name);
        assert AddView(compatible, ys, last.name, View(c, last.entity)).None? <==> Disagrees(compatible, xs, c, last);
        forall name | (forall p :: 0 <= p < |ns| ==> ns[p].name != name) && AddViews(compatible, xs, c, ns).Some?
          ensures ViewsOf(AddViews(compatible, xs, c, ns).value, name) == ViewsOf(xs, name)
        {
          assert ns[n].name != name;
          AddViewIs(compatible, ys, last.name, View(c, last.entity), name);
        }
      } else {
        var p :| 0 <= p < |init| && Disagrees(compatible, xs, c, init[p]);
        assert Disagrees(compatible, xs, c, ns[p]);
      }
    }
  }

  /** The views of a name are what the components contributed under it. */
  lemma ViewsAreContributed(w: World, xs: seq<MergedExport>, parts: Parts, name: string, u: View)
    requires MergedFrom(w, xs, parts)
    ensures u in ViewsOf(xs, name) <==> u.comp in parts && Named(name, u.entity) in parts[u.comp]
  {
    hide PartsFit;
    hide InPartOrder;
    hide MergedExportOk;
    if u in ViewsOf(xs, name) {
      var j := IndexOf(xs, name).value;
      var a :| 0 <= a < |xs[j].views| && xs[j].views[a] == u;
      assert At(xs, j, a) && NamedAt(xs, j, a) == Named(name, u.entity);
    }
    if u.comp in parts && Named(name, u.entity) in parts[u.comp] {
      var p :| 0 <= p < |parts[u.comp]| && parts[u.comp][p] == Named(name, u.entity);
      assert Covered(xs, u.comp, parts[u.comp][p]);
      var j, a :| At(xs, j, a) && xs[j].name == name && xs[j].views[a] == View(u.comp, u.entity);
      assert IndexOf(xs, name) == Some(j);
    }
  }

  // ----- merging, as it is written -----

  method MergeViews(compatible: Compatible, start: seq<MergedExport>, c: nat, ns: seq<Named>)
    returns (r: Option<seq<MergedExport>>)
    ensures r == AddViews(compatible, start, c, ns)
  {
    hide AddView;
    var xs := start;
    for p: nat := 0 to |ns|
      invariant AddViews(compatible, start, c, ns[..p]) == Some(xs)
    {
      assert ns[..p + 1][..p] == ns[..p];
      var next := AddView(compatible, xs, ns[p].name, View(c, ns[p].entity));
      if next.None? {
        ViewsConflict(compatible, start, c, ns, p + 1);
        return None;
      }
      xs := next.value;
    }
    assert ns[..|ns|] == ns;
    return Some(xs);
  }

  lemma {:induction false} ViewsConflict(compatible: Compatible, xs: seq<MergedExport>, c: nat, ns: seq<Named>, p: nat)
    requires p <= |ns| && AddViews(compatible, xs, c, ns[..p]).None?
    ensures AddViews(compatible, xs, c, ns).None?
    decreases |ns| - p
  {
    if p < |ns| {
      assert ns[..p + 1][..p] == ns[..p];
      ViewsConflict(compatible, xs, c, ns, p + 1);
    } else {
      assert ns[..p] == ns;
    }
  }
}
