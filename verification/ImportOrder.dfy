/**
 wasm-compose's ordering of imports: a depth-first search puts every dependency before its
 dependents, and the import map is then sorted by the order found.
 */
module ImportOrder {
  import opened Common

  type Name = string
  type Deps = map<Name, seq<Name>>

  function DepsOf(deps: Deps, n: Name): seq<Name> {
    if n in deps then deps[n] else []
  }

  ghost predicate Ranks(deps: Deps, rank: Name -> nat) {
    forall n, d :: n in deps && d in deps[n] ==> rank(d) < rank(n)
  }

  /** No import depends on itself, however indirectly. */
  ghost predicate Acyclic(deps: Deps) {
    exists rank :: Ranks(deps, rank)
  }

  /** No duplicates, and the dependencies of each entry come before it. */
  ghost predicate TopologicalOrder(deps: Deps, order: seq<Name>) {
    && Distinct(order)
    && forall i, d :: 0 <= i < |order| && d in DepsOf(deps, order[i]) ==> d in order[..i]
  }

  ghost predicate IsPath(deps: Deps, path: seq<Name>) {
    path != [] && forall i :: 0 <= i < |path| - 1 ==> path[i + 1] in DepsOf(deps, path[i])
  }

  ghost predicate Reaches(deps: Deps, a: Name, b: Name) {
    exists path :: IsPath(deps, path) && path[0] == a && path[|path| - 1] == b
  }

  lemma ReachesSelf(deps: Deps, a: Name)
    ensures Reaches(deps, a, a)
  {
    assert IsPath(deps, [a]);
  }

  lemma ReachesThrough(deps: Deps, a: Name, d: Name, b: Name)
    requires d in DepsOf(deps, a) && Reaches(deps, d, b)
    ensures Reaches(deps, a, b)
  {
    var path :| IsPath(deps, path) && path[0] == d && path[|path| - 1] == b;
    assert IsPath(deps, [a] + path);
  }

  lemma {:induction false} PathRanks(deps: Deps, rank: Name -> nat, path: seq<Name>)
    requires Ranks(deps, rank) && IsPath(deps, path)
    ensures rank(path[|path| - 1]) <= rank(path[0])
    ensures |path| > 1 ==> rank(path[|path| - 1]) < rank(path[0])
  {
    if |path| > 1 {
      assert IsPath(deps, path[1..]);
      PathRanks(deps, rank, path[1..]);
      assert path[1] in DepsOf(deps, path[0]);
    }
  }

  /** The rank condition really excludes every cycle. */
  lemma AcyclicHasNoCycle(deps: Deps, path: seq<Name>)
    requires Acyclic(deps) && IsPath(deps, path) && |path| > 1
    ensures path[0] != path[|path| - 1]
  {
    var rank :| Ranks(deps, rank);
    PathRanks(deps, rank, path);
  }

  lemma AppendIsTopological(deps: Deps, order: seq<Name>, n: Name)
    requires TopologicalOrder(deps, order) && n !in order
    requires forall d :: d in DepsOf(deps, n) ==> d in order
    ensures TopologicalOrder(deps, order + [n])
  {
    var out := order + [n];
    forall i, d | 0 <= i < |out| && d in DepsOf(deps, out[i]) ensures d in out[..i] {
      if i < |order| {
        assert out[..i] == order[..i];
      } else {
        assert out[..i] == order;
      }
    }
  }

  /** The search adds exactly what `cur` needs and was not there yet, dependencies first. */
  method Toposort(cur: Name, deps: Deps, order: seq<Name>, ghost rank: Name -> nat) returns (out: seq<Name>)
    requires Ranks(deps, rank) && TopologicalOrder(deps, order)
    ensures order <= out && TopologicalOrder(deps, out) && cur in out
    ensures forall i :: |order| <= i < |out| ==> Reaches(deps, cur, out[i]) && rank(out[i]) <= rank(cur)
    ensures cur in order ==> out == order
    ensures cur !in order && (forall d :: d in DepsOf(deps, cur) ==> d in order) ==> out == order + [cur]
    decreases rank(cur)
  {
    ReachesSelf(deps, cur);
    if cur in order {
      return order;
    }
    out := order;
    var list := DepsOf(deps, cur);
    for k := 0 to |list|
      invariant order <= out && TopologicalOrder(deps, out)
      invariant forall j :: 0 <= j < k ==> list[j] in out
      invariant forall i :: |order| <= i < |out| ==> Reaches(deps, cur, out[i]) && rank(out[i]) < rank(cur)
      invariant (forall d :: d in list ==> d in order) ==> out == order
    {
      ghost var before := out;
      assert rank(list[k]) < rank(cur);
      out := Toposort(list[k], deps, out, rank);
      forall i | |order| <= i < |out| ensures Reaches(deps, cur, out[i]) && rank(out[i]) < rank(cur) {
        if i < |before| {
          assert out[i] == before[i];
        } else {
          ReachesThrough(deps, cur, list[k], out[i]);
        }
      }
    }
    // The insertion asserts that `cur` is new.
    assert cur !in out;
    AppendIsTopological(deps, out, cur);
    out := out + [cur];
  }

  /** The search started from every import; an order that is right already stays. */
  method FindOrder(names: seq<Name>, deps: Deps) returns (order: seq<Name>)
    requires Acyclic(deps)
    ensures TopologicalOrder(deps, order) && forall n :: n in names ==> n in order
    ensures TopologicalOrder(deps, names) ==> order == names
  {
    ghost var rank :| Ranks(deps, rank);
    order := [];
    for k := 0 to |names|
      invariant TopologicalOrder(deps, order)
      invariant forall j :: 0 <= j < k ==> names[j] in order
      invariant TopologicalOrder(deps, names) ==> order == names[..k]
    {
      assert names[..k + 1] == names[..k] + [names[k]];
      order := Toposort(names[k], deps, order, rank);
    }
    assert names[..|names|] == names;
  }

  /** The names in the order found. */
  function InOrderFound(order: seq<Name>, names: seq<Name>): seq<Name> {
    if order == [] then []
    else
      var n := |order| - 1;
      InOrderFound(order[..n], names) + if order[n] in names then [order[n]] else []
  }

  lemma {:induction false} FoundInOrder(deps: Deps, order: seq<Name>, names: seq<Name>)
    requires TopologicalOrder(deps, order)
    ensures var found := InOrderFound(order, names);
            && Distinct(found) && (forall n :: n in found <==> n in order && n in names)
            && forall i, d :: 0 <= i < |found| && d in DepsOf(deps, found[i]) && d in names ==> d in found[..i]
  {
    if order != [] {
      var n := |order| - 1;
      var init := order[..n];
      assert order == init + [order[n]];
      forall i, d | 0 <= i < n && d in DepsOf(deps, init[i])
        ensures d in init[..i]
      {
        assert order[i] == init[i] && order[..i] == init[..i];
      }
      FoundInOrder(deps, init, names);
      var was, found := InOrderFound(init, names), InOrderFound(order, names);
      forall i, d | 0 <= i < |found| && d in DepsOf(deps, found[i]) && d in names
        ensures d in found[..i]
      {
        if i < |was| {
          assert found[..i] == was[..i];
        } else {
          assert found[..i] == was && order[..n] == init;
        }
      }
    }
  }

  lemma {:induction false} AllFound(order: seq<Name>, names: seq<Name>)
    requires forall n :: n in order ==> n in names
    ensures InOrderFound(order, names) == order
  {
    if order != [] {
      var n := |order| - 1;
      assert order == order[..n] + [order[n]];
      AllFound(order[..n], names);
    }
  }

  /**
   The import map after sorting by position in the order found: the same names, each after
   the imports it depends on. Positions are distinct, so sorting is reading the order through.
   */
  method SortImports(names: seq<Name>, deps: Deps) returns (sorted: seq<Name>)
    requires Distinct(names) && Acyclic(deps)
    ensures Distinct(sorted) && multiset(sorted) == multiset(names)
    ensures forall i, d :: 0 <= i < |sorted| && d in DepsOf(deps, sorted[i]) && d in names ==> d in sorted[..i]
    ensures TopologicalOrder(deps, names) ==> sorted == names
  {
    var order := FindOrder(names, deps);
    sorted := [];
    for k := 0 to |order|
      invariant sorted == InOrderFound(order[..k], names)
    {
      assert order[..k + 1][..k] == order[..k];
      if order[k] in names {
        sorted := sorted + [order[k]];
      }
    }
    assert order[..|order|] == order;
    FoundInOrder(deps, order, names);
    AllFoundIf(deps, order, names);
    SameMembers(sorted, names);
  }

  lemma AllFoundIf(deps: Deps, order: seq<Name>, names: seq<Name>)
    requires TopologicalOrder(deps, names) ==> order == names
    ensures TopologicalOrder(deps, names) ==> InOrderFound(order, names) == names
  {
    if TopologicalOrder(deps, names) {
      AllFound(order, names);
    }
  }

  lemma {:induction false} SameMembers(a: seq<Name>, b: seq<Name>)
    requires Distinct(a) && Distinct(b)
    requires forall n :: n in a <==> n in b
    ensures multiset(a) == multiset(b)
  {
    forall n ensures multiset(a)[n] == multiset(b)[n] {
      CountDistinct(a, n);
      CountDistinct(b, n);
    }
  }

  lemma {:induction false} CountDistinct(a: seq<Name>, n: Name)
    requires Distinct(a)
    ensures multiset(a)[n] == if n in a then 1 else 0
  {
    if a != [] {
      var m := |a| - 1;
      assert a == a[..m] + [a[m]];
      CountDistinct(a[..m], n);
    }
  }
}
