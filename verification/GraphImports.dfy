/**
 wasm-compose's import map: the items the composed component has to import, because no
 connection supplies them, in an order in which dependencies come first.
 */
module GraphImports {
  import opened Common
  import opened CompositionGraph
  import ImportOrder

  /** The order in which the index maps of the graph iterate. */
  ghost predicate Enumerates(order: seq<Id>, ids: set<Id>) {
    Distinct(order) && forall i :: i in order <==> i in ids
  }

  ghost predicate HasInstance(g: Graph, i: Id) {
    i in g.instances && g.instances[i].component in g.components
  }

  function ComponentOf(g: Graph, i: Id): Component
    requires HasInstance(g, i)
  {
    g.components[g.instances[i].component].component
  }

  lemma SoundHasInstance(g: Graph, i: Id)
    requires Sound(g) && i in g.instances
    ensures HasInstance(g, i) && g.components[g.instances[i].component].instances != {}
  {
  }

  // ----- the import map -----

  datatype MapEntry =
    | ComponentEntry(component: Id)
    | ArgumentEntry(instances: seq<(nat, nat)>)

  /** An index map: the names in order, and what each stands for. */
  datatype ImportMap = ImportMap(order: seq<string>, entries: map<string, MapEntry>)

  ghost predicate MapOk(m: ImportMap) {
    Distinct(m.order) && forall n :: n in m.order <==> n in m.entries
  }

  /** Import `k` of the instance at position `p` is not connected. */
  ghost predicate Unconnected(g: Graph, instances: seq<Id>, p: nat, k: nat) {
    && p < |instances| && HasInstance(g, instances[p])
    && k < |ComponentOf(g, instances[p]).imports|
    && k !in g.instances[instances[p]].connected
  }

  function ImportName(g: Graph, instances: seq<Id>, p: nat, k: nat): string
    requires Unconnected(g, instances, p, k)
  {
    ComponentOf(g, instances[p]).imports[k].name
  }

  /** Pairs before `(p, k)` in the order of the loops. */
  predicate Before(pair: (nat, nat), p: nat, k: nat) {
    pair.0 < p || (pair.0 == p && pair.1 < k)
  }

  /** The argument entries hold the unconnected pairs before `(p, k)`, each once, under its name. */
  ghost predicate Recorded(g: Graph, instances: seq<Id>, m: ImportMap, p: nat, k: nat) {
    && (forall n :: n in m.entries && m.entries[n].ArgumentEntry? ==>
          && Distinct(m.entries[n].instances) && m.entries[n].instances != []
          && forall pair :: pair in m.entries[n].instances ==>
               && Before(pair, p, k) && Unconnected(g, instances, pair.0, pair.1)
               && ImportName(g, instances, pair.0, pair.1) == n)
    && (forall pair: (nat, nat) :: Before(pair, p, k) && Unconnected(g, instances, pair.0, pair.1) ==>
          var n := ImportName(g, instances, pair.0, pair.1);
          n in m.entries && m.entries[n].ArgumentEntry? && pair in m.entries[n].instances)
  }

  /** Seen imports of components, and where in the map they are. */
  ghost predicate SeenOk(g: Graph, m: ImportMap, seen: map<(Id, nat), nat>) {
    forall c, k :: (c, k) in seen ==>
      && seen[(c, k)] < |m.order| && c in g.components && k < |g.components[c].component.imports|
      && m.order[seen[(c, k)]] == g.components[c].component.imports[k].name
      && m.order[seen[(c, k)]] in m.entries && m.entries[m.order[seen[(c, k)]]].ArgumentEntry?
  }

  /** The entry `n` gets one more instance; a new entry goes to the end. */
  function WithPair(m: ImportMap, n: string, pair: (nat, nat)): ImportMap
    requires n in m.entries ==> m.entries[n].ArgumentEntry?
  {
    if n in m.entries then m.(entries := m.entries[n := ArgumentEntry(m.entries[n].instances + [pair])])
    else ImportMap(m.order + [n], m.entries[n := ArgumentEntry([pair])])
  }

  lemma WithPairRecords(g: Graph, instances: seq<Id>, m: ImportMap, p: nat, k: nat)
    requires MapOk(m) && Recorded(g, instances, m, p, k) && Unconnected(g, instances, p, k)
    requires var n := ImportName(g, instances, p, k); n in m.entries ==> m.entries[n].ArgumentEntry?
    ensures var r := WithPair(m, ImportName(g, instances, p, k), (p, k));
            MapOk(r) && Recorded(g, instances, r, p, k + 1)
  {
    var n := ImportName(g, instances, p, k);
    var r := WithPair(m, n, (p, k));
    forall pair: (nat, nat) | Before(pair, p, k + 1) && Unconnected(g, instances, pair.0, pair.1)
      ensures var n := ImportName(g, instances, pair.0, pair.1);
              n in r.entries && r.entries[n].ArgumentEntry? && pair in r.entries[n].instances
    {
      assert pair == (p, k) || Before(pair, p, k);
    }
  }

  lemma SkipRecords(g: Graph, instances: seq<Id>, m: ImportMap, p: nat, k: nat)
    requires Recorded(g, instances, m, p, k) && !Unconnected(g, instances, p, k)
    ensures Recorded(g, instances, m, p, k + 1)
  {
    forall pair: (nat, nat) | Before(pair, p, k + 1) && Unconnected(g, instances, pair.0, pair.1)
      ensures Before(pair, p, k)
    {
      assert pair.0 == p && pair.1 == k ==> pair == (p, k);
    }
  }

  lemma InstanceDone(g: Graph, instances: seq<Id>, m: ImportMap, p: nat)
    requires p < |instances| && HasInstance(g, instances[p])
    requires Recorded(g, instances, m, p, |ComponentOf(g, instances[p]).imports|)
    ensures Recorded(g, instances, m, p + 1, 0)
  {
    forall pair: (nat, nat) | Before(pair, p + 1, 0) && Unconnected(g, instances, pair.0, pair.1)
      ensures Before(pair, p, |ComponentOf(g, instances[p]).imports|)
    {
    }
  }

  lemma WithPairSeen(g: Graph, m: ImportMap, n: string, pair: (nat, nat), seen: map<(Id, nat), nat>)
    requires SeenOk(g, m, seen) && (n in m.entries ==> m.entries[n].ArgumentEntry?)
    ensures SeenOk(g, WithPair(m, n, pair), seen)
  {
  }

  datatype EncodeError = NameConflict | TypeConflict | NoSuchInstance | Cycle

  /** Whether the types of two imports of the same name can be merged. */
  method Merge() returns (ok: bool)
  {
    var b: bool := *;
    return b;
  }

  method IndexOf<T(==)>(order: seq<T>, n: T) returns (index: nat)
    requires n in order
    ensures index < |order| && order[index] == n
  {
    index := 0;
    while order[index] != n
      invariant index < |order| && n in order[index..]
      decreases |order| - index
    {
      assert order[index..] == [order[index]] + order[index + 1..];
      index := index + 1;
    }
  }

  /** All components with instances are imported under their own names, which do not clash. */
  method AddComponentImports(g: Graph, components: seq<Id>) returns (m: ImportMap)
    requires Sound(g) && Enumerates(components, g.components.Keys)
    ensures MapOk(m)
    ensures forall n :: n in m.entries ==>
              && m.entries[n].ComponentEntry?
              && m.entries[n].component in g.components && g.components[m.entries[n].component].component.name == n
              && g.components[m.entries[n].component].instances != {}
    ensures forall c :: c in g.components && g.components[c].instances != {} ==>
              g.components[c].component.name in m.entries
              && m.entries[g.components[c].component.name] == ComponentEntry(c)
  {
    m := ImportMap([], map[]);
    for j := 0 to |components|
      invariant MapOk(m)
      invariant forall n :: n in m.entries ==>
                  && m.entries[n].ComponentEntry? && m.entries[n].component in components[..j]
                  && m.entries[n].component in g.components && g.components[m.entries[n].component].component.name == n
                  && g.components[m.entries[n].component].instances != {}
      invariant forall c :: c in components[..j] && c in g.components && g.components[c].instances != {} ==>
                  g.components[c].component.name in m.entries
                  && m.entries[g.components[c].component.name] == ComponentEntry(c)
    {
      var c := components[j];
      assert c in g.components;
      assert components[..j + 1] == components[..j] + [c];
      if g.components[c].instances != {} {
        var n := g.components[c].component.name;
        // The insertion asserts that the name is new: names are unique and `c` comes only once.
        assert n !in m.entries;
        m := ImportMap(m.order + [n], m.entries[n := ComponentEntry(c)]);
      }
    }
    assert components[..|components|] == components;
  }

  /** One import of one instance: recorded under its name, or an error. */
  method AddImport(g: Graph, instances: seq<Id>, m: ImportMap, seen: map<(Id, nat), nat>, p: nat, k: nat)
    returns (r: Result<(ImportMap, map<(Id, nat), nat>), EncodeError>)
    requires MapOk(m) && SeenOk(g, m, seen) && Recorded(g, instances, m, p, k) && Unconnected(g, instances, p, k)
    ensures r.Ok? ==>
              && MapOk(r.value.0) && SeenOk(g, r.value.0, r.value.1) && Recorded(g, instances, r.value.0, p, k + 1)
              && SameComponents(m, r.value.0)
    ensures var c := g.instances[instances[p]].component;
            var n := ImportName(g, instances, p, k);
            && (r == Err(NameConflict) <==> (c, k) !in seen && n in m.entries && m.entries[n].ComponentEntry?)
            && (r.Err? && r != Err(NameConflict) ==>
                  r == Err(TypeConflict) && (c, k) !in seen && n in m.entries && m.entries[n].ArgumentEntry?)
  {
    hide Recorded;
    var c := g.instances[instances[p]].component;
    var n := ComponentOf(g, instances[p]).imports[k].name;
    if (c, k) in seen {
      // Seen for another instance of the component: the entry is one for arguments.
      assert m.order[seen[(c, k)]] == n;
      WithPairRecords(g, instances, m, p, k);
      WithPairSeen(g, m, n, (p, k), seen);
      return Ok((WithPair(m, n, (p, k)), seen));
    }
    if n in m.entries {
      if m.entries[n].ComponentEntry? {
        return Err(NameConflict);
      }
      var ok := Merge();
      if !ok {
        return Err(TypeConflict);
      }
    }
    WithPairRecords(g, instances, m, p, k);
    WithPairSeen(g, m, n, (p, k), seen);
    var grown := WithPair(m, n, (p, k));
    var index := IndexOf(grown.order, n);
    return Ok((grown, seen[(c, k) := index]));
  }

  ghost predicate SameComponents(m: ImportMap, r: ImportMap) {
    forall n, c :: n in m.entries && m.entries[n] == ComponentEntry(c) <==>
                   n in r.entries && r.entries[n] == ComponentEntry(c)
  }

  ghost predicate DependenciesFirst(order: seq<string>, deps: ImportOrder.Deps) {
    forall i, d :: 0 <= i < |order| && d in ImportOrder.DepsOf(deps, order[i]) && d in order ==> d in order[..i]
  }

  /** The unconnected import has the name of a component that is imported too. */
  ghost predicate Clashes(g: Graph, instances: seq<Id>, start: ImportMap, p: nat, k: nat) {
    Unconnected(g, instances, p, k) && ImportName(g, instances, p, k) in start.entries
  }

  ghost predicate SameName(g: Graph, instances: seq<Id>, a: (nat, nat), b: (nat, nat)) {
    && Unconnected(g, instances, a.0, a.1) && Unconnected(g, instances, b.0, b.1)
    && ImportName(g, instances, a.0, a.1) == ImportName(g, instances, b.0, b.1)
  }

  lemma SameEntry(m: ImportMap, r: ImportMap, n: string)
    requires SameComponents(m, r)
    ensures n in m.entries && m.entries[n].ComponentEntry? <==> n in r.entries && r.entries[n].ComponentEntry?
    ensures n in m.entries && m.entries[n].ComponentEntry? ==> r.entries[n] == m.entries[n]
  {
    if n in m.entries && m.entries[n].ComponentEntry? {
      var c := m.entries[n].component;
      assert m.entries[n] == ComponentEntry(c);
    }
    if n in r.entries && r.entries[n].ComponentEntry? {
      var c := r.entries[n].component;
      assert r.entries[n] == ComponentEntry(c);
    }
  }

  lemma NoneClashes(g: Graph, instances: seq<Id>, start: ImportMap, m: ImportMap)
    requires Recorded(g, instances, m, |instances|, 0) && SameComponents(start, m)
    requires forall n :: n in start.entries ==> start.entries[n].ComponentEntry?
    ensures forall p: nat, k: nat :: !Clashes(g, instances, start, p, k)
  {
    forall p: nat, k: nat | Unconnected(g, instances, p, k)
      ensures ImportName(g, instances, p, k) !in start.entries
    {
      var n := ImportName(g, instances, p, k);
      assert Before((p, k), |instances|, 0);
      assert m.entries[n].ArgumentEntry?;
      SameEntry(start, m, n);
    }
  }

  /** Why recording an import failed. */
  lemma ConflictFound(g: Graph, instances: seq<Id>, start: ImportMap, m: ImportMap, p: nat, k: nat)
    requires Recorded(g, instances, m, p, k) && SameComponents(start, m) && Unconnected(g, instances, p, k)
    requires ImportName(g, instances, p, k) in m.entries
    ensures m.entries[ImportName(g, instances, p, k)].ComponentEntry? ==> Clashes(g, instances, start, p, k)
    ensures m.entries[ImportName(g, instances, p, k)].ArgumentEntry? ==>
              exists a, b :: a != b && SameName(g, instances, a, b)
  {
    var n := ImportName(g, instances, p, k);
    if m.entries[n].ArgumentEntry? {
      var pair := m.entries[n].instances[0];
      assert pair in m.entries[n].instances && Before(pair, p, k);
      assert pair != (p, k) && SameName(g, instances, pair, (p, k));
    } else {
      SameEntry(start, m, n);
    }
  }

  /** On success every unconnected import of every instance is recorded exactly once. */
  method AddInstantiationImports(g: Graph, instances: seq<Id>, start: ImportMap, deps: ImportOrder.Deps)
    returns (r: Result<ImportMap, EncodeError>)
    requires Sound(g) && Enumerates(instances, g.instances.Keys)
    requires MapOk(start) && (forall n :: n in start.entries ==> start.entries[n].ComponentEntry?)
    requires ImportOrder.Acyclic(deps)
    ensures r.Ok? ==>
              && MapOk(r.value) && Recorded(g, instances, r.value, |instances|, 0)
              && SameComponents(start, r.value)
              && DependenciesFirst(r.value.order, deps)
    ensures r.Ok? ==> forall p: nat, k: nat :: !Clashes(g, instances, start, p, k)
    ensures r == Err(NameConflict) ==> exists p: nat, k: nat :: Clashes(g, instances, start, p, k)
    ensures r == Err(TypeConflict) ==> exists a, b :: a != b && SameName(g, instances, a, b)
    ensures r.Err? ==> r.error in {NameConflict, TypeConflict}
  {
    hide Recorded;
    hide SeenOk;
    hide SameComponents;
    hide Sound;
    var m, seen: map<(Id, nat), nat> := start, map[];
    StartRecorded(g, instances, start);
    for p: nat := 0 to |instances|
      invariant MapOk(m) && SeenOk(g, m, seen) && Recorded(g, instances, m, p, 0) && SameComponents(start, m)
    {
      SoundHasInstance(g, instances[p]);
      var count := |ComponentOf(g, instances[p]).imports|;
      for k: nat := 0 to count
        invariant MapOk(m) && SeenOk(g, m, seen) && Recorded(g, instances, m, p, k) && SameComponents(start, m)
      {
        if k in g.instances[instances[p]].connected {
          SkipRecords(g, instances, m, p, k);
        } else {
          var next := AddImport(g, instances, m, seen, p, k);
          if next.Err? {
            ConflictFound(g, instances, start, m, p, k);
            return Err(next.error);
          }
          ComponentsStay(start, m, next.value.0);
          m, seen := next.value.0, next.value.1;
        }
      }
      InstanceDone(g, instances, m, p);
    }
    NoneClashes(g, instances, start, m);
    var sorted := ImportOrder.SortImports(m.order, deps);
    SortedMapOk(m, sorted);
    SortKeeps(g, instances, m, sorted);
    r := Ok(ImportMap(sorted, m.entries));
    ComponentsStaySorted(start, m, sorted);
  }

  lemma StartRecorded(g: Graph, instances: seq<Id>, start: ImportMap)
    requires forall n :: n in start.entries ==> start.entries[n].ComponentEntry?
    ensures Recorded(g, instances, start, 0, 0) && SeenOk(g, start, map[]) && SameComponents(start, start)
  {
  }

  lemma ComponentsStay(a: ImportMap, b: ImportMap, c: ImportMap)
    requires SameComponents(a, b) && SameComponents(b, c)
    ensures SameComponents(a, c)
  {
  }

  lemma ComponentsStaySorted(a: ImportMap, b: ImportMap, sorted: seq<string>)
    requires SameComponents(a, b)
    ensures SameComponents(a, ImportMap(sorted, b.entries))
  {
  }

  lemma SortedMapOk(m: ImportMap, sorted: seq<string>)
    requires MapOk(m) && Distinct(sorted) && multiset(sorted) == multiset(m.order)
    ensures MapOk(ImportMap(sorted, m.entries)) && forall n :: n in sorted <==> n in m.order
  {
    forall n: string
      ensures n in sorted <==> n in m.order
    {
      assert n in sorted <==> n in multiset(sorted);
      assert n in m.order <==> n in multiset(m.order);
    }
  }

  lemma SortKeeps(g: Graph, instances: seq<Id>, m: ImportMap, sorted: seq<string>)
    requires Recorded(g, instances, m, |instances|, 0)
    ensures Recorded(g, instances, ImportMap(sorted, m.entries), |instances|, 0)
  {
  }
}
