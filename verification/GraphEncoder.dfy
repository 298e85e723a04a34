/**
 wasm-compose's encoder: the imports, the definitions of components, and the instantiations
 with their arguments. An index in one of the index spaces of the output is modelled by the
 position of the item it denotes.
 */
module GraphEncoder {
  import opened Common
  import opened CompositionGraph
  import opened GraphImports
  import ImportOrder

  // ----- what is encoded -----

  datatype Arg = Arg(name: string, item: nat)

  datatype Item =
    | ImportComponent(name: string, component: Id)
    | ImportArgument(name: string)
    | DefineComponent(component: Id)
    | Instantiate(component: nat, args: seq<Arg>)
    | AliasExport(instance: nat, name: string)
    | ExportItem(name: string, item: nat)

  // ----- the state of the encoder -----

  datatype State = State(
    items: seq<Item>,
    components: map<Id, nat>,
    instances: map<Id, nat>,
    imported: map<(nat, nat), nat>,
    aliases: map<(Id, nat), nat>)

  /** Items only refer to earlier ones. */
  ghost predicate Backward(items: seq<Item>) {
    forall p :: 0 <= p < |items| ==>
      match items[p]
      case Instantiate(c, args) => c < p && forall j :: 0 <= j < |args| ==> args[j].item < p
      case AliasExport(i, _) => i < p
      case ExportItem(_, i) => i < p
      case _ => true
  }

  ghost predicate ComponentsOk(st: State) {
    forall c :: c in st.components ==>
      && st.components[c] < |st.items|
      && (st.items[st.components[c]] == DefineComponent(c)
          || (st.items[st.components[c]].ImportComponent? && st.items[st.components[c]].component == c))
  }

  /** Exactly the unconnected imports have an imported item, of the right name. */
  ghost predicate ImportedOk(g: Graph, order: seq<Id>, st: State) {
    && (forall p: nat, k: nat :: (p, k) in st.imported <==> Unconnected(g, order, p, k))
    && forall p: nat, k: nat :: (p, k) in st.imported ==>
         && st.imported[(p, k)] < |st.items|
         && st.items[st.imported[(p, k)]] == ImportArgument(ImportName(g, order, p, k))
  }

  ghost predicate AliasesOk(g: Graph, st: State) {
    forall i, e :: (i, e) in st.aliases ==>
      && i in st.instances && HasInstance(g, i) && e < |ComponentOf(g, i).exports|
      && st.aliases[(i, e)] < |st.items|
      && st.items[st.aliases[(i, e)]] == AliasExport(st.instances[i], ComponentOf(g, i).exports[e].name)
  }

  /** `item` is what connection `from` of instance `s` supplies. */
  ghost predicate Supplies(st: State, s: Id, source: Option<nat>, item: nat) {
    match source
    case None => s in st.instances && item == st.instances[s]
    case Some(e) => (s, e) in st.aliases && item == st.aliases[(s, e)]
  }

  /** `item` is the argument for import `k` of the instance at position `p`. */
  ghost predicate RightItem(g: Graph, order: seq<Id>, st: State, p: nat, k: nat, item: nat)
    requires p < |order|
  {
    && (forall s :: OnEdge(g, s, order[p], k) ==> Supplies(st, s, g.edges[(s, order[p])][k], item))
    && ((forall s :: !OnEdge(g, s, order[p], k)) ==> (p, k) in st.imported && item == st.imported[(p, k)])
  }

  /** `ks` says which import each argument is for: each import once. */
  ghost predicate ArgsFor(g: Graph, order: seq<Id>, st: State, p: nat, args: seq<Arg>, ks: seq<nat>)
    requires p < |order|
  {
    && HasInstance(g, order[p]) && |ks| == |args| && Distinct(ks)
    && forall j :: 0 <= j < |ks| ==>
         && ks[j] < |ComponentOf(g, order[p]).imports|
         && args[j].name == ComponentOf(g, order[p]).imports[ks[j]].name
         && args[j].item < |st.items|
         && RightItem(g, order, st, p, ks[j], args[j].item)
  }

  ghost predicate Complete(g: Graph, order: seq<Id>, st: State, p: nat, args: seq<Arg>)
    requires p < |order|
  {
    exists ks :: ArgsFor(g, order, st, p, args, ks)
              && forall k: nat :: k < |ComponentOf(g, order[p]).imports| ==> k in ks
  }

  /** The instance at position `p`, if encoded, is one instantiation with all its arguments. */
  ghost predicate Instantiated(g: Graph, order: seq<Id>, st: State, p: nat)
    requires p < |order|
  {
    order[p] in st.instances ==>
      && HasInstance(g, order[p])
      && st.instances[order[p]] < |st.items|
      && st.items[st.instances[order[p]]].Instantiate?
      && g.instances[order[p]].component in st.components
      && st.items[st.instances[order[p]]].component == st.components[g.instances[order[p]].component]
      && Complete(g, order, st, p, st.items[st.instances[order[p]]].args)
  }

  /** Every instantiation in the output is that of exactly one instance. */
  ghost predicate OnlyThese(st: State) {
    && (forall p :: 0 <= p < |st.items| && st.items[p].Instantiate? ==>
          exists i :: i in st.instances && st.instances[i] == p)
    && forall i, j :: i in st.instances && j in st.instances && st.instances[i] == st.instances[j] ==> i == j
  }

  ghost predicate Encoded(g: Graph, order: seq<Id>, st: State) {
    && Backward(st.items) && ComponentsOk(st) && ImportedOk(g, order, st) && AliasesOk(g, st)
    && (forall i :: i in st.instances ==> i in order)
    && (forall p: nat :: p < |order| ==> Instantiated(g, order, st, p))
    && OnlyThese(st)
  }

  // ----- everything only grows -----

  /** The item neither imports anything nor defines a component. */
  predicate IsUse(item: Item) {
    item.Instantiate? || item.AliasExport? || item.ExportItem?
  }

  ghost predicate Grows(a: State, b: State) {
    && (forall p :: |a.items| <= p < |b.items| ==> IsUse(b.items[p]))
    && a.items <= b.items && a.components == b.components && a.imported == b.imported
    && (forall i :: i in a.instances ==> i in b.instances && b.instances[i] == a.instances[i])
    && (forall x :: x in a.aliases ==> x in b.aliases && b.aliases[x] == a.aliases[x])
  }

  lemma GrowsTransitive(a: State, b: State, c: State)
    requires Grows(a, b) && Grows(b, c)
    ensures Grows(a, c)
  {
    forall p | |a.items| <= p < |c.items|
      ensures IsUse(c.items[p])
    {
      assert p < |b.items| ==> c.items[p] == b.items[p];
    }
  }

  lemma GrowsSelf(a: State)
    ensures Grows(a, a)
  {
  }

  lemma RightItemGrows(g: Graph, order: seq<Id>, a: State, b: State, p: nat, k: nat, item: nat)
    requires p < |order| && Grows(a, b) && RightItem(g, order, a, p, k, item)
    ensures RightItem(g, order, b, p, k, item)
  {
  }

  lemma ArgsForGrows(g: Graph, order: seq<Id>, a: State, b: State, p: nat, args: seq<Arg>, ks: seq<nat>)
    requires p < |order| && Grows(a, b) && ArgsFor(g, order, a, p, args, ks)
    ensures ArgsFor(g, order, b, p, args, ks)
  {
    hide RightItem;
    forall j | 0 <= j < |ks|
      ensures RightItem(g, order, b, p, ks[j], args[j].item)
    {
      RightItemGrows(g, order, a, b, p, ks[j], args[j].item);
    }
  }

  lemma InstantiatedGrows(g: Graph, order: seq<Id>, a: State, b: State, p: nat)
    requires p < |order| && Grows(a, b) && Instantiated(g, order, a, p) && order[p] in a.instances
    ensures Instantiated(g, order, b, p)
  {
    hide ArgsFor;
    var args := a.items[a.instances[order[p]]].args;
    var ks :| ArgsFor(g, order, a, p, args, ks) && forall k: nat :: k < |ComponentOf(g, order[p]).imports| ==> k in ks;
    ArgsForGrows(g, order, a, b, p, args, ks);
    assert Complete(g, order, b, p, args);
  }

  // ----- one step at a time -----

  /** A new item that is no instantiation and refers back. */
  ghost predicate PlainItem(item: Item, at: nat) {
    match item
    case Instantiate(_, _) => false
    case AliasExport(i, _) => i < at
    case ExportItem(_, i) => i < at
    case _ => true
  }

  function Pushed(st: State, item: Item): State {
    st.(items := st.items + [item])
  }

  lemma BackwardMore(items: seq<Item>, item: Item)
    requires Backward(items)
    requires match item
             case Instantiate(c, args) => c < |items| && forall j :: 0 <= j < |args| ==> args[j].item < |items|
             case AliasExport(i, _) => i < |items|
             case ExportItem(_, i) => i < |items|
             case _ => true
    ensures Backward(items + [item])
  {
  }

  lemma OnlyTheseMore(st: State, item: Item)
    requires OnlyThese(st) && !item.Instantiate?
    ensures OnlyThese(Pushed(st, item))
  {
  }

  lemma AllInstantiatedGrow(g: Graph, order: seq<Id>, a: State, b: State)
    requires forall p: nat :: p < |order| ==> Instantiated(g, order, a, p)
    requires Grows(a, b) && a.instances == b.instances
    ensures forall p: nat :: p < |order| ==> Instantiated(g, order, b, p)
  {
    hide Complete;
    forall p: nat | p < |order|
      ensures Instantiated(g, order, b, p)
    {
      if order[p] in a.instances {
        InstantiatedGrows(g, order, a, b, p);
      }
    }
  }

  lemma PushKeeps(g: Graph, order: seq<Id>, st: State, item: Item)
    requires Encoded(g, order, st) && PlainItem(item, |st.items|) && IsUse(item)
    ensures Encoded(g, order, Pushed(st, item)) && Grows(st, Pushed(st, item))
  {
    hide Instantiated;
    hide OnlyThese;
    hide Backward;
    var r := Pushed(st, item);
    BackwardMore(st.items, item);
    OnlyTheseMore(st, item);
    AllInstantiatedGrow(g, order, st, r);
    assert ImportedOk(g, order, r);
  }

  function WithAlias(st: State, i: Id, e: nat, item: Item): State {
    Pushed(st, item).(aliases := st.aliases[(i, e) := |st.items|])
  }

  lemma AliasKeeps(g: Graph, order: seq<Id>, st: State, i: Id, e: nat)
    requires Encoded(g, order, st) && i in st.instances && HasInstance(g, i) && e < |ComponentOf(g, i).exports|
    requires (i, e) !in st.aliases && st.instances[i] < |st.items|
    ensures var r := WithAlias(st, i, e, AliasExport(st.instances[i], ComponentOf(g, i).exports[e].name));
            Encoded(g, order, r) && Grows(st, r)
  {
    hide Instantiated;
    hide OnlyThese;
    hide Backward;
    hide ImportedOk;
    hide ComponentsOk;
    var item := AliasExport(st.instances[i], ComponentOf(g, i).exports[e].name);
    var r := WithAlias(st, i, e, item);
    PushKeeps(g, order, st, item);
    AllInstantiatedGrow(g, order, st, r);
    AliasesApart(g, order, Pushed(st, item), r.aliases);
    assert AliasesOk(g, r);
  }

  lemma AliasesApart(g: Graph, order: seq<Id>, st: State, aliases: map<(Id, nat), nat>)
    ensures ImportedOk(g, order, st) ==> ImportedOk(g, order, st.(aliases := aliases))
    ensures ComponentsOk(st) ==> ComponentsOk(st.(aliases := aliases))
    ensures OnlyThese(st) ==> OnlyThese(st.(aliases := aliases))
  {
  }

  function WithInstantiation(st: State, i: Id, component: nat, args: seq<Arg>): State {
    Pushed(st, Instantiate(component, args)).(instances := st.instances[i := |st.items|])
  }

  lemma InstantiationKeeps(g: Graph, order: seq<Id>, st: State, p: nat, args: seq<Arg>)
    requires Encoded(g, order, st) && Distinct(order) && p < |order| && order[p] !in st.instances
    requires HasInstance(g, order[p]) && g.instances[order[p]].component in st.components
    requires Complete(g, order, st, p, args)
    ensures var r := WithInstantiation(st, order[p], st.components[g.instances[order[p]].component], args);
            Encoded(g, order, r) && Grows(st, r)
  {
    hide RightItem;
    var c := st.components[g.instances[order[p]].component];
    var r := WithInstantiation(st, order[p], c, args);
    var ks :| ArgsFor(g, order, st, p, args, ks) && forall k: nat :: k < |ComponentOf(g, order[p]).imports| ==> k in ks;
    ArgsForGrows(g, order, st, r, p, args, ks);
    hide ArgsFor;
    assert Complete(g, order, r, p, args);
    forall q: nat | q < |order|
      ensures Instantiated(g, order, r, q)
    {
      if q != p && order[q] in st.instances {
        InstantiatedGrows(g, order, st, r, q);
      }
    }
    InstantiationRest(g, order, st, p, args, ks);
  }

  lemma InstantiationRest(g: Graph, order: seq<Id>, st: State, p: nat, args: seq<Arg>, ks: seq<nat>)
    requires Encoded(g, order, st) && p < |order| && order[p] !in st.instances
    requires HasInstance(g, order[p]) && g.instances[order[p]].component in st.components
    requires ArgsFor(g, order, st, p, args, ks)
    ensures var r := WithInstantiation(st, order[p], st.components[g.instances[order[p]].component], args);
            Backward(r.items) && ComponentsOk(r) && ImportedOk(g, order, r) && AliasesOk(g, r) && OnlyThese(r)
  {
    hide RightItem;
    var c := st.components[g.instances[order[p]].component];
    var r := WithInstantiation(st, order[p], c, args);
    BackwardMore(st.items, Instantiate(c, args));
    forall q | 0 <= q < |r.items| && r.items[q].Instantiate?
      ensures exists i :: i in r.instances && r.instances[i] == q
    {
      if q == |st.items| {
        assert r.instances[order[p]] == q;
      } else {
        var i :| i in st.instances && st.instances[i] == q;
        assert r.instances[i] == q;
      }
    }
    forall i, j | i in r.instances && j in r.instances && r.instances[i] == r.instances[j]
      ensures i == j
    {
      InstancePositions(g, order, st, i);
      InstancePositions(g, order, st, j);
    }
  }

  lemma InstancePositions(g: Graph, order: seq<Id>, st: State, i: Id)
    requires Encoded(g, order, st)
    ensures i in st.instances ==> i in order && st.instances[i] < |st.items| && HasInstance(g, i)
  {
    if i in st.instances {
      var q: nat :| q < |order| && order[q] == i;
      assert Instantiated(g, order, st, q);
    }
  }

  // ----- the encoder -----

  ghost predicate InEntry(m: ImportMap, n: string, x: (nat, nat)) {
    n in m.entries && m.entries[n].ArgumentEntry? && x in m.entries[n].instances
  }

  /** No pair is under two names, no component either. */
  ghost predicate OneName(m: ImportMap) {
    && (forall n, n', x :: InEntry(m, n, x) && InEntry(m, n', x) ==> n == n')
    && (forall n, n' :: n in m.entries && n' in m.entries && m.entries[n].ComponentEntry? ==>
          m.entries[n] == m.entries[n'] ==> n == n')
  }

  /** Exactly the components under the names are encoded. */
  ghost predicate ComponentsOf(m: ImportMap, components: map<Id, nat>, names: set<string>) {
    forall c :: c in components <==> exists n :: n in names && n in m.entries && m.entries[n] == ComponentEntry(c)
  }

  /** Exactly the arguments under the names are imported, by their names. */
  ghost predicate ArgumentsOf(m: ImportMap, imported: map<(nat, nat), nat>, items: seq<Item>, names: set<string>) {
    && (forall x :: x in imported <==> exists n :: n in names && InEntry(m, n, x))
    && (forall n, x :: n in names && InEntry(m, n, x) && x in imported ==>
          imported[x] < |items| && items[imported[x]] == ImportArgument(n))
  }

  /** Nothing is instantiated yet. */
  ghost predicate NoInstances(st: State) {
    && Backward(st.items) && ComponentsOk(st) && st.instances == map[] && st.aliases == map[]
    && forall p :: 0 <= p < |st.items| ==> !st.items[p].Instantiate?
  }

  /** The imports encoded so far: those under `names`. */
  ghost predicate ImportedSoFar(m: ImportMap, st: State, names: set<string>) {
    NoInstances(st) && ComponentsOf(m, st.components, names) && ArgumentsOf(m, st.imported, st.items, names)
  }

  /** All pairs get the same item. */
  function Extended(imported: map<(nat, nat), nat>, pairs: seq<(nat, nat)>, item: nat): map<(nat, nat), nat> {
    imported + map x | x in pairs :: item
  }

  lemma ArgumentsOneMore(m: ImportMap, imported: map<(nat, nat), nat>, items: seq<Item>, names: set<string>,
      n: string)
    requires ArgumentsOf(m, imported, items, names) && n !in names && OneName(m)
    requires n in m.entries && m.entries[n].ArgumentEntry?
    ensures ArgumentsOf(m, Extended(imported, m.entries[n].instances, |items|), items + [ImportArgument(n)],
                        names + {n})
  {
    var after := Extended(imported, m.entries[n].instances, |items|);
    forall x
      ensures x in after <==> exists n' :: n' in names + {n} && InEntry(m, n', x)
    {
      if x in m.entries[n].instances {
        assert InEntry(m, n, x);
      } else if x in imported {
        var n' :| n' in names && InEntry(m, n', x);
        assert n' in names + {n};
      }
    }
    forall n', x | n' in names + {n} && InEntry(m, n', x) && x in after
      ensures after[x] < |items| + 1 && (items + [ImportArgument(n)])[after[x]] == ImportArgument(n')
    {
      if n' == n {
        assert after[x] == |items|;
      } else {
        assert !InEntry(m, n, x);
        assert x in imported && after[x] == imported[x];
      }
    }
  }

  lemma ArgumentsNoMore(m: ImportMap, imported: map<(nat, nat), nat>, items: seq<Item>, names: set<string>,
      n: string, item: Item)
    requires ArgumentsOf(m, imported, items, names)
    requires n in m.entries && m.entries[n].ComponentEntry?
    ensures ArgumentsOf(m, imported, items + [item], names + {n})
  {
    forall x
      ensures x in imported <==> exists n' :: n' in names + {n} && InEntry(m, n', x)
    {
      if x in imported {
        var n' :| n' in names && InEntry(m, n', x);
        assert n' in names + {n};
      }
    }
  }

  lemma ComponentsNoMore(m: ImportMap, components: map<Id, nat>, names: set<string>, n: string)
    requires ComponentsOf(m, components, names) && n in m.entries && m.entries[n].ArgumentEntry?
    ensures ComponentsOf(m, components, names + {n})
  {
    forall c | c in components
      ensures exists n' :: n' in names + {n} && n' in m.entries && m.entries[n'] == ComponentEntry(c)
    {
      var n' :| n' in names && n' in m.entries && m.entries[n'] == ComponentEntry(c);
      assert n' in names + {n};
    }
  }

  lemma ComponentsOneMore(m: ImportMap, components: map<Id, nat>, names: set<string>, n: string, at: nat)
    requires ComponentsOf(m, components, names) && n !in names && OneName(m)
    requires n in m.entries && m.entries[n].ComponentEntry?
    ensures m.entries[n].component !in components
    ensures ComponentsOf(m, components[m.entries[n].component := at], names + {n})
  {
    var c := m.entries[n].component;
    forall d | d in components[c := at]
      ensures exists n' :: n' in names + {n} && n' in m.entries && m.entries[n'] == ComponentEntry(d)
    {
      if d == c {
        assert n in names + {n} && m.entries[n] == ComponentEntry(d);
      } else {
        var n' :| n' in names && n' in m.entries && m.entries[n'] == ComponentEntry(d);
        assert n' in names + {n};
      }
    }
  }

  lemma ImportOneArgument(m: ImportMap, st: State, names: set<string>, n: string)
    requires ImportedSoFar(m, st, names) && n !in names && OneName(m)
    requires n in m.entries && m.entries[n].ArgumentEntry?
    ensures var imported := Extended(st.imported, m.entries[n].instances, |st.items|);
            var r := Pushed(st, ImportArgument(n)).(imported := imported);
            ImportedSoFar(m, r, names + {n})
  {
    hide NoInstances;
    hide ArgumentsOf;
    hide ComponentsOf;
    hide OneName;
    NoInstancesMore(st, ImportArgument(n), Extended(st.imported, m.entries[n].instances, |st.items|));
    ArgumentsOneMore(m, st.imported, st.items, names, n);
    ComponentsNoMore(m, st.components, names, n);
  }

  lemma NoInstancesMore(st: State, item: Item, imported: map<(nat, nat), nat>)
    requires NoInstances(st) && PlainItem(item, |st.items|)
    ensures NoInstances(Pushed(st, item).(imported := imported))
    ensures item.ImportComponent? || item.DefineComponent? ==>
              NoInstances(Pushed(st, item).(imported := imported,
                                            components := st.components[item.component := |st.items|]))
  {
    BackwardMore(st.items, item);
    hide Backward;
  }

  lemma ImportOneComponent(m: ImportMap, st: State, names: set<string>, n: string)
    requires ImportedSoFar(m, st, names) && n !in names && OneName(m)
    requires n in m.entries && m.entries[n].ComponentEntry?
    ensures var c := m.entries[n].component;
            var r := Pushed(st, ImportComponent(n, c)).(components := st.components[c := |st.items|]);
            c !in st.components && ImportedSoFar(m, r, names + {n})
  {
    var c := m.entries[n].component;
    hide NoInstances;
    hide ArgumentsOf;
    hide ComponentsOf;
    hide OneName;
    NoInstancesMore(st, ImportComponent(n, c), st.imported);
    ArgumentsNoMore(m, st.imported, st.items, names, n, ImportComponent(n, c));
    ComponentsOneMore(m, st.components, names, n, |st.items|);
  }

  lemma ImportsAreEncoded(g: Graph, order: seq<Id>, m: ImportMap, st: State)
    requires MapOk(m) && Recorded(g, order, m, |order|, 0)
    requires NoInstances(st) && ArgumentsOf(m, st.imported, st.items, m.entries.Keys)
    ensures Encoded(g, order, st) && st.instances == map[]
  {
    hide Backward;
    hide ComponentsOk;
    forall p: nat, k: nat
      ensures (p, k) in st.imported <==> Unconnected(g, order, p, k)
      ensures (p, k) in st.imported ==>
                && st.imported[(p, k)] < |st.items|
                && st.items[st.imported[(p, k)]] == ImportArgument(ImportName(g, order, p, k))
    {
      if (p, k) in st.imported {
        var n :| n in m.entries.Keys && InEntry(m, n, (p, k));
        assert ImportName(g, order, p, k) == n;
      }
      if Unconnected(g, order, p, k) {
        assert Before((p, k), |order|, 0);
        assert InEntry(m, ImportName(g, order, p, k), (p, k));
      }
    }
  }

  lemma RecordedOneName(g: Graph, order: seq<Id>, start: ImportMap, m: ImportMap)
    requires Recorded(g, order, m, |order|, 0) && SameComponents(start, m) && OneComponentName(g, start)
    ensures OneName(m)
  {
    forall n, n', x | InEntry(m, n, x) && InEntry(m, n', x)
      ensures n == n'
    {
      assert ImportName(g, order, x.0, x.1) == n;
    }
    forall n, n' | n in m.entries && n' in m.entries && m.entries[n].ComponentEntry? && m.entries[n] == m.entries[n']
      ensures n == n'
    {
      var c := m.entries[n].component;
      assert start.entries[n] == ComponentEntry(c) && start.entries[n'] == ComponentEntry(c);
    }
  }

  ghost predicate OneComponentName(g: Graph, start: ImportMap) {
    forall n :: n in start.entries && start.entries[n].ComponentEntry? ==>
      start.entries[n].component in g.components && g.components[start.entries[n].component].component.name == n
  }

  ghost function Names(order: seq<string>): set<string> {
    set n | n in order
  }

  /** The components that have instances, each once if listed once. */
  function Definitions(g: Graph, order: seq<Id>): seq<Item> {
    if order == [] then []
    else
      var c := order[|order| - 1];
      Definitions(g, order[..|order| - 1])
      + if c in g.components && g.components[c].instances != {} then [DefineComponent(c)] else []
  }

  lemma NoDefinitions(g: Graph)
    ensures Definitions(g, []) == []
  {
  }

  lemma DefinitionsMore(g: Graph, order: seq<Id>, c: Id)
    ensures Definitions(g, order + [c]) ==
            Definitions(g, order)
            + if c in g.components && g.components[c].instances != {} then [DefineComponent(c)] else []
  {
    assert (order + [c])[..|order|] == order;
  }

  /** What the graph library promises of a topological order of the connected instances. */
  ghost predicate SourcesFirst(g: Graph, ordering: seq<Id>) {
    && Enumerates(ordering, g.nodes)
    && forall a, b :: 0 <= a < b < |ordering| ==> (ordering[b], ordering[a]) !in g.edges
  }

  /** The exports of the output, in order. */
  function ExportsIn(items: seq<Item>): seq<(string, nat)> {
    if items == [] then []
    else
      var n := |items| - 1;
      ExportsIn(items[..n]) + if items[n].ExportItem? then [(items[n].name, items[n].item)] else []
  }

  lemma NothingExported()
    ensures ExportsIn([]) == []
  {
  }

  lemma ExportsOneMore(items: seq<Item>, item: Item)
    ensures ExportsIn(items + [item]) == ExportsIn(items) + if item.ExportItem? then [(item.name, item.item)] else []
  {
    assert (items + [item])[..|items|] == items;
  }

  /** The import under a name of the import map. */
  function ImportOf(m: ImportMap, n: string): Item {
    if n in m.entries && m.entries[n].ComponentEntry? then ImportComponent(n, m.entries[n].component)
    else ImportArgument(n)
  }

  /** Imports are encoded in the order of the map, one for each name. */
  ghost predicate ImportsInOrder(m: ImportMap, items: seq<Item>, n: nat) {
    |items| == n <= |m.order| && forall j :: 0 <= j < n ==> items[j] == ImportOf(m, m.order[j])
  }

  lemma NoImports(m: ImportMap)
    ensures ImportsInOrder(m, [], 0)
  {
  }

  lemma OneMoreImport(m: ImportMap, items: seq<Item>, n: nat, item: Item)
    requires ImportsInOrder(m, items, n) && n < |m.order| && m.order[n] in m.entries
    requires match m.entries[m.order[n]]
             case ComponentEntry(c) => item == ImportComponent(m.order[n], c)
             case ArgumentEntry(_) => item == ImportArgument(m.order[n])
    ensures ImportsInOrder(m, items + [item], n + 1)
  {
  }

  // ----- the components of the output -----

  ghost predicate IsUsed(g: Graph, c: Id) {
    c in g.components && g.components[c].instances != {}
  }

  /** The item that stands for the component: its definition, or its import under its own name. */
  ghost predicate StandsFor(g: Graph, define: bool, item: Item, c: Id) {
    c in g.components
    && item == if define then DefineComponent(c) else ImportComponent(g.components[c].component.name, c)
  }

  predicate IsComponentItem(item: Item) {
    item.DefineComponent? || item.ImportComponent?
  }

  /** Every component that has instances is defined, or else imported, exactly once, and no other is. */
  ghost predicate ComponentItems(g: Graph, define: bool, items: seq<Item>) {
    && (forall c :: IsUsed(g, c) ==> exists p :: 0 <= p < |items| && StandsFor(g, define, items[p], c))
    && (forall p :: 0 <= p < |items| && IsComponentItem(items[p]) ==>
          IsUsed(g, items[p].component) && StandsFor(g, define, items[p], items[p].component))
    && (forall p, q :: 0 <= p < q < |items| && IsComponentItem(items[p]) && IsComponentItem(items[q]) ==>
          items[p].component != items[q].component)
  }

  lemma ComponentItemsStay(g: Graph, define: bool, a: State, b: State)
    requires ComponentItems(g, define, a.items) && Grows(a, b)
    ensures ComponentItems(g, define, b.items)
  {
    forall c | IsUsed(g, c)
      ensures exists p :: 0 <= p < |b.items| && StandsFor(g, define, b.items[p], c)
    {
      var p :| 0 <= p < |a.items| && StandsFor(g, define, a.items[p], c);
      assert b.items[p] == a.items[p];
    }
    forall p | 0 <= p < |b.items| && IsComponentItem(b.items[p])
      ensures p < |a.items| && b.items[p] == a.items[p]
    {
      assert |a.items| <= p ==> IsUse(b.items[p]);
    }
  }

  lemma {:induction false} DefinitionsAre(g: Graph, order: seq<Id>)
    requires Distinct(order)
    ensures forall p :: 0 <= p < |Definitions(g, order)| ==>
              var item := Definitions(g, order)[p];
              item.DefineComponent? && item.component in order && IsUsed(g, item.component)
    ensures forall c :: c in order && IsUsed(g, c) ==> DefineComponent(c) in Definitions(g, order)
    ensures forall p, q :: 0 <= p < q < |Definitions(g, order)| ==> Definitions(g, order)[p] != Definitions(g, order)[q]
  {
    if order != [] {
      var n := |order| - 1;
      assert order == order[..n] + [order[n]];
      DefinitionsAre(g, order[..n]);
    }
  }

  /** The imports are of arguments only; then the components are defined. */
  lemma DefinedItems(g: Graph, components: seq<Id>, imports: seq<Item>)
    requires Enumerates(components, g.components.Keys)
    requires forall j :: 0 <= j < |imports| ==> imports[j].ImportArgument?
    ensures ComponentItems(g, true, imports + Definitions(g, components))
  {
    hide Definitions;
    var defined := Definitions(g, components);
    var items := imports + defined;
    DefinitionsAre(g, components);
    forall c | IsUsed(g, c)
      ensures exists p :: 0 <= p < |items| && StandsFor(g, true, items[p], c)
    {
      var p :| 0 <= p < |defined| && defined[p] == DefineComponent(c);
      assert items[|imports| + p] == defined[p];
    }
    forall p | 0 <= p < |items| && IsComponentItem(items[p])
      ensures |imports| <= p && items[p] == defined[p - |imports|]
    {
    }
  }

  lemma ImportedItems(g: Graph, start: ImportMap, m: ImportMap, items: seq<Item>)
    requires MapOk(m) && SameComponents(start, m)
    requires forall n :: n in start.entries ==>
               && start.entries[n].ComponentEntry? && IsUsed(g, start.entries[n].component)
               && g.components[start.entries[n].component].component.name == n
    requires forall c :: IsUsed(g, c) ==>
               g.components[c].component.name in start.entries
               && start.entries[g.components[c].component.name] == ComponentEntry(c)
    requires ImportsInOrder(m, items, |m.order|)
    ensures ComponentItems(g, false, items)
  {
    hide SameComponents;
    forall c | IsUsed(g, c)
      ensures exists p :: 0 <= p < |items| && StandsFor(g, false, items[p], c)
    {
      var n := g.components[c].component.name;
      SameEntry(start, m, n);
      var p :| 0 <= p < |m.order| && m.order[p] == n;
      assert StandsFor(g, false, items[p], c);
    }
    forall p | 0 <= p < |items| && IsComponentItem(items[p])
      ensures IsUsed(g, items[p].component) && StandsFor(g, false, items[p], items[p].component)
      ensures g.components[items[p].component].component.name == m.order[p]
    {
      SameEntry(start, m, m.order[p]);
    }
  }

  lemma OnlyArguments(start: ImportMap, m: ImportMap, items: seq<Item>)
    requires start.entries == map[] && SameComponents(start, m)
    requires ImportsInOrder(m, items, |m.order|)
    ensures forall j :: 0 <= j < |items| ==> items[j].ImportArgument?
  {
    hide SameComponents;
    forall j | 0 <= j < |items|
      ensures items[j].ImportArgument?
    {
      SameEntry(start, m, m.order[j]);
    }
  }

  /** The fields that one encoding fills, from empty. */
  class Encoder {
    const g: Graph
    const components: seq<Id>
    const instances: seq<Id>

    var items: seq<Item>
    var encodedComponents: map<Id, nat>
    var encodedInstances: map<Id, nat>
    var importedArgs: map<(nat, nat), nat>
    var aliases: map<(Id, nat), nat>

    ghost function Now(): State
      reads this
    {
      State(items, encodedComponents, encodedInstances, importedArgs, aliases)
    }

    constructor (g: Graph, components: seq<Id>, instances: seq<Id>)
      ensures this.g == g && this.components == components && this.instances == instances
      ensures Now() == State([], map[], map[], map[], map[])
    {
      this.g, this.components, this.instances := g, components, instances;
      items, encodedComponents, encodedInstances, importedArgs, aliases := [], map[], map[], map[], map[];
    }

    method Emit(item: Item) returns (index: nat)
      modifies this`items
      ensures items == old(items) + [item] && index == old(|items|)
    {
      index := |items|;
      items := items + [item];
    }

    method EncodeImports(m: ImportMap)
      requires Now() == State([], map[], map[], map[], map[])
      requires MapOk(m) && OneName(m)
      modifies this
      ensures ImportedSoFar(m, Now(), m.entries.Keys) && ExportsIn(items) == []
      ensures ImportsInOrder(m, items, |m.order|)
    {
      hide ImportsInOrder;
      hide ImportedSoFar;
      hide OneName;
      hide Extended;
      hide ExportsIn;
      NothingImported(m);
      NothingExported();
      assert Names(m.order[..0]) == {};
      assert ImportsInOrder(m, [], 0) by { NoImports(m); }
      for j := 0 to |m.order|
        invariant ImportedSoFar(m, Now(), Names(m.order[..j])) && ExportsIn(items) == []
        invariant ImportsInOrder(m, items, j)
      {
        var n := m.order[j];
        ghost var names := Names(m.order[..j]);
        ghost var st := Now();
        assert m.order[..j + 1] == m.order[..j] + [n];
        assert Names(m.order[..j + 1]) == names + {n};
        match m.entries[n] {
          case ComponentEntry(c) =>
            ImportOneComponent(m, st, names, n);
            ExportsOneMore(items, ImportComponent(n, c));
            OneMoreImport(m, items, j, ImportComponent(n, c));
            var index := Emit(ImportComponent(n, c));
            // The insertion asserts that the component is new.
            assert c !in encodedComponents;
            encodedComponents := encodedComponents[c := index];
          case ArgumentEntry(pairs) =>
            ImportOneArgument(m, st, names, n);
            ExportsOneMore(items, ImportArgument(n));
            OneMoreImport(m, items, j, ImportArgument(n));
            var index := Emit(ImportArgument(n));
            importedArgs := Extended(importedArgs, pairs, index);
        }
      }
      assert m.order[..|m.order|] == m.order;
      assert Names(m.order) == m.entries.Keys;
    }

    /** Defines every component that has an instance. */
    method EncodeComponents()
      requires Enumerates(components, g.components.Keys) && encodedComponents == map[]
      requires NoInstances(Now())
      modifies this`items, this`encodedComponents
      ensures NoInstances(Now()) && items == old(items) + Definitions(g, components)
      ensures ExportsIn(items) == old(ExportsIn(items))
      ensures forall c :: c in g.components && g.components[c].instances != {} ==> c in encodedComponents
    {
      hide ExportsIn;
      hide NoInstances;
      hide Definitions;
      NoDefinitions(g);
      for j := 0 to |components|
        invariant NoInstances(Now()) && items == old(items) + Definitions(g, components[..j])
        invariant ExportsIn(items) == old(ExportsIn(items))
        invariant forall c :: c in encodedComponents ==> c in components[..j]
        invariant forall c :: c in components[..j] && c in g.components && g.components[c].instances != {} ==>
                    c in encodedComponents
      {
        var c := components[j];
        assert components[..j + 1] == components[..j] + [c];
        assert c in g.components;
        DefinitionsMore(g, components[..j], c);
        if g.components[c].instances != {} {
          NoInstancesMore(Now(), DefineComponent(c), importedArgs);
          ExportsOneMore(items, DefineComponent(c));
          // The insertion asserts that the component is new.
          assert c !in encodedComponents;
          var index := Emit(DefineComponent(c));
          encodedComponents := encodedComponents[c := index];
        }
      }
      assert components[..|components|] == components;
    }

    /** The item of an export of an encoded instance: one alias per export, however often used. */
    method Alias(i: Id, e: nat) returns (index: nat)
      requires Encoded(g, instances, Now())
      requires i in encodedInstances && HasInstance(g, i) && e < |ComponentOf(g, i).exports|
      modifies this`items, this`aliases
      ensures Encoded(g, instances, Now()) && Grows(old(Now()), Now())
      ensures (i, e) in aliases && aliases[(i, e)] == index < |items|
      ensures items[index] == AliasExport(encodedInstances[i], ComponentOf(g, i).exports[e].name)
      ensures ExportsIn(items) == old(ExportsIn(items))
    {
      hide Encoded;
      hide ExportsIn;
      if (i, e) in aliases {
        index := aliases[(i, e)];
        AliasDenotes(g, instances, Now(), i, e);
      } else {
        InstancePositions(g, instances, Now(), i);
        AliasKeeps(g, instances, Now(), i, e);
        ExportsOneMore(items, AliasExport(encodedInstances[i], ComponentOf(g, i).exports[e].name));
        index := Emit(AliasExport(encodedInstances[i], ComponentOf(g, i).exports[e].name));
        aliases := aliases[(i, e) := index];
      }
    }

    /** One argument per import: from the edges first, then from the imports. */
    method InstantiationArgs(p: nat) returns (args: seq<Arg>)
      requires Exact(g) && Encoded(g, instances, Now())
      requires p < |instances| && HasInstance(g, instances[p])
      requires forall s :: (s, instances[p]) in g.edges ==> s in encodedInstances
      modifies this`items, this`aliases
      ensures Encoded(g, instances, Now()) && Grows(old(Now()), Now()) && ExportsIn(items) == old(ExportsIn(items))
      ensures Complete(g, instances, Now(), p, args)
    {
      hide ExportsIn;
      hide Encoded;
      hide Exact;
      hide ArgsFor;
      hide RightItem;
      var t := instances[p];
      args := [];
      ghost var ks: seq<nat> := [];
      NoArgs(g, instances, Now(), p);
      var todo := set e | e in g.edges && e.1 == t :: e.0;
      ghost var done: set<Id> := {};
      while todo != {}
        invariant Encoded(g, instances, Now()) && Grows(old(Now()), Now()) && ExportsIn(items) == old(ExportsIn(items))
        invariant done + todo == set e | e in g.edges && e.1 == t :: e.0
        invariant ArgsFor(g, instances, Now(), p, args, ks)
        invariant forall k :: k in ks <==> exists s :: s in done && OnEdge(g, s, t, k)
        invariant done !! todo
        decreases todo
      {
        var s :| s in todo;
        assert (s, t) in g.edges;
        EdgeFacts(g, s, t);
        args, ks := EdgeArgs(p, s, args, ks, done);
        todo, done := todo - {s}, done + {s};
      }
      EdgesDone(g, t, done, ks);
      args := ImportArgs(p, args, ks);
    }

    /** The arguments that one edge supplies. */
    method EdgeArgs(p: nat, s: Id, before: seq<Arg>, ghost given: seq<nat>, ghost done: set<Id>)
      returns (args: seq<Arg>, ghost ks: seq<nat>)
      requires Exact(g) && Encoded(g, instances, Now())
      requires p < |instances| && HasInstance(g, instances[p]) && HasInstance(g, s)
      requires (s, instances[p]) in g.edges && s in encodedInstances && s !in done
      requires EdgeOk(g, s, instances[p], g.edges[(s, instances[p])])
      requires ArgsFor(g, instances, Now(), p, before, given)
      requires forall k :: k in given <==> exists s :: s in done && OnEdge(g, s, instances[p], k)
      modifies this`items, this`aliases
      ensures Encoded(g, instances, Now()) && Grows(old(Now()), Now()) && ExportsIn(items) == old(ExportsIn(items))
      ensures ArgsFor(g, instances, Now(), p, args, ks)
      ensures forall k :: k in ks <==> exists s' :: s' in done + {s} && OnEdge(g, s', instances[p], k)
    {
      hide ExportsIn;
      hide Encoded;
      hide Exact;
      hide ArgsFor;
      hide RightItem;
      var t := instances[p];
      var conns := g.edges[(s, t)];
      args, ks := before, given;
      ghost var used: set<nat> := {};
      var todo := conns.Keys;
      while todo != {}
        invariant Encoded(g, instances, Now()) && Grows(old(Now()), Now()) && ExportsIn(items) == old(ExportsIn(items))
        invariant used + todo == conns.Keys && used !! todo
        invariant ArgsFor(g, instances, Now(), p, args, ks)
        invariant forall k :: k in ks <==> k in given || k in used
        decreases todo
      {
        var k: nat :| k in todo;
        assert k in conns;
        var index;
        ghost var was := Now();
        match conns[k] {
          case None =>
            index := encodedInstances[s];
            InstancePositions(g, instances, Now(), s);
          case Some(e) =>
            index := Alias(s, e);
            ArgsForGrows(g, instances, was, Now(), p, args, ks);
        }
        OnlySource(g, instances, Now(), p, s, k, index);
        FreshImport(g, t, s, k, given, done);
        OneMoreArg(g, instances, Now(), p, args, ks, k, index);
        args := args + [Arg(ComponentOf(g, t).imports[k].name, index)];
        ks := ks + [k];
        todo, used := todo - {k}, used + {k};
      }
      EdgeUsed(g, t, s, given, done, ks, used);
    }

    /** The arguments for the imports that nothing is connected to. */
    method ImportArgs(p: nat, before: seq<Arg>, ghost given: seq<nat>) returns (args: seq<Arg>)
      requires Exact(g) && Encoded(g, instances, Now())
      requires p < |instances| && HasInstance(g, instances[p])
      requires ArgsFor(g, instances, Now(), p, before, given)
      requires forall k :: k in given <==> exists s :: OnEdge(g, s, instances[p], k)
      ensures Complete(g, instances, Now(), p, args)
    {
      hide Encoded;
      hide Exact;
      hide ArgsFor;
      hide RightItem;
      var imports := ComponentOf(g, instances[p]).imports;
      args := before;
      ghost var ks := given;
      for k: nat := 0 to |imports|
        invariant ArgsFor(g, instances, Now(), p, args, ks)
        invariant forall j: nat :: j in ks ==> j in given || j < k
        invariant forall j: nat :: j in given || j < k ==> j in ks
      {
        ConnectedIsOnEdge(g, instances[p], k);
        if k !in g.instances[instances[p]].connected {
          NotOnEdge(g, instances, Now(), p, k);
          var index := importedArgs[(p, k)];
          OneMoreArg(g, instances, Now(), p, args, ks, k, index);
          args := args + [Arg(imports[k].name, index)];
          ks := ks + [k];
        }
      }
    }

    method EncodeInstantiation(p: nat)
      requires Exact(g) && Encoded(g, instances, Now()) && Enumerates(instances, g.instances.Keys)
      requires p < |instances| && instances[p] !in encodedInstances
      requires forall s :: (s, instances[p]) in g.edges ==> s in encodedInstances
      requires forall c :: c in g.components && g.components[c].instances != {} ==> c in encodedComponents
      modifies this`items, this`aliases, this`encodedInstances
      ensures Encoded(g, instances, Now()) && Grows(old(Now()), Now()) && ExportsIn(items) == old(ExportsIn(items))
      ensures encodedInstances.Keys == old(encodedInstances.Keys) + {instances[p]}
    {
      hide ExportsIn;
      hide Encoded;
      hide Exact;
      hide Complete;
      InstanceFacts(g, instances[p]);
      var component := encodedComponents[g.instances[instances[p]].component];
      var args := InstantiationArgs(p);
      InstantiationKeeps(g, instances, Now(), p, args);
      ExportsOneMore(items, Instantiate(component, args));
      var index := Emit(Instantiate(component, args));
      encodedInstances := encodedInstances[instances[p] := index];
    }

    /** The instances outside the ordering first, then the ordering. */
    method EncodeInstantiations(ordering: seq<Id>)
      requires Exact(g) && Encoded(g, instances, Now()) && Enumerates(instances, g.instances.Keys)
      requires encodedInstances == map[] && SourcesFirst(g, ordering)
      requires forall c :: c in g.components && g.components[c].instances != {} ==> c in encodedComponents
      modifies this`items, this`aliases, this`encodedInstances
      ensures Encoded(g, instances, Now()) && encodedInstances.Keys == g.instances.Keys
      ensures ExportsIn(items) == old(ExportsIn(items)) && Grows(old(Now()), Now())
    {
      hide ExportsIn;
      hide Encoded;
      hide Exact;
      hide Grows;
      GrowsSelf(Now());
      for p: nat := 0 to |instances|
        invariant Encoded(g, instances, Now()) && ExportsIn(items) == old(ExportsIn(items))
        invariant Grows(old(Now()), Now())
        invariant forall i :: i in encodedInstances <==> i in instances[..p] && i !in ordering
      {
        assert instances[..p + 1] == instances[..p] + [instances[p]];
        if instances[p] !in ordering {
          Independent(g, ordering, instances[p]);
          ghost var was := Now();
          EncodeInstantiation(p);
          GrowsTransitive(old(Now()), was, Now());
        }
      }
      assert instances[..|instances|] == instances;
      for j := 0 to |ordering|
        invariant Encoded(g, instances, Now()) && ExportsIn(items) == old(ExportsIn(items))
        invariant Grows(old(Now()), Now())
        invariant forall i :: i in encodedInstances <==> i in instances && (i !in ordering || i in ordering[..j])
      {
        OrderingLive(g, ordering, j);
        var p := IndexOf(instances, ordering[j]);
        SourcesEncoded(g, ordering, j);
        assert ordering[..j + 1] == ordering[..j] + [ordering[j]];
        ghost var was := Now();
        EncodeInstantiation(p);
        GrowsTransitive(old(Now()), was, Now());
      }
      assert ordering[..|ordering|] == ordering;
    }

    /** Every export of the instance, in order, under its own name. */
    method EncodeExports(i: Id) returns (r: Result<(), EncodeError>)
      requires Exact(g) && Encoded(g, instances, Now()) && encodedInstances.Keys == g.instances.Keys
      requires ExportsIn(items) == []
      modifies this`items, this`aliases
      ensures Encoded(g, instances, Now()) && Grows(old(Now()), Now())
      ensures r.Ok? <==> i in g.instances
      ensures r.Ok? ==> HasInstance(g, i) && Exported(g, Now(), i, |ComponentOf(g, i).exports|)
      ensures r.Err? ==> r.error == NoSuchInstance
    {
      hide Encoded;
      hide Exact;
      hide ExportsIn;
      if i !in g.instances {
        return Err(NoSuchInstance);
      }
      InstanceFacts(g, i);
      var exports := ComponentOf(g, i).exports;
      for e: nat := 0 to |exports|
        invariant Encoded(g, instances, Now()) && Exported(g, Now(), i, e) && Grows(old(Now()), Now())
      {
        ghost var was := Now();
        var index := Alias(i, e);
        assert was.items <= items;
        PushKeeps(g, instances, Now(), ExportItem(exports[e].name, index));
        ExportsOneMore(items, ExportItem(exports[e].name, index));
        var _ := Emit(ExportItem(exports[e].name, index));
      }
      return Ok(());
    }

    /** The imports, and the components unless they are imported too. */
    method EncodeImportsAndComponents(define: bool, deps: ImportOrder.Deps) returns (r: Result<(), EncodeError>)
      requires Now() == State([], map[], map[], map[], map[])
      requires Exact(g) && Enumerates(instances, g.instances.Keys) && Enumerates(components, g.components.Keys)
      requires ImportOrder.Acyclic(deps)
      modifies this
      ensures r.Ok? ==>
                && Encoded(g, instances, Now()) && encodedInstances == map[] && ExportsIn(items) == []
                && forall c :: c in g.components && g.components[c].instances != {} ==> c in encodedComponents
      ensures r.Ok? ==> ComponentItems(g, define, items)
      ensures r.Err? ==> r.error in {NameConflict, TypeConflict}
      ensures r == Err(NameConflict) ==> !define
    {
      hide Encoded;
      hide ImportedSoFar;
      hide NoInstances;
      hide ArgumentsOf;
      hide ComponentsOf;
      hide SameComponents;
      hide Exact;
      hide Sound;
      hide Recorded;
      hide ExportsIn;
      hide OneName;
      hide DependenciesFirst;
      hide ComponentItems;
      hide Definitions;
      hide ImportsInOrder;
      var start := ImportMap([], map[]);
      ExactIsSound(g);
      if !define {
        start := AddComponentImports(g, components);
      }
      var imports := AddInstantiationImports(g, instances, start, deps);
      if imports.Err? {
        return Err(imports.error);
      }
      var m := imports.value;
      RecordedOneName(g, instances, start, m);
      EncodeImports(m);
      ImportedParts(m, Now());
      if define {
        NoComponentsYet(start, m, Now());
        ghost var was := items;
        OnlyArguments(start, m, was);
        EncodeComponents();
        DefinedItems(g, components, was);
        ArgumentsLater(m, importedArgs, was, items);
      } else {
        AllComponents(g, start, m, Now());
        ImportedItems(g, start, m, items);
      }
      ImportsAreEncoded(g, instances, m, Now());
      return Ok(());
    }

    /** The whole encoding of a graph. `ordering` is the graph library's answer, if there is no cycle. */
    method Encode(define: bool, deps: ImportOrder.Deps, ordering: Option<seq<Id>>, exported: Option<Id>)
      returns (r: Result<(), EncodeError>, ghost imported: bool)
      requires Now() == State([], map[], map[], map[], map[])
      requires Exact(g) && Enumerates(instances, g.instances.Keys) && Enumerates(components, g.components.Keys)
      requires ImportOrder.Acyclic(deps) && (ordering.Some? ==> SourcesFirst(g, ordering.value))
      modifies this
      ensures r.Ok? ==>
                && Encoded(g, instances, Now()) && encodedInstances.Keys == g.instances.Keys
                && ordering.Some? && (exported.Some? ==> exported.value in g.instances)
                && (exported.None? ==> ExportsIn(items) == [])
                && (exported.Some? ==> HasInstance(g, exported.value)
                                       && Exported(g, Now(), exported.value, |ComponentOf(g, exported.value).exports|))
      ensures imported ==> ComponentItems(g, define, items)
      ensures r == Err(Cycle) <==> imported && ordering.None?
      ensures r == Err(NoSuchInstance) <==>
                imported && ordering.Some? && exported.Some? && exported.value !in g.instances
      ensures !imported <==> r in {Err(NameConflict), Err(TypeConflict)}
      ensures r == Err(NameConflict) ==> !define
    {
      hide Encoded;
      hide Exact;
      hide ExportsIn;
      hide SourcesFirst;
      hide ComponentItems;
      r := EncodeImportsAndComponents(define, deps);
      imported := r.Ok?;
      if r.Err? {
        return;
      }
      if ordering.None? {
        return Err(Cycle), true;
      }
      ghost var was := Now();
      EncodeInstantiations(ordering.value);
      ComponentItemsStay(g, define, was, Now());
      if exported.Some? {
        was := Now();
        r := EncodeExports(exported.value);
        ComponentItemsStay(g, define, was, Now());
      }
    }
  }

  lemma ExactIsSound(g: Graph)
    requires Exact(g)
    ensures Sound(g)
  {
  }

  lemma ImportedParts(m: ImportMap, st: State)
    requires ImportedSoFar(m, st, m.entries.Keys)
    ensures NoInstances(st) && st.instances == map[]
    ensures ComponentsOf(m, st.components, m.entries.Keys) && ArgumentsOf(m, st.imported, st.items, m.entries.Keys)
  {
  }

  lemma NoComponentsYet(start: ImportMap, m: ImportMap, st: State)
    requires start.entries == map[] && SameComponents(start, m) && ComponentsOf(m, st.components, m.entries.Keys)
    ensures st.components == map[]
  {
    assert forall c :: c !in st.components;
  }

  lemma AllComponents(g: Graph, start: ImportMap, m: ImportMap, st: State)
    requires SameComponents(start, m) && ComponentsOf(m, st.components, m.entries.Keys)
    requires forall c :: c in g.components && g.components[c].instances != {} ==>
               g.components[c].component.name in start.entries
               && start.entries[g.components[c].component.name] == ComponentEntry(c)
    ensures forall c :: c in g.components && g.components[c].instances != {} ==> c in st.components
  {
  }

  lemma ArgumentsLater(m: ImportMap, imported: map<(nat, nat), nat>, items: seq<Item>, later: seq<Item>)
    requires ArgumentsOf(m, imported, items, m.entries.Keys) && items <= later
    ensures ArgumentsOf(m, imported, later, m.entries.Keys)
  {
  }

  // ----- what that means for the output -----

  /** The imports of a component have different names. */
  ghost predicate ImportNamesDiffer(c: Component) {
    forall j, k :: 0 <= j < k < |c.imports| ==> c.imports[j].name != c.imports[k].name
  }

  /** One argument, and only one, has the name of import `k`, and it is the right item. */
  ghost predicate ExactlyOneArg(g: Graph, order: seq<Id>, st: State, p: nat, args: seq<Arg>, k: nat)
    requires p < |order| && HasInstance(g, order[p]) && k < |ComponentOf(g, order[p]).imports|
  {
    var name := ComponentOf(g, order[p]).imports[k].name;
    exists j :: 0 <= j < |args| && args[j].name == name && RightItem(g, order, st, p, k, args[j].item)
             && forall j' :: 0 <= j' < |args| && args[j'].name == name ==> j' == j
  }

  lemma ArgsForExactlyOne(g: Graph, order: seq<Id>, st: State, p: nat, args: seq<Arg>, ks: seq<nat>, k: nat)
    requires p < |order| && ArgsFor(g, order, st, p, args, ks) && ImportNamesDiffer(ComponentOf(g, order[p]))
    requires k in ks && k < |ComponentOf(g, order[p]).imports|
    ensures ExactlyOneArg(g, order, st, p, args, k)
  {
    hide RightItem;
    var imports := ComponentOf(g, order[p]).imports;
    var j :| 0 <= j < |ks| && ks[j] == k;
    assert args[j].name == imports[k].name;
    forall j' | 0 <= j' < |args| && args[j'].name == imports[k].name
      ensures j' == j
    {
      assert imports[ks[j']].name == imports[k].name;
      assert ks[j'] == ks[j];
    }
  }

  /** An instance is one instantiation, with exactly one argument for each import. */
  lemma OneArgumentPerImport(g: Graph, order: seq<Id>, st: State, p: nat)
    requires Encoded(g, order, st) && p < |order| && order[p] in st.instances
    requires HasInstance(g, order[p]) ==> ImportNamesDiffer(ComponentOf(g, order[p]))
    ensures HasInstance(g, order[p]) && st.instances[order[p]] < |st.items|
              && st.items[st.instances[order[p]]].Instantiate?
    ensures var args := st.items[st.instances[order[p]]].args;
            var imports := ComponentOf(g, order[p]).imports;
            && |args| == |imports|
            && forall k: nat :: k < |imports| ==> ExactlyOneArg(g, order, st, p, args, k)
  {
    hide ExactlyOneArg;
    hide RightItem;
    hide Backward;
    hide ComponentsOk;
    hide AliasesOk;
    hide ImportedOk;
    hide OnlyThese;
    assert Instantiated(g, order, st, p);
    var args := st.items[st.instances[order[p]]].args;
    var imports := ComponentOf(g, order[p]).imports;
    var ks :| ArgsFor(g, order, st, p, args, ks) && forall k: nat :: k < |imports| ==> k in ks;
    PermutationLength(ks, |imports|);
    forall k: nat | k < |imports|
      ensures ExactlyOneArg(g, order, st, p, args, k)
    {
      ArgsForExactlyOne(g, order, st, p, args, ks, k);
    }
  }

  ghost function Below(n: nat): (r: set<nat>)
    ensures (forall k: nat :: k in r <==> k < n) && |r| == n
  {
    if n == 0 then {} else Below(n - 1) + {n - 1}
  }

  ghost function Elements(ks: seq<nat>): (r: set<nat>)
    requires Distinct(ks)
    ensures (forall k :: k in r <==> k in ks) && |r| == |ks|
  {
    if ks == [] then {}
    else
      var m := |ks| - 1;
      assert ks == ks[..m] + [ks[m]];
      Elements(ks[..m]) + {ks[m]}
  }

  /** A sequence that lists the numbers below `n`, each once, has length `n`. */
  lemma PermutationLength(ks: seq<nat>, n: nat)
    requires Distinct(ks) && (forall k: nat :: k < n ==> k in ks) && forall j :: 0 <= j < |ks| ==> ks[j] < n
    ensures |ks| == n
  {
    assert Elements(ks) == Below(n);
  }

  /** Along every connection the source is instantiated before the target. */
  lemma SourceBeforeTarget(g: Graph, order: seq<Id>, st: State, s: Id, t: Id)
    requires Exact(g) && Encoded(g, order, st) && (s, t) in g.edges && t in st.instances
    ensures s in st.instances && st.instances[s] < st.instances[t]
  {
    hide RightItem;
    hide ImportedOk;
    hide OnlyThese;
    InstancePositions(g, order, st, t);
    var p: nat :| p < |order| && order[p] == t;
    assert Instantiated(g, order, st, p);
    EdgeFacts(g, s, t);
    hide Exact;
    var k :| k in g.edges[(s, t)];
    var args := st.items[st.instances[t]].args;
    var ks :| ArgsFor(g, order, st, p, args, ks) && forall k: nat :: k < |ComponentOf(g, order[p]).imports| ==> k in ks;
    assert k in ks;
    var j :| 0 <= j < |ks| && ks[j] == k;
    ItemOnEdge(g, order, st, p, s, k, args[j].item);
    assert args[j].item < st.instances[t];
  }

  lemma ItemOnEdge(g: Graph, order: seq<Id>, st: State, p: nat, s: Id, k: nat, item: nat)
    requires Encoded(g, order, st) && p < |order| && OnEdge(g, s, order[p], k)
    requires RightItem(g, order, st, p, k, item)
    ensures s in st.instances && st.instances[s] <= item
  {
    assert Supplies(st, s, g.edges[(s, order[p])][k], item);
  }

  /** The first `n` exports of `i` are the exports of the output. */
  ghost predicate Exported(g: Graph, st: State, i: Id, n: nat)
    requires HasInstance(g, i)
  {
    && n <= |ComponentOf(g, i).exports| && |ExportsIn(st.items)| == n && i in st.instances
    && forall e :: 0 <= e < n ==>
         && ExportsIn(st.items)[e].0 == ComponentOf(g, i).exports[e].name
         && ExportsIn(st.items)[e].1 < |st.items|
         && st.items[ExportsIn(st.items)[e].1] == AliasExport(st.instances[i], ComponentOf(g, i).exports[e].name)
  }

  lemma InstanceFacts(g: Graph, i: Id)
    requires Exact(g) && i in g.instances
    ensures HasInstance(g, i) && g.components[g.instances[i].component].instances != {}
  {
    SoundHasInstance(g, i);
  }

  lemma Independent(g: Graph, ordering: seq<Id>, t: Id)
    requires Exact(g) && SourcesFirst(g, ordering) && t !in ordering
    ensures forall s :: (s, t) !in g.edges
  {
    hide Exact;
    forall s
      ensures (s, t) !in g.edges
    {
      if (s, t) in g.edges {
        EdgeFacts(g, s, t);
      }
    }
  }

  lemma OrderingLive(g: Graph, ordering: seq<Id>, j: nat)
    requires Exact(g) && SourcesFirst(g, ordering) && j < |ordering|
    ensures ordering[j] in g.instances && ordering[j] !in ordering[..j]
  {
    assert ordering[j] in g.nodes;
  }

  lemma SourcesEncoded(g: Graph, ordering: seq<Id>, j: nat)
    requires Exact(g) && SourcesFirst(g, ordering) && j < |ordering|
    ensures forall s :: (s, ordering[j]) in g.edges ==> s in g.instances && s in ordering[..j]
  {
    forall s | (s, ordering[j]) in g.edges
      ensures s in g.instances && s in ordering[..j]
    {
      EdgeFacts(g, s, ordering[j]);
      var a :| 0 <= a < |ordering| && ordering[a] == s;
      assert a < j;
      assert ordering[..j][a] == s;
    }
  }

  lemma NoArgs(g: Graph, order: seq<Id>, st: State, p: nat)
    requires p < |order| && HasInstance(g, order[p])
    ensures ArgsFor(g, order, st, p, [], [])
  {
  }

  lemma EdgeFacts(g: Graph, s: Id, t: Id)
    requires Exact(g) && (s, t) in g.edges
    ensures EdgeOk(g, s, t, g.edges[(s, t)]) && HasInstance(g, s) && HasInstance(g, t)
  {
  }

  lemma EdgesDone(g: Graph, t: Id, done: set<Id>, ks: seq<nat>)
    requires done == set e | e in g.edges && e.1 == t :: e.0
    requires forall k :: k in ks <==> exists s :: s in done && OnEdge(g, s, t, k)
    ensures forall k :: k in ks <==> exists s :: OnEdge(g, s, t, k)
  {
    forall s, k | OnEdge(g, s, t, k)
      ensures s in done
    {
      assert (s, t) in g.edges;
    }
  }

  /** Nothing else supplies the import, so the item is the right one. */
  lemma OnlySource(g: Graph, order: seq<Id>, st: State, p: nat, s: Id, k: nat, item: nat)
    requires Exact(g) && p < |order| && OnEdge(g, s, order[p], k)
    requires Supplies(st, s, g.edges[(s, order[p])][k], item)
    ensures RightItem(g, order, st, p, k, item)
  {
  }

  lemma FreshImport(g: Graph, t: Id, s: Id, k: nat, given: seq<nat>, done: set<Id>)
    requires Exact(g) && OnEdge(g, s, t, k) && s !in done
    requires forall k :: k in given <==> exists s :: s in done && OnEdge(g, s, t, k)
    ensures k !in given
  {
  }

  lemma EdgeUsed(g: Graph, t: Id, s: Id, given: seq<nat>, done: set<Id>, ks: seq<nat>, used: set<nat>)
    requires (s, t) in g.edges && used == g.edges[(s, t)].Keys
    requires forall k :: k in given <==> exists s :: s in done && OnEdge(g, s, t, k)
    requires forall k :: k in ks <==> k in given || k in used
    ensures forall k :: k in ks <==> exists s' :: s' in done + {s} && OnEdge(g, s', t, k)
  {
    forall k | k in ks
      ensures exists s' :: s' in done + {s} && OnEdge(g, s', t, k)
    {
      if k in given {
        var s' :| s' in done && OnEdge(g, s', t, k);
        assert s' in done + {s};
      } else {
        assert s in done + {s} && OnEdge(g, s, t, k);
      }
    }
  }

  lemma OneMoreArg(g: Graph, order: seq<Id>, st: State, p: nat, args: seq<Arg>, ks: seq<nat>, k: nat, item: nat)
    requires p < |order| && ArgsFor(g, order, st, p, args, ks)
    requires k !in ks && HasInstance(g, order[p]) && k < |ComponentOf(g, order[p]).imports|
    requires item < |st.items| && RightItem(g, order, st, p, k, item)
    ensures ArgsFor(g, order, st, p, args + [Arg(ComponentOf(g, order[p]).imports[k].name, item)], ks + [k])
  {
    hide RightItem;
  }

  lemma ConnectedIsOnEdge(g: Graph, t: Id, k: nat)
    requires Exact(g) && t in g.instances
    ensures k in g.instances[t].connected <==> exists s :: OnEdge(g, s, t, k)
  {
  }

  lemma NotOnEdge(g: Graph, order: seq<Id>, st: State, p: nat, k: nat)
    requires Encoded(g, order, st) && p < |order| && HasInstance(g, order[p])
    requires k < |ComponentOf(g, order[p]).imports| && k !in g.instances[order[p]].connected
    requires forall s :: !OnEdge(g, s, order[p], k)
    ensures (p, k) in st.imported && st.imported[(p, k)] < |st.items|
    ensures RightItem(g, order, st, p, k, st.imported[(p, k)])
  {
    assert Unconnected(g, order, p, k);
  }

  lemma NothingImported(m: ImportMap)
    ensures ImportedSoFar(m, State([], map[], map[], map[], map[]), {})
  {
  }

  lemma AliasDenotes(g: Graph, order: seq<Id>, st: State, i: Id, e: nat)
    requires Encoded(g, order, st) && (i, e) in st.aliases
    ensures i in st.instances && HasInstance(g, i) && e < |ComponentOf(g, i).exports|
    ensures st.aliases[(i, e)] < |st.items|
    ensures st.items[st.aliases[(i, e)]] == AliasExport(st.instances[i], ComponentOf(g, i).exports[e].name)
  {
  }
}
