/**
 wasm-compose's composer: a queue of unmet imports drives the instantiation of components by
 name until every import of every named instance has been dealt with.
 */
module Composer {
  import opened Common
  import opened CompositionGraph

  const ROOT: string := "root"

  datatype Argument = Argument(instance: string, item: Option<string>)

  datatype Instantiation = Instantiation(dependency: Option<string>, arguments: map<string, Argument>)

  datatype Config = Config(disallowImports: bool, instantiations: map<string, Instantiation>)

  /** What an import is to be met with. */
  datatype Kind =
    | OnInstance(instance: string, item: Option<string>)
    | OnDefinition(index: nat, exported: nat)

  datatype Dependency = Dependency(dependent: nat, arg: nat, kind: Kind)

  datatype Failure =
    | NotFound | Unreadable | NoSuchExport | ExportOfMissing | NothingToCompose | UnknownArgument
    | InGraph(error: Error)
    | WrongKind  // a panic: an import that is to be met is not the import of an instance
    | NoMoreIds  // a panic: a definition component cannot be instantiated

  /**
   What the composer is given: the configuration, the components that files hold, and the names
   under which a file is found that holds none.
   */
  datatype World = World(
    config: Config,
    root: Component,
    definitions: seq<Component>,
    library: map<string, Component>,
    unreadable: set<string>)

  /** A component found under a name carries that name. */
  predicate NamesAgree(w: World) {
    w.root.name == ROOT && forall n :: n in w.library ==> w.library[n].name == n
  }

  predicate DistinctNames(w: World) {
    && (forall i :: 0 <= i < |w.definitions| ==> w.definitions[i].name != ROOT)
    && (forall i, j :: 0 <= i < j < |w.definitions| ==> w.definitions[i].name != w.definitions[j].name)
  }

  predicate OnlyInstances(c: Component) {
    forall k :: 0 <= k < |c.imports| ==> c.imports[k].isInstance
  }

  /** Nothing but instances is imported, by any component there is. */
  ghost predicate AllInstances(w: World) {
    && OnlyInstances(w.root)
    && (forall i :: 0 <= i < |w.definitions| ==> OnlyInstances(w.definitions[i]))
    && (forall n :: n in w.library ==> OnlyInstances(w.library[n]))
  }

  // ----- which dependency an import becomes -----

  function DependencyName(config: Config, instance: string): string {
    if instance in config.instantiations && config.instantiations[instance].dependency.Some?
    then config.instantiations[instance].dependency.value
    else instance
  }

  function ExportNamed(exports: seq<Export>, name: string): (r: Option<nat>)
    ensures r.Some? ==> r.value < |exports| && exports[r.value].name == name
    ensures r.None? ==> forall i :: 0 <= i < |exports| ==> exports[i].name != name
  {
    if exports == [] then None
    else if exports[0].name == name then Some(0)
    else
      var rest := ExportNamed(exports[1..], name);
      if rest.Some? then Some(rest.value + 1) else None
  }

  /** The first definition, from `start` on, that exports an instance called `name`. */
  function DefinitionFor(definitions: seq<Component>, start: nat, name: string): (r: Option<(nat, nat)>)
    ensures r.Some? ==>
              && start <= r.value.0 < |definitions|
              && ExportNamed(definitions[r.value.0].exports, name) == Some(r.value.1)
              && definitions[r.value.0].exports[r.value.1].isInstance
    decreases |definitions| - start
  {
    if start >= |definitions| then None
    else
      var item := ExportNamed(definitions[start].exports, name);
      if item.Some? && definitions[start].exports[item.value].isInstance then Some((start, item.value))
      else DefinitionFor(definitions, start + 1, name)
  }

  function KindFor(w: World, instance: string, name: string): Kind {
    var definition := DefinitionFor(w.definitions, 0, name);
    if definition.Some? then OnDefinition(definition.value.0, definition.value.1)
    else if instance in w.config.instantiations && name in w.config.instantiations[instance].arguments then
      var arg := w.config.instantiations[instance].arguments[name];
      OnInstance(arg.instance, arg.item)
    else OnInstance(name, None)
  }

  // ----- the same, without saying how it is found -----

  /** The export of that name; names are meant to be distinct, and the first one counts. */
  ghost predicate IsExport(c: Component, name: string, e: nat) {
    e < |c.exports| && c.exports[e].name == name && forall i :: 0 <= i < e ==> c.exports[i].name != name
  }

  ghost predicate ExportsInstance(c: Component, name: string, e: nat) {
    IsExport(c, name, e) && c.exports[e].isInstance
  }

  /**
   The first definition that exports an instance of the name of the import, else the argument
   configured for the import, else the instance of the name itself.
   */
  ghost predicate KindIs(w: World, instance: string, name: string, kind: Kind) {
    if kind.OnDefinition? then
      && kind.index < |w.definitions| && ExportsInstance(w.definitions[kind.index], name, kind.exported)
      && forall i, e: nat :: 0 <= i < kind.index ==> !ExportsInstance(w.definitions[i], name, e)
    else
      && (forall i, e: nat :: 0 <= i < |w.definitions| ==> !ExportsInstance(w.definitions[i], name, e))
      && if instance in w.config.instantiations && name in w.config.instantiations[instance].arguments
         then Argument(kind.instance, kind.item) == w.config.instantiations[instance].arguments[name]
         else kind == OnInstance(name, None)
  }

  lemma {:induction false} ExportNamedIs(c: Component, exports: seq<Export>, start: nat, name: string)
    requires start <= |c.exports| && exports == c.exports[start..]
    requires forall i :: 0 <= i < start ==> c.exports[i].name != name
    ensures var r := ExportNamed(exports, name);
            && (r.Some? ==> IsExport(c, name, start + r.value))
            && (r.None? ==> forall e: nat :: !IsExport(c, name, e))
    decreases |exports|
  {
    if exports != [] && exports[0].name != name {
      assert c.exports[start] == exports[0] && exports[1..] == c.exports[start + 1..];
      ExportNamedIs(c, exports[1..], start + 1, name);
    } else if exports == [] {
      assert start == |c.exports|;
    } else {
      assert c.exports[start] == exports[0];
    }
  }

  lemma ExportIs(c: Component, name: string)
    ensures var r := ExportNamed(c.exports, name);
            && (r.Some? ==> IsExport(c, name, r.value))
            && (forall e: nat :: IsExport(c, name, e) ==> r == Some(e))
  {
    assert c.exports[0..] == c.exports;
    ExportNamedIs(c, c.exports, 0, name);
    var r := ExportNamed(c.exports, name);
    forall e: nat | IsExport(c, name, e)
      ensures r == Some(e)
    {
      assert r.value >= e && e >= r.value;
    }
  }

  lemma {:induction false} DefinitionForIs(definitions: seq<Component>, start: nat, name: string)
    ensures var r := DefinitionFor(definitions, start, name);
            && (r.Some? ==>
                  && ExportsInstance(definitions[r.value.0], name, r.value.1)
                  && forall i, e: nat :: start <= i < r.value.0 ==> !ExportsInstance(definitions[i], name, e))
            && (r.None? ==>
                  forall i, e: nat :: start <= i < |definitions| ==> !ExportsInstance(definitions[i], name, e))
    decreases |definitions| - start
  {
    if start < |definitions| {
      ExportIs(definitions[start], name);
      DefinitionForIs(definitions, start + 1, name);
    }
  }

  lemma KindForIs(w: World, instance: string, name: string)
    ensures KindIs(w, instance, name, KindFor(w, instance, name))
  {
    DefinitionForIs(w.definitions, 0, name);
  }

  // ----- the finitely many names instances can have -----

  function ImportNames(c: Component): set<string> {
    set k | 0 <= k < |c.imports| :: c.imports[k].name
  }

  ghost function Universe(w: World): set<string> {
    {ROOT} + ImportNames(w.root)
    + (set i, n | 0 <= i < |w.definitions| && n in ImportNames(w.definitions[i]) :: n)
    + (set c, n | c in w.library && n in ImportNames(w.library[c]) :: n)
    + (set i, a | i in w.config.instantiations && a in w.config.instantiations[i].arguments ::
         w.config.instantiations[i].arguments[a].instance)
  }

  // ----- progress -----

  type Instances = seq<(string, Id)>

  function ComponentAt(g: Graph, id: Id): Component
    requires id in g.instances && g.instances[id].component in g.components
  {
    g.components[g.instances[id].component].component
  }

  ghost predicate Live(g: Graph, id: Id) {
    id in g.instances && g.instances[id].component in g.components
  }

  /** Distinct names, all from the universe, for distinct live instances. */
  ghost predicate Named(w: World, g: Graph, insts: Instances) {
    && (forall i :: 0 <= i < |insts| ==> Live(g, insts[i].1) && insts[i].0 in Universe(w))
    && (forall i, j :: 0 <= i < j < |insts| ==> insts[i].0 != insts[j].0 && insts[i].1 != insts[j].1)
  }

  /** `arg` is an import of the named instance `d`. */
  ghost predicate IsImport(g: Graph, insts: Instances, d: nat, arg: nat) {
    d < |insts| && Live(g, insts[d].1) && arg < |ComponentAt(g, insts[d].1).imports|
  }

  ghost function KindAt(w: World, g: Graph, insts: Instances, d: nat, arg: nat): Kind
    requires IsImport(g, insts, d, arg)
  {
    KindFor(w, insts[d].0, ComponentAt(g, insts[d].1).imports[arg].name)
  }

  ghost predicate IsConnected(g: Graph, insts: Instances, d: nat, arg: nat) {
    d < |insts| && insts[d].1 in g.instances && arg in g.instances[insts[d].1].connected
  }

  ghost predicate Waiting(w: World, g: Graph, insts: Instances, q: Dependency) {
    && IsImport(g, insts, q.dependent, q.arg)
    && !IsConnected(g, insts, q.dependent, q.arg)
    && q.kind == KindAt(w, g, insts, q.dependent, q.arg)
  }

  /** No import is queued twice, and none that is already connected. */
  ghost predicate QueueOk(w: World, g: Graph, insts: Instances, queue: seq<Dependency>) {
    && (forall i :: 0 <= i < |queue| ==> Waiting(w, g, insts, queue[i]))
    && (forall i, j :: 0 <= i < j < |queue| ==>
          queue[i].dependent != queue[j].dependent || queue[i].arg != queue[j].arg)
  }

  ghost predicate Pending(queue: seq<Dependency>, d: nat, arg: nat) {
    exists i :: 0 <= i < |queue| && queue[i].dependent == d && queue[i].arg == arg
  }

  /** No component of the name wanted is in the graph, and none can be found. */
  ghost predicate Unresolvable(w: World, g: Graph, kind: Kind) {
    kind.OnInstance? && Missing(w, g, DependencyName(w.config, kind.instance))
  }

  /** No component of that name is in the graph, and no file is found for it. */
  ghost predicate Missing(w: World, g: Graph, name: string) {
    name !in g.names && name !in w.library && name !in w.unreadable
  }

  /** A component of that name is in the graph, or a file holds one. */
  ghost predicate Loadable(w: World, g: Graph, name: string) {
    name in g.names || (name in w.library && name !in w.unreadable)
  }

  ghost predicate IsNamed(insts: Instances, name: string) {
    exists i :: 0 <= i < |insts| && insts[i].0 == name
  }

  /** The instance an import asks for is there, or its component is or can be loaded. */
  ghost predicate Available(w: World, g: Graph, insts: Instances, name: string) {
    IsNamed(insts, name) || Loadable(w, g, DependencyName(w.config, name))
  }

  /** The import is connected, or left to be imported because its component cannot be found. */
  ghost predicate Settled(w: World, g: Graph, insts: Instances, d: nat, arg: nat) {
    && IsImport(g, insts, d, arg)
    && (|| IsConnected(g, insts, d, arg)
        || (!w.config.disallowImports && Unresolvable(w, g, KindAt(w, g, insts, d, arg))))
  }

  /** Every import of the first `n` named instances is settled or waiting in the queue. */
  ghost predicate Covered(w: World, g: Graph, insts: Instances, queue: seq<Dependency>, n: nat) {
    forall d: nat, arg: nat :: d < n && IsImport(g, insts, d, arg) ==>
      Settled(w, g, insts, d, arg) || Pending(queue, d, arg)
  }

  // ----- how the graph grows -----

  /** More components and instances; nothing that was there has changed. */
  ghost predicate Grows(w: World, g: Graph, h: Graph) {
    && (forall i :: i in g.instances ==> i in h.instances && h.instances[i] == g.instances[i])
    && (forall c :: c in g.components ==> c in h.components && h.components[c].component == g.components[c].component)
    && (forall n :: n in g.names ==> n in h.names && h.names[n] == g.names[n])
    && h.names.Keys <= g.names.Keys + w.library.Keys && h.edges == g.edges
  }

  lemma GrowsKeeps(w: World, g: Graph, h: Graph, insts: Instances, queue: seq<Dependency>, n: nat)
    requires Grows(w, g, h) && Named(w, g, insts) && QueueOk(w, g, insts, queue) && Covered(w, g, insts, queue, n)
    requires n <= |insts|
    ensures Named(w, h, insts) && QueueOk(w, h, insts, queue) && Covered(w, h, insts, queue, n)
  {
    forall i | 0 <= i < |insts| ensures Live(h, insts[i].1) {
      assert Live(g, insts[i].1);
    }
    forall i | 0 <= i < |queue| ensures Waiting(w, h, insts, queue[i]) {
      assert Waiting(w, g, insts, queue[i]);
    }
    forall d: nat, arg: nat | d < n && IsImport(h, insts, d, arg)
      ensures Settled(w, h, insts, d, arg) || Pending(queue, d, arg)
    {
      assert Live(g, insts[d].1);
      assert IsImport(g, insts, d, arg);
      if Settled(w, g, insts, d, arg) {
        assert KindAt(w, h, insts, d, arg) == KindAt(w, g, insts, d, arg);
      }
    }
  }

  /** A newly named instance leaves what is known about the others alone. */
  lemma NewNameKeeps(w: World, g: Graph, insts: Instances, entry: (string, Id), queue: seq<Dependency>, n: nat)
    requires Named(w, g, insts) && QueueOk(w, g, insts, queue) && Covered(w, g, insts, queue, n) && n <= |insts|
    requires Live(g, entry.1) && entry.0 in Universe(w)
    requires forall i :: 0 <= i < |insts| ==> insts[i].0 != entry.0 && insts[i].1 != entry.1
    ensures Named(w, g, insts + [entry]) && QueueOk(w, g, insts + [entry], queue)
    ensures Covered(w, g, insts + [entry], queue, n)
  {
    var more := insts + [entry];
    forall i | 0 <= i < |queue| ensures Waiting(w, g, more, queue[i]) {
      assert Waiting(w, g, insts, queue[i]);
    }
    forall d: nat, arg: nat | d < n && IsImport(g, more, d, arg)
      ensures Settled(w, g, more, d, arg) || Pending(queue, d, arg)
    {
      assert more[d] == insts[d];
      assert IsImport(g, insts, d, arg);
    }
  }

  /** Connecting the import at the head of the queue settles it and nothing else. */
  lemma ConnectSettles(w: World, g: Graph, s: Id, item: Option<nat>, insts: Instances, queue: seq<Dependency>, n: nat)
    requires queue != [] && Named(w, g, insts) && QueueOk(w, g, insts, queue) && Covered(w, g, insts, queue, n)
    requires n <= |insts|
    ensures queue[0].dependent < |insts| && insts[queue[0].dependent].1 in g.instances
    ensures var h := Connected(g, s, item, insts[queue[0].dependent].1, queue[0].arg);
            && Named(w, h, insts) && QueueOk(w, h, insts, queue[1..]) && Covered(w, h, insts, queue[1..], n)
  {
    var q := queue[0];
    assert Waiting(w, g, insts, q);
    var h := Connected(g, s, item, insts[q.dependent].1, q.arg);
    forall i | 0 <= i < |insts| ensures Live(h, insts[i].1) {
      assert Live(g, insts[i].1);
    }
    forall i | 0 <= i < |queue[1..]| ensures Waiting(w, h, insts, queue[1..][i]) {
      assert Waiting(w, g, insts, queue[i + 1]);
    }
    forall d: nat, arg: nat | d < n && IsImport(h, insts, d, arg)
      ensures Settled(w, h, insts, d, arg) || Pending(queue[1..], d, arg)
    {
      assert IsImport(g, insts, d, arg);
      if d == q.dependent && arg == q.arg {
        assert IsConnected(h, insts, d, arg);
      } else if Settled(w, g, insts, d, arg) {
        assert KindAt(w, h, insts, d, arg) == KindAt(w, g, insts, d, arg);
      } else {
        PendingTail(queue, d, arg);
      }
    }
  }

  lemma PendingTail(queue: seq<Dependency>, d: nat, arg: nat)
    requires queue != [] && Pending(queue, d, arg) && !(queue[0].dependent == d && queue[0].arg == arg)
    ensures Pending(queue[1..], d, arg)
  {
    var i :| 0 <= i < |queue| && queue[i].dependent == d && queue[i].arg == arg;
    assert queue[1..][i - 1] == queue[i];
  }

  /** Leaving the import at the head of the queue open settles it if it cannot be resolved. */
  lemma SkipSettles(w: World, g: Graph, insts: Instances, queue: seq<Dependency>, n: nat)
    requires queue != [] && QueueOk(w, g, insts, queue) && Covered(w, g, insts, queue, n)
    requires !w.config.disallowImports && Unresolvable(w, g, queue[0].kind)
    ensures QueueOk(w, g, insts, queue[1..]) && Covered(w, g, insts, queue[1..], n)
  {
    assert Waiting(w, g, insts, queue[0]);
    forall i | 0 <= i < |queue[1..]| ensures Waiting(w, g, insts, queue[1..][i]) {
      assert Waiting(w, g, insts, queue[i + 1]);
    }
    forall d: nat, arg: nat | d < n && IsImport(g, insts, d, arg)
      ensures Settled(w, g, insts, d, arg) || Pending(queue[1..], d, arg)
    {
      if !Settled(w, g, insts, d, arg) {
        PendingTail(queue, d, arg);
      }
    }
  }

  /** The imports of a newly named instance join the queue, each once. */
  lemma PushCovers(w: World, g: Graph, insts: Instances, queue: seq<Dependency>, d: nat, added: seq<Dependency>)
    requires Named(w, g, insts) && QueueOk(w, g, insts, queue) && Covered(w, g, insts, queue, d)
    requires d + 1 == |insts| && Live(g, insts[d].1) && g.instances[insts[d].1].connected == {}
    requires forall i :: 0 <= i < |queue| ==> queue[i].dependent < d
    requires |added| == |ComponentAt(g, insts[d].1).imports|
    requires forall k :: 0 <= k < |added| ==>
               added[k] == Dependency(d, k, KindFor(w, insts[d].0, ComponentAt(g, insts[d].1).imports[k].name))
    ensures QueueOk(w, g, insts, queue + added) && Covered(w, g, insts, queue + added, d + 1)
  {
    var all := queue + added;
    forall i | 0 <= i < |all| ensures Waiting(w, g, insts, all[i]) {
      assert i < |queue| ==> Waiting(w, g, insts, queue[i]);
    }
    forall d': nat, arg: nat | d' < d + 1 && IsImport(g, insts, d', arg)
      ensures Settled(w, g, insts, d', arg) || Pending(all, d', arg)
    {
      if d' == d {
        assert all[|queue| + arg] == added[arg];
      } else if !Settled(w, g, insts, d', arg) {
        var i :| 0 <= i < |queue| && queue[i].dependent == d' && queue[i].arg == arg;
        assert all[i] == queue[i];
      }
    }
  }

  /** The root, a definition component, or what was found under its name. */
  ghost predicate IsGiven(w: World, c: Component) {
    c == w.root || c in w.definitions || (c.name in w.library && c == w.library[c.name])
  }

  /** The components of the graph are those of the world, and import what those import. */
  ghost predicate ImportsKnown(w: World, g: Graph) {
    forall c :: c in g.components ==>
      && IsGiven(w, g.components[c].component)
      && ImportNames(g.components[c].component) <= Universe(w)
      && (AllInstances(w) ==> OnlyInstances(g.components[c].component))
  }

  /** The first import of the root is no import of an instance, yet what it asks for is at hand. */
  ghost predicate FirstImportIsWrong(w: World, g: Graph) {
    && w.root.imports != [] && !w.root.imports[0].isInstance
    && (ROOT in w.config.instantiations ==>
          w.config.instantiations[ROOT].arguments.Keys <= ImportNames(w.root))
    && var kind := KindFor(w, ROOT, w.root.imports[0].name);
       kind.OnInstance? && (kind.instance == ROOT || Loadable(w, g, DependencyName(w.config, kind.instance)))
  }

  ghost predicate DefinitionsOk(w: World, g: Graph, definitions: seq<(Id, Option<Id>)>) {
    && |definitions| == |w.definitions|
    && forall i :: 0 <= i < |definitions| ==>
         definitions[i].0 in g.components && g.components[definitions[i].0].component == w.definitions[i]
  }

  /** The root and the first definition components are what the graph holds. */
  ghost predicate LoadedTo(w: World, g: Graph, definitions: seq<(Id, Option<Id>)>) {
    && |definitions| <= |w.definitions|
    && ROOT in g.names && g.names[ROOT] in g.components && g.components[g.names[ROOT]].component == w.root
    && (forall n :: n in g.names <==> n == ROOT || NamedBefore(w, |definitions|, n))
    && (forall i :: 0 <= i < |definitions| ==> w.definitions[i].name != ROOT && definitions[i].1.None?)
    && (forall i, j :: 0 <= i < j < |definitions| ==> w.definitions[i].name != w.definitions[j].name)
    && (forall i :: 0 <= i < |definitions| ==>
          definitions[i].0 in g.components && g.components[definitions[i].0].component == w.definitions[i])
    && ImportsKnown(w, g)
  }

  ghost predicate NamedBefore(w: World, n: nat, name: string)
    requires n <= |w.definitions|
  {
    exists i :: 0 <= i < n && w.definitions[i].name == name
  }

  lemma RootLoaded(w: World, id: Id)
    requires NamesAgree(w)
    ensures LoadedTo(w, WithComponent(EmptyGraph, id, w.root), [])
  {
    var g := WithComponent(EmptyGraph, id, w.root);
    forall c | c in g.components
      ensures ImportNames(g.components[c].component) <= Universe(w)
      ensures AllInstances(w) ==> OnlyInstances(g.components[c].component)
    {
      assert c == id;
    }
  }

  /** The next definition component is added, or its name is already taken. */
  lemma LoadStep(w: World, g: Graph, definitions: seq<(Id, Option<Id>)>, id: Id)
    requires LoadedTo(w, g, definitions) && |definitions| < |w.definitions|
    ensures w.definitions[|definitions|].name in g.names ==> !DistinctNames(w)
    ensures w.definitions[|definitions|].name !in g.names && id !in g.components ==>
              LoadedTo(w, WithComponent(g, id, w.definitions[|definitions|]), definitions + [(id, None)])
  {
    hide ImportsKnown;
    var i := |definitions|;
    var next := w.definitions[i];
    if next.name !in g.names && id !in g.components {
      var h := WithComponent(g, id, next);
      DefinitionKnown(w, i);
      KnownMore(w, g, id, next);
      forall n
        ensures n in h.names <==> n == ROOT || NamedBefore(w, i + 1, n)
      {
        assert NamedBefore(w, i + 1, n) <==> NamedBefore(w, i, n) || n == next.name;
      }
    } else if next.name in g.names && next.name != ROOT {
      assert NamedBefore(w, i, next.name);
    }
  }

  lemma KnownMore(w: World, g: Graph, id: Id, c: Component)
    requires ImportsKnown(w, g) && ImportNames(c) <= Universe(w) && (AllInstances(w) ==> OnlyInstances(c))
    requires IsGiven(w, c)
    ensures ImportsKnown(w, WithComponent(g, id, c))
  {
    hide Universe;
    hide AllInstances;
    hide ImportNames;
    hide OnlyInstances;
    hide IsGiven;
  }

  lemma DefinitionKnown(w: World, i: nat)
    requires i < |w.definitions|
    ensures ImportNames(w.definitions[i]) <= Universe(w) && IsGiven(w, w.definitions[i])
    ensures AllInstances(w) ==> OnlyInstances(w.definitions[i])
  {
    forall n | n in ImportNames(w.definitions[i]) ensures n in Universe(w) {
    }
  }

  lemma LoadedAll(w: World, g: Graph, definitions: seq<(Id, Option<Id>)>)
    requires LoadedTo(w, g, definitions) && |definitions| == |w.definitions|
    ensures DefinitionsOk(w, g, definitions) && ImportsKnown(w, g) && DistinctNames(w) && Named(w, g, [])
    ensures Wired(w, g, [], definitions)
    ensures ROOT in g.names && g.names[ROOT] in g.components && g.components[g.names[ROOT]].component == w.root
  {
  }

  // ----- what imports are connected to -----

  /** The source is what the import asks for: the instance of that name, or that of the definition. */
  ghost predicate SourceOk(w: World, g: Graph, insts: Instances, definitions: seq<(Id, Option<Id>)>, kind: Kind, s: Id,
      which: Option<nat>)
  {
    match kind
    case OnInstance(name, item) =>
      && (name, s) in insts && Live(g, s)
      && (which.Some? ==>
            which.value < |ComponentAt(g, s).exports| && ComponentAt(g, s).exports[which.value].isInstance)
      && (item.Some? ==> which.Some? && IsExport(ComponentAt(g, s), item.value, which.value))
    case OnDefinition(index, exported) =>
      index < |definitions| && definitions[index].1 == Some(s) && which == Some(exported)
  }

  /** Every connection comes from the right source. */
  ghost predicate SourcesOk(w: World, g: Graph, insts: Instances, definitions: seq<(Id, Option<Id>)>) {
    forall s, d: nat, arg: nat :: IsImport(g, insts, d, arg) && OnEdge(g, s, insts[d].1, arg) ==>
      SourceOk(w, g, insts, definitions, KindAt(w, g, insts, d, arg), s, g.edges[(s, insts[d].1)][arg])
  }

  /** The name under which the component of an instance is looked for: the configured one, or the instance's own. */
  ghost predicate IsWanted(config: Config, instance: string, name: string) {
    if instance in config.instantiations && config.instantiations[instance].dependency.Some?
    then config.instantiations[instance].dependency == Some(name)
    else name == instance
  }

  function ComponentFor(w: World, i: nat, name: string): string {
    if i == 0 then ROOT else DependencyName(w.config, name)
  }

  /** Named instances and those of definitions are of the right components. */
  ghost predicate OfComponents(w: World, g: Graph, insts: Instances, definitions: seq<(Id, Option<Id>)>) {
    && (forall i: nat :: i < |insts| ==> IsOf(w, g, i, insts[i]))
    && (forall i :: 0 <= i < |definitions| && definitions[i].1.Some? ==>
          Live(g, definitions[i].1.value) && g.instances[definitions[i].1.value].component == definitions[i].0)
  }

  /** The first instance is of the root, every other one of the component wanted for its name. */
  ghost predicate IsOf(w: World, g: Graph, i: nat, entry: (string, Id)) {
    exists name :: name in g.names && (if i == 0 then name == ROOT else IsWanted(w.config, entry.0, name))
                && Live(g, entry.1) && g.instances[entry.1].component == g.names[name]
  }

  ghost predicate Wired(w: World, g: Graph, insts: Instances, definitions: seq<(Id, Option<Id>)>) {
    SourcesOk(w, g, insts, definitions) && OfComponents(w, g, insts, definitions)
  }

  lemma WiredGrows(w: World, g: Graph, h: Graph, insts: Instances, definitions: seq<(Id, Option<Id>)>)
    requires Grows(w, g, h) && Named(w, g, insts) && Wired(w, g, insts, definitions)
    ensures Wired(w, h, insts, definitions)
  {
    hide KindFor;
    hide IsExport;
    hide Universe;
    forall s, d: nat, arg: nat | IsImport(h, insts, d, arg) && OnEdge(h, s, insts[d].1, arg)
      ensures SourceOk(w, h, insts, definitions, KindAt(w, h, insts, d, arg), s, h.edges[(s, insts[d].1)][arg])
    {
      assert Live(g, insts[d].1);
      assert IsImport(g, insts, d, arg) && OnEdge(g, s, insts[d].1, arg);
      assert KindAt(w, h, insts, d, arg) == KindAt(w, g, insts, d, arg);
    }
    forall i: nat | i < |insts|
      ensures IsOf(w, h, i, insts[i])
    {
      assert IsOf(w, g, i, insts[i]);
    }
  }

  /** Nothing is connected to a new instance. */
  lemma WiredNewName(w: World, g: Graph, h: Graph, insts: Instances, definitions: seq<(Id, Option<Id>)>,
      entry: (string, Id))
    requires EdgesOk(g) && h.edges == g.edges && entry.1 !in g.instances
    requires Wired(w, h, insts, definitions) && IsOf(w, h, |insts|, entry)
    ensures Wired(w, h, insts + [entry], definitions)
  {
    hide KindFor;
    hide IsExport;
    var more := insts + [entry];
    assert forall e :: e in h.edges ==> e.1 in g.instances;
    forall s, d: nat, arg: nat | IsImport(h, more, d, arg) && OnEdge(h, s, more[d].1, arg)
      ensures SourceOk(w, h, more, definitions, KindAt(w, h, more, d, arg), s, h.edges[(s, more[d].1)][arg])
    {
      if d < |insts| {
        assert more[d] == insts[d];
        assert IsImport(h, insts, d, arg);
        InMore(insts, entry);
      }
    }
    forall i: nat | i < |more|
      ensures IsOf(w, h, i, more[i])
    {
      assert i < |insts| ==> more[i] == insts[i] && IsOf(w, h, i, insts[i]);
    }
  }

  lemma InMore(insts: Instances, entry: (string, Id))
    ensures forall e :: e in insts ==> e in insts + [entry]
  {
  }

  lemma WiredDefinition(w: World, g: Graph, insts: Instances, definitions: seq<(Id, Option<Id>)>, index: nat, id: Id)
    requires Wired(w, g, insts, definitions) && index < |definitions| && definitions[index].1.None?
    requires Live(g, id) && g.instances[id].component == definitions[index].0
    ensures Wired(w, g, insts, definitions[index := (definitions[index].0, Some(id))])
  {
    hide KindFor;
    hide IsExport;
    hide IsOf;
    var now := definitions[index := (definitions[index].0, Some(id))];
    forall s, d: nat, arg: nat | IsImport(g, insts, d, arg) && OnEdge(g, s, insts[d].1, arg)
      ensures SourceOk(w, g, insts, now, KindAt(w, g, insts, d, arg), s, g.edges[(s, insts[d].1)][arg])
    {
      assert SourceOk(w, g, insts, definitions, KindAt(w, g, insts, d, arg), s, g.edges[(s, insts[d].1)][arg]);
    }
  }

  /** A connection from the right source to an import that was free. */
  lemma WiredConnect(w: World, g: Graph, s: Id, item: Option<nat>, insts: Instances,
      definitions: seq<(Id, Option<Id>)>, q: Dependency)
    requires Named(w, g, insts) && Waiting(w, g, insts, q) && Wired(w, g, insts, definitions)
    requires EdgesDisjoint(g) && SourceOk(w, g, insts, definitions, q.kind, s, item)
    ensures Wired(w, Connected(g, s, item, insts[q.dependent].1, q.arg), insts, definitions)
  {
    hide KindFor;
    hide IsExport;
    hide Universe;
    var t := insts[q.dependent].1;
    var h := Connected(g, s, item, t, q.arg);
    forall s', d: nat, arg: nat | IsImport(h, insts, d, arg) && OnEdge(h, s', insts[d].1, arg)
      ensures SourceOk(w, h, insts, definitions, KindAt(w, h, insts, d, arg), s', h.edges[(s', insts[d].1)][arg])
    {
      ConnectedEdge(g, s, item, t, q.arg, s', insts[d].1, arg);
      assert IsImport(g, insts, d, arg) && KindAt(w, h, insts, d, arg) == KindAt(w, g, insts, d, arg);
      if d != q.dependent || arg != q.arg {
        assert insts[d].1 != t || arg != q.arg;
        assert OnEdge(g, s', insts[d].1, arg);
      } else {
        assert !OnEdge(g, s', t, q.arg);
      }
    }
    forall i: nat | i < |insts|
      ensures IsOf(w, h, i, insts[i])
    {
      assert IsOf(w, g, i, insts[i]);
    }
  }

  /**
   The import is connected to what it asks for, or it is left to be imported because there is no
   component that could meet it and imports are allowed.
   */
  ghost predicate Resolved(w: World, g: Graph, insts: Instances, definitions: seq<(Id, Option<Id>)>, d: nat, arg: nat)
    requires IsImport(g, insts, d, arg)
  {
    exists kind ::
      && KindIs(w, insts[d].0, ComponentAt(g, insts[d].1).imports[arg].name, kind)
      && if IsConnected(g, insts, d, arg)
         then exists s :: OnEdge(g, s, insts[d].1, arg)
                       && SourceOk(w, g, insts, definitions, kind, s, g.edges[(s, insts[d].1)][arg])
         else !w.config.disallowImports && kind.OnInstance?
              && exists name :: IsWanted(w.config, kind.instance, name) && Missing(w, g, name)
  }

  lemma SettledIsResolved(w: World, g: Graph, insts: Instances, definitions: seq<(Id, Option<Id>)>, d: nat, arg: nat)
    requires Settled(w, g, insts, d, arg) && Wired(w, g, insts, definitions) && ConnectedWithin(g)
    ensures Resolved(w, g, insts, definitions, d, arg)
  {
    hide KindFor;
    hide KindIs;
    hide SourceOk;
    hide Missing;
    hide OfComponents;
    var kind := KindAt(w, g, insts, d, arg);
    KindForIs(w, insts[d].0, ComponentAt(g, insts[d].1).imports[arg].name);
    if IsConnected(g, insts, d, arg) {
      var s :| OnEdge(g, s, insts[d].1, arg);
      assert SourceOk(w, g, insts, definitions, kind, s, g.edges[(s, insts[d].1)][arg]);
    } else {
      var name := DependencyName(w.config, kind.instance);
      assert IsWanted(w.config, kind.instance, name) && Missing(w, g, name);
    }
  }

  class Builder {
    const world: World
    const graph: CompositionGraph
    var instances: Instances
    var definitions: seq<(Id, Option<Id>)>

    ghost predicate Valid()
      reads this, graph
    {
      && graph.Valid() && Exact(graph.State()) && NamesAgree(world)
      && Named(world, graph.State(), instances)
      && DefinitionsOk(world, graph.State(), definitions)
      && ImportsKnown(world, graph.State()) && Wired(world, graph.State(), instances, definitions)
    }

    constructor (world: World)
      requires NamesAgree(world)
      ensures this.world == world && fresh(graph) && graph.Valid()
      ensures Exact(graph.State()) && graph.State() == EmptyGraph
      ensures instances == [] && definitions == []
      ensures graph.nextComponent == 0 && graph.nextInstance == 0
    {
      this.world := world;
      graph := new CompositionGraph();
      instances, definitions := [], [];
    }

    /** There are ids for one more component and two more instances. */
    ghost predicate IdsLeft()
      reads graph
    {
      graph.nextComponent < MAX_ID && graph.nextInstance + 1 < MAX_ID
    }

    /** The root and the definition components are in the graph, and nothing is instantiated. */
    ghost predicate Loaded()
      reads this, graph
    {
      && Valid() && instances == [] && ROOT in graph.names && graph.names[ROOT] in graph.components
      && graph.components[graph.names[ROOT]].component == world.root
    }

    /** Adds the root and the definition components; it fails if two of them share a name. */
    method Load() returns (r: Result<(), Failure>)
      requires NamesAgree(world) && graph.Valid() && Exact(graph.State()) && graph.State() == EmptyGraph
      requires instances == [] && definitions == []
      modifies this`definitions, graph
      ensures r.Ok? ==> Loaded() && DistinctNames(world)
      ensures r.Ok? ==> graph.nextComponent == old(graph.nextComponent) + 1 + |world.definitions|
      ensures r.Err? ==> r.error in {InGraph(NameTaken), InGraph(LimitReached)}
      ensures r == Err(InGraph(NameTaken)) ==> !DistinctNames(world)
      ensures r == Err(InGraph(LimitReached)) ==> MAX_ID <= old(graph.nextComponent) + |world.definitions|
      ensures graph.nextInstance == old(graph.nextInstance)
    {
      hide Exact;
      hide Sound;
      hide LoadedTo;
      hide ImportsKnown;
      hide DistinctNames;
      hide DefinitionsOk;
      hide Named;
      var root := graph.AddComponent(world.root);
      if root.Err? {
        return Err(InGraph(root.error));
      }
      RootLoaded(world, root.value);
      for i := 0 to |world.definitions|
        invariant graph.Valid() && Exact(graph.State())
        invariant LoadedTo(world, graph.State(), definitions)
        invariant |definitions| == i && graph.nextComponent == old(graph.nextComponent) + 1 + i
        invariant graph.nextInstance == old(graph.nextInstance)
      {
        ghost var g := graph.State();
        var id := graph.AddComponent(world.definitions[i]);
        LoadStep(world, g, definitions, if id.Ok? then id.value else 0);
        if id.Err? {
          return Err(InGraph(id.error));
        }
        definitions := definitions + [(id.value, None)];
      }
      LoadedAll(world, graph.State(), definitions);
      return Ok(());
    }

    /**
     Finds the component of that name in the graph or on disk. A file that holds no component is
     an error, and no file at all is not.
     */
    method AddComponent(name: string) returns (r: Result<Option<Id>, Failure>)
      requires Valid()
      modifies graph
      ensures graph.Valid() && Exact(graph.State()) && Grows(world, old(graph.State()), graph.State())
      ensures ImportsKnown(world, graph.State()) && graph.instances == old(graph.instances)
      ensures graph.nextInstance == old(graph.nextInstance)
      ensures r.Ok? && r.value.Some? ==>
                name in graph.names && graph.names[name] == r.value.value && r.value.value in graph.components
      ensures r == Ok(None) <==> Missing(world, old(graph.State()), name)
      ensures r == Ok(None) || name in old(graph.names) ==>
                graph.State() == old(graph.State()) && graph.nextComponent == old(graph.nextComponent)
      ensures r == Err(Unreadable) <==> name !in old(graph.names) && name in world.unreadable
      ensures r == Err(InGraph(LimitReached)) <==>
                old(Loadable(world, graph.State(), name) && name !in graph.names && graph.nextComponent == MAX_ID)
      ensures r.Err? ==> r.error in {Unreadable, InGraph(LimitReached)}
    {
      hide Exact;
      hide Sound;
      if name in graph.names {
        assert graph.names[name] in graph.components by { SoundLinks(graph.State()); }
        return Ok(Some(graph.names[name]));
      }
      if name in world.unreadable {
        return Err(Unreadable);
      }
      if name !in world.library {
        return Ok(None);
      }
      assert forall n :: n in ImportNames(world.library[name]) ==> n in Universe(world);
      var id := graph.AddComponent(world.library[name]);
      if id.Err? {
        return Err(InGraph(id.error));
      }
      return Ok(Some(id.value));
    }

    /** No id is left for the instance that has to be made, or for its component. */
    ghost predicate OutOfIds(name: string, componentName: string)
      reads this, graph
    {
      && !IsNamed(instances, name)
      && (graph.nextInstance == MAX_ID || (componentName !in graph.names && graph.nextComponent == MAX_ID))
    }

    /** Finds or makes the instance of that name; the flag says whether it was there already. */
    method Instantiate(name: string, componentName: string) returns (r: Result<Option<(nat, bool)>, Failure>)
      requires Valid() && name in Universe(world) && componentName == ComponentFor(world, |instances|, name)
      modifies this`instances, graph
      ensures Valid() && Grows(world, old(graph.State()), graph.State())
      ensures r.Err? ==> instances == old(instances) && r.error in {Unreadable, NotFound, InGraph(LimitReached)}
      ensures r == Ok(None) <==>
                && !world.config.disallowImports && !IsNamed(old(instances), name)
                && Missing(world, old(graph.State()), componentName)
      ensures r == Ok(None) ==> instances == old(instances) && Missing(world, graph.State(), componentName)
      ensures graph.nextInstance <= old(graph.nextInstance) + 1
      ensures componentName in old(graph.names) ==> graph.nextComponent == old(graph.nextComponent)
      ensures r.Ok? && r.value.Some? <==>
                && (IsNamed(old(instances), name) || Loadable(world, old(graph.State()), componentName))
                && !old(OutOfIds(name, componentName))
      ensures r.Ok? && r.value.Some? ==>
                && r.value.value.0 < |instances| && instances[r.value.value.0].0 == name
                && (if r.value.value.1 then instances == old(instances)
                    else
                      && r.value.value.0 == |old(instances)| && instances[..|old(instances)|] == old(instances)
                      && |instances| == |old(instances)| + 1
                      && instances[|old(instances)|].1 !in old(graph.instances)
                      && graph.instances[instances[|old(instances)|].1].connected == {}
                      && componentName in graph.names
                      && graph.instances[instances[|old(instances)|].1].component == graph.names[componentName]
                      && forall i :: 0 <= i < |old(instances)| ==> old(instances)[i].0 != name)
    {
      hide Exact;
      hide Sound;
      hide Universe;
      hide ImportsKnown;
      hide Covered;
      hide QueueOk;
      hide DefinitionsOk;
      hide NamesAgree;
      hide Named;
      hide Grows;
      hide Wired;
      for i := 0 to |instances|
        invariant forall k :: 0 <= k < i ==> instances[k].0 != name
      {
        if instances[i].0 == name {
          GrowsSelf(world, graph.State());
          return Ok(Some((i, true)));
        }
      }
      ghost var g := graph.State();
      var component := AddComponent(componentName);
      WiredGrows(world, g, graph.State(), instances, definitions);
      NamesGrow(world, g, graph.State(), instances, definitions);
      if component.Err? {
        return Err(component.error);
      }
      if component.value.None? {
        if world.config.disallowImports {
          return Err(NotFound);
        }
        return Ok(None);
      }
      ghost var g1 := graph.State();
      var id := graph.Instantiate(component.value.value);
      if id.Err? {
        return Err(InGraph(id.error));
      }
      InstanceGrows(world, g, g1, id.value, component.value.value);
      SameComponentsKnown(world, g1, graph.State());
      WiredGrows(world, g1, graph.State(), instances, definitions);
      assert EdgesOk(g1) by { ExactEdges(g1); }
      WiredNewName(world, g1, graph.State(), instances, definitions, (name, id.value));
      NamesGrow(world, g1, graph.State(), instances, definitions);
      NewName(world, g1, graph.State(), instances, name, id.value);
      instances := instances + [(name, id.value)];
      return Ok(Some((|instances| - 1, false)));
    }

    /** Which export of the instance to use; `Ok(None)` is the instance itself. */
    method ResolveExport(id: Id, item: Option<string>) returns (r: Result<Option<nat>, Failure>)
      requires Valid() && Live(graph.State(), id)
      ensures r.Err? ==> r.error == NoSuchExport
      ensures r.Ok? && item.Some? ==>
                && r.value.Some? && IsExport(ComponentAt(graph.State(), id), item.value, r.value.value)
                && ComponentAt(graph.State(), id).exports[r.value.value].isInstance
      ensures r.Ok? && r.value.Some? ==>
                && r.value.value < |ComponentAt(graph.State(), id).exports|
                && ComponentAt(graph.State(), id).exports[r.value.value].isInstance
    {
      var component := graph.components[graph.instances[id].component].component;
      var compatible: bool := *;
      if item.Some? {
        var named := ExportNamed(component.exports, item.value);
        ExportIs(component, item.value);
        if named.None? || !component.exports[named.value].isInstance || !compatible {
          return Err(NoSuchExport);
        }
        return Ok(named);
      }
      if compatible {
        return Ok(None);
      }
      for i := 0 to |component.exports| {
        var matches: bool := *;
        if component.exports[i].isInstance && matches {
          return Ok(Some(i));
        }
      }
      return Err(NoSuchExport);
    }

    /** Connects the import at the head of the queue; the graph cannot object that it is taken. */
    method ConnectHead(source: Id, item: Option<nat>, queue: seq<Dependency>, ghost n: nat)
      returns (r: Result<(), Failure>)
      requires Valid() && queue != [] && n <= |instances|
      requires QueueOk(world, graph.State(), instances, queue)
      requires Covered(world, graph.State(), instances, queue, n)
      requires SourceOk(world, graph.State(), instances, definitions, queue[0].kind, source, item)
      modifies graph
      ensures Valid() && (r.Err? ==> r.error.InGraph? && r.error.error != AlreadyConnected)
      ensures queue[0].dependent < |instances|
      ensures forall i :: i in old(graph.instances) && i != instances[queue[0].dependent].1 ==>
                i in graph.instances && graph.instances[i] == old(graph.instances[i])
      ensures r.Ok? ==> QueueOk(world, graph.State(), instances, queue[1..])
                        && Covered(world, graph.State(), instances, queue[1..], n)
    {
      hide Exact;
      hide Sound;
      hide QueueOk;
      hide Covered;
      hide Universe;
      hide ImportsKnown;
      hide Wired;
      hide SourceOk;
      var q := queue[0];
      ghost var g := graph.State();
      HeadWaits(world, g, instances, queue);
      ConnectSettles(world, g, source, item, instances, queue, n);
      assert BackLinks(g) by { SoundLinks(g); }
      assert EdgesDisjoint(g) by { ExactEdges(g); }
      WiredConnect(world, g, source, item, instances, definitions, q);
      var compatible: bool := *;
      var outcome := graph.Connect(source, item, instances[q.dependent].1, q.arg, compatible);
      SameComponentsKnown(world, g, graph.State());
      if outcome.Rejected? {
        return Err(InGraph(outcome.error));
      }
      return Ok(());
    }

    /** What holds while the queue is worked off. */
    ghost predicate Working(queue: seq<Dependency>, n: nat)
      reads this, graph
    {
      && Valid() && n <= |instances|
      && QueueOk(world, graph.State(), instances, queue)
      && Covered(world, graph.State(), instances, queue, n)
    }

    /** The instance just named has no connections yet. */
    ghost predicate JustNamed(d: nat)
      reads this, graph
    {
      d + 1 == |instances| && instances[d].1 in graph.instances && graph.instances[instances[d].1].connected == {}
    }

    method ProcessDefinition(queue: seq<Dependency>) returns (r: Result<(), Failure>)
      requires Working(queue, |instances|) && queue != [] && queue[0].kind.OnDefinition?
      modifies this`definitions, graph
      ensures r.Ok? ==> Working(queue[1..], |instances|)
      ensures queue[0].kind.index < |old(definitions)|
      ensures r == Err(NoMoreIds) <==>
                old(definitions)[queue[0].kind.index].1.None? && old(graph.nextInstance) == MAX_ID
      ensures r.Err? && r.error != NoMoreIds ==> r.error.InGraph? && r.error.error != AlreadyConnected
    {
      hide Exact;
      hide Sound;
      hide QueueOk;
      hide Covered;
      hide ImportsKnown;
      hide Universe;
      hide Wired;
      hide Named;
      hide Grows;
      hide NamesAgree;
      hide KindFor;
      HeadDefinition(world, graph.State(), instances, queue);
      var index, item := queue[0].kind.index, queue[0].kind.exported;
      var source := definitions[index].1;
      if source.None? {
        ghost var g := graph.State();
        var id := graph.Instantiate(definitions[index].0);
        if id.Err? {
          return Err(NoMoreIds);
        }
        GrowsSelf(world, g);
        InstanceGrows(world, g, g, id.value, definitions[index].0);
        WiredGrows(world, g, graph.State(), instances, definitions);
        WiredDefinition(world, graph.State(), instances, definitions, index, id.value);
        GrowsKeeps(world, g, graph.State(), instances, queue, |instances|);
        SameComponentsKnown(world, g, graph.State());
        source := Some(id.value);
        definitions := definitions[index := (definitions[index].0, source)];
      }
      r := ConnectHead(source.value, Some(item), queue, |instances|);
    }

    /**
     The import at the head of the queue is not the import of an instance, but the instance it
     asks for is there or can be had.
     */
    ghost predicate HeadPanics(queue: seq<Dependency>)
      reads this, graph
    {
      && queue != [] && IsImport(graph.State(), instances, queue[0].dependent, queue[0].arg)
      && !ComponentAt(graph.State(), instances[queue[0].dependent].1).imports[queue[0].arg].isInstance
      && queue[0].kind.OnInstance?
      && Available(world, graph.State(), instances, queue[0].kind.instance)
      && !OutOfIds(queue[0].kind.instance, DependencyName(world.config, queue[0].kind.instance))
    }

    /**
     An instance of that name is found, made, or known to be missing. The import is met only if
     it is the import of an instance: otherwise a panic follows exactly if the instance could be
     had.
     */
    method ProcessInstance(queue: seq<Dependency>) returns (r: Result<Option<nat>, Failure>)
      requires Working(queue, |instances|) && queue != [] && queue[0].kind.OnInstance?
      modifies this`instances, graph
      ensures r.Ok? ==> Working(queue[1..], |old(instances)|)
      ensures r.Ok? && r.value.None? ==> instances == old(instances)
      ensures r.Ok? && r.value.Some? ==>
                r.value.value == |old(instances)| && JustNamed(r.value.value) && old(instances) <= instances
      ensures r == Err(WrongKind) <==> old(HeadPanics(queue))
      ensures r != Err(InGraph(AlreadyConnected)) && r != Err(NoMoreIds)
    {
      hide Exact;
      hide Sound;
      hide QueueOk;
      hide Covered;
      hide ImportsKnown;
      hide Universe;
      hide Wired;
      var n := |instances|;
      var q := queue[0];
      ghost var g, insts := graph.State(), instances;
      assert Waiting(world, g, insts, q) by { HeadWaits(world, g, insts, queue); }
      assert q.kind.instance in Universe(world) by { WantedIsKnown(world, g, insts, q); }
      var found := Instantiate(q.kind.instance, DependencyName(world.config, q.kind.instance));
      GrowsKeeps(world, g, graph.State(), insts, queue, n);
      if found.Err? {
        return Err(found.error);
      }
      if found.value.None? {
        if q.kind.item.Some? {
          return Err(ExportOfMissing);
        }
        SkipSettles(world, graph.State(), instances, queue, n);
        return Ok(None);
      }
      var (index, existing) := found.value.value;
      if !existing {
        assert instances == insts + [instances[n]];
        NewNameKeeps(world, graph.State(), insts, instances[n], queue, n);
      }
      assert Waiting(world, graph.State(), instances, q) by { HeadWaits(world, graph.State(), instances, queue); }
      var importing := instances[q.dependent].1;
      if !graph.components[graph.instances[importing].component].component.imports[q.arg].isInstance {
        // Only imports of instances can be met, and others are not expected to get here.
        return Err(WrongKind);
      }
      var item := ResolveExport(instances[index].1, q.kind.item);
      if item.Err? {
        return Err(item.error);
      }
      var done := ConnectHead(instances[index].1, item.value, queue, n);
      if done.Err? {
        return Err(done.error);
      }
      return Ok(if existing then None else Some(index));
    }

    method PushDependencies(instance: nat, queue: seq<Dependency>) returns (r: Result<seq<Dependency>, Failure>)
      requires Working(queue, instance) && JustNamed(instance)
      requires forall i :: 0 <= i < |queue| ==> queue[i].dependent < instance
      ensures r.Ok? ==> Working(r.value, |instances|) && queue <= r.value
      ensures r.Ok? ==>
                var component := ComponentAt(graph.State(), instances[instance].1);
                && |r.value| == |queue| + |component.imports|
                && forall k :: 0 <= k < |component.imports| ==>
                     r.value[|queue| + k]
                     == Dependency(instance, k, KindFor(world, instances[instance].0, component.imports[k].name))
      ensures r == Err(UnknownArgument) <==>
                && instances[instance].0 in world.config.instantiations
                && !(world.config.instantiations[instances[instance].0].arguments.Keys
                     <= ImportNames(ComponentAt(graph.State(), instances[instance].1)))
      ensures r == Err(NothingToCompose) ==>
                instance == 0 && ComponentAt(graph.State(), instances[instance].1).imports == []
      ensures r.Err? ==> r.error in {UnknownArgument, NothingToCompose}
    {
      hide Exact;
      hide Sound;
      hide QueueOk;
      hide Covered;
      hide ImportsKnown;
      hide Wired;
      var (name, id) := instances[instance];
      var component := graph.components[graph.instances[id].component].component;
      var added: seq<Dependency> := [];
      for k := 0 to |component.imports|
        invariant |added| == k
        invariant forall i :: 0 <= i < k ==>
                    added[i] == Dependency(instance, i, KindFor(world, name, component.imports[i].name))
      {
        added := added + [Dependency(instance, k, KindFor(world, name, component.imports[k].name))];
      }
      PushCovers(world, graph.State(), instances, queue, instance, added);
      if name in world.config.instantiations &&
         !(world.config.instantiations[name].arguments.Keys <= ImportNames(component)) {
        return Err(UnknownArgument);
      }
      if added == [] && instance == 0 {
        return Err(NothingToCompose);
      }
      return Ok(queue + added);
    }

    /** Instantiates the root and queues its imports. */
    method Start() returns (r: Result<seq<Dependency>, Failure>)
      requires Loaded()
      modifies this`instances, graph
      ensures r.Ok? ==> Working(r.value, |instances|) && instances != [] && instances[0].0 == ROOT
      ensures r.Err? ==> r.error in {Unreadable, NotFound, InGraph(LimitReached), UnknownArgument, NothingToCompose}
      ensures FirstImportIsWrong(world, old(graph.State())) && old(IdsLeft()) ==> r.Ok? && HeadPanics(r.value)
    {
      hide Exact;
      hide Sound;
      hide ImportsKnown;
      hide Universe;
      hide QueueOk;
      hide Covered;
      hide NamesAgree;
      hide DefinitionsOk;
      hide Wired;
      assert ROOT in Universe(world) by { RootIsKnown(world); }
      var root := Instantiate(ROOT, ROOT);
      if root.Err? {
        return Err(root.error);
      }
      NothingQueued(world, graph.State(), instances);
      assert IsNamed(instances, ROOT);
      assert ComponentAt(graph.State(), instances[0].1) == world.root;
      r := PushDependencies(0, []);
    }

    /**
     Builds the whole graph. It ends for every finite set of components and every
     configuration; it never finds an import already connected; and when it succeeds every
     import of every named instance is connected, or has no component that could meet it. It
     does not panic over the kind of an import if only instances are imported, and does if the
     root's first import is of something else and what it asks for is at hand.
     */
    method Build() returns (r: Result<Id, Failure>)
      requires Loaded()
      modifies this, graph
      ensures r != Err(InGraph(AlreadyConnected))
      ensures AllInstances(world) ==> r != Err(WrongKind)
      ensures FirstImportIsWrong(world, old(graph.State())) && old(IdsLeft()) ==> r == Err(WrongKind)
      ensures r.Ok? ==>
                && Valid() && 0 < |instances| && instances[0] == (ROOT, r.value)
                && forall d: nat, arg: nat :: IsImport(graph.State(), instances, d, arg) ==>
                     Resolved(world, graph.State(), instances, definitions, d, arg)
      ensures r.Ok? ==>
                && OfComponents(world, graph.State(), instances, definitions)
                && forall c :: c in graph.components ==> IsGiven(world, graph.components[c].component)
    {
      hide Exact;
      hide Sound;
      hide ImportsKnown;
      hide Universe;
      hide QueueOk;
      hide Covered;
      hide NamesAgree;
      hide DefinitionsOk;
      hide Wired;
      hide Resolved;
      ghost var wrong := FirstImportIsWrong(world, graph.State()) && IdsLeft();
      var started := Start();
      if started.Err? {
        return Err(started.error);
      }
      var queue := started.value;
      ghost var rootEntry := instances[0];
      while queue != []
        invariant wrong ==> HeadPanics(queue)
        invariant Working(queue, |instances|) && instances != [] && instances[0] == rootEntry
        decreases |Universe(world)| - |instances|, |queue|
      {
        QueueIsEarlier(world, graph.State(), instances, queue);
        HeadIsKnown(world, graph.State(), instances, queue);
        if queue[0].kind.OnDefinition? {
          var done := ProcessDefinition(queue);
          if done.Err? {
            return Err(done.error);
          }
          queue := queue[1..];
        } else {
          var next := ProcessInstance(queue);
          if next.Err? {
            return Err(next.error);
          }
          queue := queue[1..];
          if next.value.Some? {
            NamedFit(world, graph.State(), instances);
            var pushed := PushDependencies(next.value.value, queue);
            if pushed.Err? {
              return Err(pushed.error);
            }
            queue := pushed.value;
          }
        }
      }
      EmptyQueueResolves(world, graph.State(), instances, definitions);
      AllGiven(world, graph.State());
      return Ok(instances[0].1);
    }
  }

  /** The root imports a function that has the name of a component: composing it panics. */
  method ComposeFunctionImport() returns (r: Result<Id, Failure>)
    ensures r == Err(WrongKind)
  {
    hide Exact;
    hide Sound;
    var root := Component(ROOT, [Import("f", false)], []);
    var world := World(Config(false, map[]), root, [], map["f" := Component("f", [], [])], {});
    var builder := new Builder(world);
    var loaded := builder.Load();
    assert loaded.Ok?;
    assert KindFor(world, ROOT, "f") == OnInstance("f", None);
    r := builder.Build();
  }

  lemma ExactEdges(g: Graph)
    requires Exact(g)
    ensures EdgesOk(g) && EdgesDisjoint(g) && ConnectedWithin(g)
  {
  }

  lemma GrowsSelf(w: World, g: Graph)
    ensures Grows(w, g, g)
  {
  }

  lemma NamesGrow(w: World, g: Graph, h: Graph, insts: Instances, definitions: seq<(Id, Option<Id>)>)
    requires Grows(w, g, h) && Named(w, g, insts) && DefinitionsOk(w, g, definitions)
    ensures Named(w, h, insts) && DefinitionsOk(w, h, definitions)
  {
    NothingQueued(w, g, insts);
    GrowsKeeps(w, g, h, insts, [], 0);
  }

  lemma InstanceGrows(w: World, f: Graph, g: Graph, id: Id, c: Id)
    requires Grows(w, f, g) && c in g.components && id !in g.instances
    ensures var h := WithInstance(g, id, c);
            && Grows(w, g, h) && Grows(w, f, h) && Live(h, id) && h.instances[id].connected == {} && id !in f.instances
            && forall c :: c in h.components ==>
                c in g.components && h.components[c].component == g.components[c].component
  {
  }

  lemma NewName(w: World, g: Graph, h: Graph, insts: Instances, name: string, id: Id)
    requires Named(w, g, insts) && Named(w, h, insts) && id !in g.instances && Live(h, id) && name in Universe(w)
    requires forall i :: 0 <= i < |insts| ==> insts[i].0 != name
    ensures Named(w, h, insts + [(name, id)])
  {
    hide Universe;
    forall i | 0 <= i < |insts|
      ensures insts[i].1 != id
    {
      assert Live(g, insts[i].1);
    }
  }

  lemma EmptyQueueSettles(w: World, g: Graph, insts: Instances)
    requires Covered(w, g, insts, [], |insts|)
    ensures forall d: nat, arg: nat :: IsImport(g, insts, d, arg) ==> Settled(w, g, insts, d, arg)
  {
    forall d: nat, arg: nat | IsImport(g, insts, d, arg)
      ensures Settled(w, g, insts, d, arg)
    {
      assert !Pending([], d, arg);
    }
  }

  lemma EmptyQueueResolves(w: World, g: Graph, insts: Instances, definitions: seq<(Id, Option<Id>)>)
    requires Covered(w, g, insts, [], |insts|) && Wired(w, g, insts, definitions) && Exact(g)
    ensures OfComponents(w, g, insts, definitions)
    ensures forall d: nat, arg: nat :: IsImport(g, insts, d, arg) ==> Resolved(w, g, insts, definitions, d, arg)
  {
    hide Resolved;
    hide Covered;
    hide SourcesOk;
    hide OfComponents;
    hide Settled;
    EmptyQueueSettles(w, g, insts);
    ExactEdges(g);
    forall d: nat, arg: nat | IsImport(g, insts, d, arg)
      ensures Resolved(w, g, insts, definitions, d, arg)
    {
      SettledIsResolved(w, g, insts, definitions, d, arg);
    }
  }

  lemma NothingQueued(w: World, g: Graph, insts: Instances)
    ensures QueueOk(w, g, insts, []) && Covered(w, g, insts, [], 0)
  {
  }

  lemma HeadWaits(w: World, g: Graph, insts: Instances, queue: seq<Dependency>)
    requires queue != [] && QueueOk(w, g, insts, queue)
    ensures Waiting(w, g, insts, queue[0])
  {
  }

  lemma HeadDefinition(w: World, g: Graph, insts: Instances, queue: seq<Dependency>)
    requires queue != [] && QueueOk(w, g, insts, queue) && queue[0].kind.OnDefinition?
    ensures queue[0].kind.index < |w.definitions|
  {
    assert Waiting(w, g, insts, queue[0]);
  }

  lemma HeadIsKnown(w: World, g: Graph, insts: Instances, queue: seq<Dependency>)
    requires queue != [] && QueueOk(w, g, insts, queue) && ImportsKnown(w, g)
    ensures IsImport(g, insts, queue[0].dependent, queue[0].arg)
    ensures AllInstances(w) ==> ComponentAt(g, insts[queue[0].dependent].1).imports[queue[0].arg].isInstance
  {
    assert Waiting(w, g, insts, queue[0]);
  }

  lemma RootIsKnown(w: World)
    ensures ROOT in Universe(w)
  {
  }

  lemma AllGiven(w: World, g: Graph)
    requires ImportsKnown(w, g)
    ensures forall c :: c in g.components ==> IsGiven(w, g.components[c].component)
  {
  }

  lemma SameComponentsKnown(w: World, g: Graph, h: Graph)
    requires ImportsKnown(w, g)
    requires forall c :: c in h.components ==>
               c in g.components && h.components[c].component == g.components[c].component
    ensures ImportsKnown(w, h)
  {
  }

  /** The instance an import asks for has a name from the universe. */
  lemma WantedIsKnown(w: World, g: Graph, insts: Instances, q: Dependency)
    requires ImportsKnown(w, g) && Waiting(w, g, insts, q) && q.kind.OnInstance?
    ensures q.kind.instance in Universe(w)
  {
    var c := ComponentAt(g, insts[q.dependent].1);
    assert c.imports[q.arg].name in ImportNames(c);
  }

  /** There are never more named instances than names. */
  lemma NamedFit(w: World, g: Graph, insts: Instances)
    requires Named(w, g, insts)
    ensures |insts| <= |Universe(w)|
  {
    var names := set i | 0 <= i < |insts| :: insts[i].0;
    DistinctCount(insts);
    assert names <= Universe(w);
    SubsetCount(names, Universe(w));
  }

  lemma {:induction false} DistinctCount(insts: Instances)
    requires forall i, j :: 0 <= i < j < |insts| ==> insts[i].0 != insts[j].0
    ensures |set i | 0 <= i < |insts| :: insts[i].0| == |insts|
  {
    var names := set i | 0 <= i < |insts| :: insts[i].0;
    if insts == [] {
      assert names == {};
    } else {
      var m := |insts| - 1;
      var init := insts[..m];
      DistinctCount(init);
      assert names == (set i | 0 <= i < |init| :: init[i].0) + {insts[m].0};
    }
  }

  lemma {:induction false} SubsetCount(a: set<string>, b: set<string>)
    requires a <= b
    ensures |a| <= |b|
  {
    if a != {} {
      var x :| x in a;
      SubsetCount(a - {x}, b - {x});
    }
  }

  lemma QueueIsEarlier(w: World, g: Graph, insts: Instances, queue: seq<Dependency>)
    requires QueueOk(w, g, insts, queue)
    ensures forall i :: 0 <= i < |queue| ==> queue[i].dependent < |insts|
  {
    forall i | 0 <= i < |queue| ensures queue[i].dependent < |insts| {
      assert Waiting(w, g, insts, queue[i]);
    }
  }
}
