/**
 wasm-compose's composition graph: components, their instances, and connections from an
 instance (or one of its exports) to an import of another instance.
 */
module CompositionGraph {
  import opened Common

  type Id = nat

  datatype Import = Import(name: string, isInstance: bool)

  datatype Export = Export(name: string, isInstance: bool)

  /** What the graph needs to know of a parsed component. */
  datatype Component = Component(name: string, imports: seq<Import>, exports: seq<Export>)

  datatype Entry = Entry(component: Component, instances: set<Id>)

  datatype Instance = Instance(component: Id, connected: set<nat>)

  /** Target import index to source export index; `None` is the source instance itself. */
  type Connections = map<nat, Option<nat>>

  datatype Graph = Graph(
    names: map<string, Id>,
    components: map<Id, Entry>,
    instances: map<Id, Instance>,
    nodes: set<Id>,
    edges: map<(Id, Id), Connections>)

  // The counters stop at the largest `usize`.
  const MAX_ID: Id := 0xFFFF_FFFF_FFFF_FFFF

  const EmptyGraph := Graph(map[], map[], map[], {}, map[])

  datatype Error =
    | NameTaken | LimitReached | NoComponent | NoSource | NoTarget
    | SelfConnection | BadImport | BadExport | AlreadyConnected | Incompatible

  // ----- what holds of every graph -----

  /** Names and components point back at each other. */
  ghost predicate NameLinks(names: map<string, Id>, components: map<Id, Entry>) {
    && (forall n :: n in names ==> names[n] in components && components[names[n]].component.name == n)
    && (forall c :: c in components ==>
          components[c].component.name in names && names[components[c].component.name] == c)
  }

  /** Instances and components point back at each other. */
  ghost predicate InstanceLinks(components: map<Id, Entry>, instances: map<Id, Instance>) {
    && (forall i :: i in instances ==>
          instances[i].component in components && i in components[instances[i].component].instances)
    && (forall c, i :: c in components && i in components[c].instances ==>
          i in instances && instances[i].component == c)
  }

  ghost predicate BackLinks(g: Graph) {
    NameLinks(g.names, g.components) && InstanceLinks(g.components, g.instances)
  }

  /** Both ends are live and different, and all indices on the edge exist. */
  ghost predicate EdgeOk(g: Graph, s: Id, t: Id, conns: Connections) {
    && s != t && s in g.instances && t in g.instances && s in g.nodes && t in g.nodes
    && conns != map[]
    && g.instances[s].component in g.components && g.instances[t].component in g.components
    && (forall k :: k in conns ==> k < |g.components[g.instances[t].component].component.imports|)
    && (forall k :: k in conns && conns[k].Some? ==>
          conns[k].value < |g.components[g.instances[s].component].component.exports|)
  }

  ghost predicate EdgesOk(g: Graph) {
    && g.nodes <= g.instances.Keys
    && forall e :: e in g.edges ==> EdgeOk(g, e.0, e.1, g.edges[e])
  }

  predicate OnEdge(g: Graph, s: Id, t: Id, k: nat) {
    (s, t) in g.edges && k in g.edges[(s, t)]
  }

  /** Every import marked as connected is on an incoming edge. */
  ghost predicate ConnectedWithin(g: Graph) {
    forall t, k :: t in g.instances && k in g.instances[t].connected ==> exists s :: OnEdge(g, s, t, k)
  }

  /** Every import on an incoming edge is marked, and is on no other incoming edge. */
  ghost predicate EdgesDisjoint(g: Graph) {
    && (forall s, t, k :: OnEdge(g, s, t, k) && t in g.instances ==> k in g.instances[t].connected)
    && (forall s, s', t, k :: OnEdge(g, s, t, k) && OnEdge(g, s', t, k) ==> s == s')
  }

  /** Holds after every operation. */
  ghost predicate Sound(g: Graph) {
    BackLinks(g) && EdgesOk(g) && ConnectedWithin(g)
  }

  /** `connected` is exactly the disjoint union of the imports on the incoming edges. */
  ghost predicate Exact(g: Graph) {
    Sound(g) && EdgesDisjoint(g)
  }

  lemma OnlyComponentsGrew(g: Graph, h: Graph)
    requires Sound(g) && BackLinks(h)
    requires h.edges == g.edges && h.nodes == g.nodes
    requires forall i :: i in g.instances ==> i in h.instances && h.instances[i] == g.instances[i]
    requires forall i :: i in h.instances && i !in g.instances ==> h.instances[i].connected == {}
    requires forall c :: c in g.components ==>
               c in h.components && h.components[c].component == g.components[c].component
    ensures Sound(h) && (Exact(g) ==> Exact(h))
  {
    forall e | e in h.edges ensures EdgeOk(h, e.0, e.1, h.edges[e]) {
      assert EdgeOk(g, e.0, e.1, g.edges[e]);
    }
    forall t, k | t in h.instances && k in h.instances[t].connected ensures exists s :: OnEdge(h, s, t, k) {
      var s :| OnEdge(g, s, t, k);
      assert OnEdge(h, s, t, k);
    }
    if EdgesDisjoint(g) {
      forall s, t, k | OnEdge(h, s, t, k) && t in h.instances ensures k in h.instances[t].connected {
        assert OnEdge(g, s, t, k);
        assert EdgeOk(g, s, t, g.edges[(s, t)]);
      }
      forall s, s', t, k | OnEdge(h, s, t, k) && OnEdge(h, s', t, k) ensures s == s' {
        assert OnEdge(g, s, t, k) && OnEdge(g, s', t, k);
      }
    }
  }

  // ----- taking instances away -----

  /** The imports of `t` that connections from `gone` supply. */
  function Supplied(edges: map<(Id, Id), Connections>, gone: set<Id>, t: Id): set<nat> {
    set e, k | e in edges && e.0 in gone && e.1 == t && k in edges[e] :: k
  }

  function InstancesWithout(instances: map<Id, Instance>, edges: map<(Id, Id), Connections>, gone: set<Id>)
    : map<Id, Instance>
  {
    map i | i in instances && i !in gone ::
      Instance(instances[i].component, instances[i].connected - Supplied(edges, gone, i))
  }

  function EdgesWithout(edges: map<(Id, Id), Connections>, gone: set<Id>): map<(Id, Id), Connections> {
    map e | e in edges && e.0 !in gone && e.1 !in gone :: edges[e]
  }

  /** Instances `gone` and everything connected to them are removed; the components are `comps`. */
  function Without(g: Graph, gone: set<Id>, names: map<string, Id>, comps: map<Id, Entry>): Graph {
    Graph(names, comps, InstancesWithout(g.instances, g.edges, gone), g.nodes - gone, EdgesWithout(g.edges, gone))
  }

  /** The components left belong exactly to the instances left. */
  ghost predicate Remaining(g: Graph, gone: set<Id>, comps: map<Id, Entry>) {
    && (forall c :: c in comps ==> c in g.components && comps[c].component == g.components[c].component)
    && (forall i :: i in g.instances && i !in gone ==> g.instances[i].component in comps)
  }

  lemma WithoutEdge(g: Graph, gone: set<Id>, names: map<string, Id>, comps: map<Id, Entry>, s: Id, t: Id, k: nat)
    ensures OnEdge(Without(g, gone, names, comps), s, t, k) <==> OnEdge(g, s, t, k) && s !in gone && t !in gone
  {
  }

  lemma WithoutKeepsEdges(g: Graph, gone: set<Id>, names: map<string, Id>, comps: map<Id, Entry>)
    requires EdgesOk(g) && Remaining(g, gone, comps)
    ensures EdgesOk(Without(g, gone, names, comps))
  {
    var h := Without(g, gone, names, comps);
    forall e | e in h.edges ensures EdgeOk(h, e.0, e.1, h.edges[e]) {
      assert EdgeOk(g, e.0, e.1, g.edges[e]);
    }
  }

  lemma WithoutKeepsConnected(g: Graph, gone: set<Id>, names: map<string, Id>, comps: map<Id, Entry>)
    requires ConnectedWithin(g)
    ensures ConnectedWithin(Without(g, gone, names, comps))
    ensures EdgesDisjoint(g) ==> EdgesDisjoint(Without(g, gone, names, comps))
  {
    var h := Without(g, gone, names, comps);
    forall t, k | t in h.instances && k in h.instances[t].connected ensures exists s :: OnEdge(h, s, t, k) {
      var s :| OnEdge(g, s, t, k);
      assert s in gone ==> (s, t) in g.edges && k in Supplied(g.edges, gone, t);
      WithoutEdge(g, gone, names, comps, s, t, k);
    }
    if EdgesDisjoint(g) {
      forall s, t, k | OnEdge(h, s, t, k) && t in h.instances ensures k in h.instances[t].connected {
        assert OnEdge(g, s, t, k);
        if k in Supplied(g.edges, gone, t) {
          var e :| e in g.edges && e.0 in gone && e.1 == t && k in g.edges[e];
          assert OnEdge(g, e.0, t, k);
        }
      }
      forall s, s', t, k | OnEdge(h, s, t, k) && OnEdge(h, s', t, k) ensures s == s' {
        assert OnEdge(g, s, t, k) && OnEdge(g, s', t, k);
      }
    }
  }

  lemma WithoutNone(instances: map<Id, Instance>, edges: map<(Id, Id), Connections>)
    ensures EdgesWithout(edges, {}) == edges && InstancesWithout(instances, edges, {}) == instances
  {
    forall i | i in instances ensures InstancesWithout(instances, edges, {})[i] == instances[i] {
      assert Supplied(edges, {}, i) == {};
    }
  }

  /** Removing one more instance is removing them together. */
  lemma WithoutOneMore(instances: map<Id, Instance>, edges: map<(Id, Id), Connections>, gone: set<Id>, x: Id)
    ensures EdgesWithout(EdgesWithout(edges, gone), {x}) == EdgesWithout(edges, gone + {x})
    ensures InstancesWithout(InstancesWithout(instances, edges, gone), EdgesWithout(edges, gone), {x})
         == InstancesWithout(instances, edges, gone + {x})
  {
    var lhs := InstancesWithout(InstancesWithout(instances, edges, gone), EdgesWithout(edges, gone), {x});
    var rhs := InstancesWithout(instances, edges, gone + {x});
    assert lhs.Keys == rhs.Keys;
    forall i | i in lhs ensures lhs[i] == rhs[i] {
      SuppliedOneMore(edges, gone, x, i);
    }
  }

  lemma SuppliedOneMore(edges: map<(Id, Id), Connections>, gone: set<Id>, x: Id, t: Id)
    requires t !in gone && t != x
    ensures Supplied(edges, gone, t) + Supplied(EdgesWithout(edges, gone), {x}, t) == Supplied(edges, gone + {x}, t)
  {
    forall k | k in Supplied(edges, gone + {x}, t)
      ensures k in Supplied(edges, gone, t) + Supplied(EdgesWithout(edges, gone), {x}, t)
    {
      var e :| e in edges && e.0 in gone + {x} && e.1 == t && k in edges[e];
      assert e.0 !in gone ==> e in EdgesWithout(edges, gone);
    }
  }

  // ----- the operations, on values -----

  function WithComponent(g: Graph, id: Id, c: Component): Graph {
    g.(names := g.names[c.name := id], components := g.components[id := Entry(c, {})])
  }

  lemma WithComponentKeeps(g: Graph, id: Id, c: Component)
    requires Sound(g) && c.name !in g.names && id !in g.components
    ensures Sound(WithComponent(g, id, c)) && (Exact(g) ==> Exact(WithComponent(g, id, c)))
  {
    OnlyComponentsGrew(g, WithComponent(g, id, c));
  }

  function WithInstance(g: Graph, id: Id, c: Id): Graph
    requires c in g.components
  {
    g.(instances := g.instances[id := Instance(c, {})],
       components := g.components[c := Entry(g.components[c].component, g.components[c].instances + {id})])
  }

  lemma WithInstanceKeeps(g: Graph, id: Id, c: Id)
    requires Sound(g) && c in g.components && id !in g.instances
    ensures Sound(WithInstance(g, id, c)) && (Exact(g) ==> Exact(WithInstance(g, id, c)))
  {
    hide BackLinks;
    hide EdgesOk;
    hide ConnectedWithin;
    hide EdgesDisjoint;
    WithInstanceLinks(g, id, c);
    OnlyComponentsGrew(g, WithInstance(g, id, c));
  }

  lemma WithInstanceLinks(g: Graph, id: Id, c: Id)
    requires BackLinks(g) && c in g.components && id !in g.instances
    ensures BackLinks(WithInstance(g, id, c))
  {
    var h := WithInstance(g, id, c);
    assert NameLinks(h.names, h.components);
    assert InstanceLinks(h.components, h.instances);
  }

  function WithoutInstance(g: Graph, id: Id): Graph
    requires id in g.instances && g.instances[id].component in g.components
  {
    var c := g.instances[id].component;
    Without(g, {id}, g.names,
            g.components[c := Entry(g.components[c].component, g.components[c].instances - {id})])
  }

  lemma WithoutInstanceKeeps(g: Graph, id: Id)
    requires Sound(g) && id in g.instances
    ensures Sound(WithoutInstance(g, id)) && (Exact(g) ==> Exact(WithoutInstance(g, id)))
  {
    hide EdgesOk;
    hide ConnectedWithin;
    hide EdgesDisjoint;
    var h := WithoutInstance(g, id);
    WithoutInstanceLinks(g, id);
    WithoutKeepsEdges(g, {id}, h.names, h.components);
    WithoutKeepsConnected(g, {id}, h.names, h.components);
  }

  lemma WithoutInstanceLinks(g: Graph, id: Id)
    requires BackLinks(g) && id in g.instances
    ensures BackLinks(WithoutInstance(g, id))
    ensures Remaining(g, {id}, WithoutInstance(g, id).components)
  {
    var h := WithoutInstance(g, id);
    assert NameLinks(h.names, h.components);
    FewerInstancesLinks(g.components, g.instances, id, h.instances);
  }

  lemma FewerInstancesLinks(components: map<Id, Entry>, instances: map<Id, Instance>, id: Id, left: map<Id, Instance>)
    requires InstanceLinks(components, instances) && id in instances
    requires left.Keys == instances.Keys - {id}
    requires forall i :: i in left ==> left[i].component == instances[i].component
    ensures var c := instances[id].component;
            InstanceLinks(components[c := Entry(components[c].component, components[c].instances - {id})], left)
  {
  }

  function WithoutComponent(g: Graph, id: Id): Graph
    requires id in g.components
  {
    Without(g, g.components[id].instances, g.names - {g.components[id].component.name}, g.components - {id})
  }

  lemma WithoutComponentKeeps(g: Graph, id: Id)
    requires Sound(g) && id in g.components
    ensures Sound(WithoutComponent(g, id)) && (Exact(g) ==> Exact(WithoutComponent(g, id)))
  {
    hide EdgesOk;
    hide ConnectedWithin;
    hide EdgesDisjoint;
    var h := WithoutComponent(g, id);
    WithoutComponentLinks(g, id);
    WithoutKeepsEdges(g, g.components[id].instances, h.names, h.components);
    WithoutKeepsConnected(g, g.components[id].instances, h.names, h.components);
  }

  lemma WithoutComponentLinks(g: Graph, id: Id)
    requires BackLinks(g) && id in g.components
    ensures BackLinks(WithoutComponent(g, id))
    ensures Remaining(g, g.components[id].instances, WithoutComponent(g, id).components)
  {
    var h := WithoutComponent(g, id);
    assert NameLinks(h.names, h.components);
    forall i | i in h.instances
      ensures h.instances[i].component in h.components && i in h.components[h.instances[i].component].instances
    {
      assert h.instances[i].component == g.instances[i].component;
    }
    forall c, i | c in h.components && i in h.components[c].instances
      ensures i in h.instances && h.instances[i].component == c
    {
      assert g.instances[i].component == c;
      assert i !in g.components[id].instances;
    }
  }

  // ----- connections -----

  /**
   Checks a connection in the order the code does. `compatible` is whatever the subtype
   checker answers.
   */
  function Validate(g: Graph, source: Id, item: Option<nat>, target: Id, arg: nat, compatible: bool)
    : Option<Error>
    requires BackLinks(g)
  {
    if source == target then Some(SelfConnection)
    else if source !in g.instances then Some(NoSource)
    else if target !in g.instances then Some(NoTarget)
    else
      var sourceComponent := g.components[g.instances[source].component].component;
      var targetComponent := g.components[g.instances[target].component].component;
      if arg >= |targetComponent.imports| then Some(BadImport)
      else if arg in g.instances[target].connected then Some(AlreadyConnected)
      else if item.Some? && item.value >= |sourceComponent.exports| then Some(BadExport)
      else if item.None? && !targetComponent.imports[arg].isInstance then Some(Incompatible)
      else if !compatible then Some(Incompatible)
      else None
  }

  ghost predicate HasComponent(g: Graph, i: Id) {
    i in g.instances && g.instances[i].component in g.components
  }

  /** Different live instances, a free import, and an export of a compatible type or a whole instance. */
  ghost predicate Acceptable(g: Graph, source: Id, item: Option<nat>, target: Id, arg: nat, compatible: bool) {
    && source != target && HasComponent(g, source) && HasComponent(g, target) && compatible
    && arg < |g.components[g.instances[target].component].component.imports|
    && arg !in g.instances[target].connected
    && match item
       case Some(e) => e < |g.components[g.instances[source].component].component.exports|
       case None => g.components[g.instances[target].component].component.imports[arg].isInstance
  }

  lemma ValidateIs(g: Graph, source: Id, item: Option<nat>, target: Id, arg: nat, compatible: bool)
    requires BackLinks(g)
    ensures Validate(g, source, item, target, arg, compatible).None? <==>
            Acceptable(g, source, item, target, arg, compatible)
  {
  }

  /** The edge carries the import with its export, and all else it carried. */
  ghost predicate EdgeCarries(g: Graph, h: Graph, source: Id, item: Option<nat>, target: Id, arg: nat) {
    && OnEdge(h, source, target, arg) && h.edges[(source, target)][arg] == item
    && forall s: Id, t: Id, k: nat :: OnEdge(g, s, t, k) && (s, t, k) != (source, target, arg) ==>
         OnEdge(h, s, t, k) && h.edges[(s, t)][k] == g.edges[(s, t)][k]
  }

  function Marked(instances: map<Id, Instance>, t: Id, k: nat): map<Id, Instance>
    requires t in instances
  {
    instances[t := Instance(instances[t].component, instances[t].connected + {k})]
  }

  function Unmarked(instances: map<Id, Instance>, t: Id, k: nat): map<Id, Instance>
    requires t in instances
  {
    instances[t := Instance(instances[t].component, instances[t].connected - {k})]
  }

  function Joined(edges: map<(Id, Id), Connections>, s: Id, t: Id, k: nat, item: Option<nat>)
    : map<(Id, Id), Connections>
  {
    var conns: Connections := if (s, t) in edges then edges[(s, t)] else map[];
    edges[(s, t) := conns[k := item]]
  }

  function Connected(g: Graph, s: Id, item: Option<nat>, t: Id, k: nat): Graph
    requires t in g.instances
  {
    g.(instances := Marked(g.instances, t, k), nodes := g.nodes + {s, t}, edges := Joined(g.edges, s, t, k, item))
  }

  lemma ConnectedCarries(g: Graph, s: Id, item: Option<nat>, t: Id, k: nat)
    requires t in g.instances
    ensures EdgeCarries(g, Connected(g, s, item, t, k), s, item, t, k)
  {
  }

  lemma ConnectedEdge(g: Graph, s: Id, item: Option<nat>, t: Id, k: nat, s': Id, t': Id, k': nat)
    requires t in g.instances
    ensures OnEdge(Connected(g, s, item, t, k), s', t', k') <==>
            OnEdge(g, s', t', k') || (s' == s && t' == t && k' == k)
  {
  }

  lemma ValidatedEdgeOk(g: Graph, s: Id, item: Option<nat>, t: Id, k: nat, compatible: bool)
    requires BackLinks(g) && Validate(g, s, item, t, k, compatible).None?
    ensures EdgeOk(g.(nodes := g.nodes + {s, t}), s, t, map[k := item])
  {
    assert k in map[k := item];
  }

  lemma ConnectedLinks(g: Graph, s: Id, item: Option<nat>, t: Id, k: nat)
    requires BackLinks(g) && t in g.instances
    ensures BackLinks(Connected(g, s, item, t, k))
  {
    var h := Connected(g, s, item, t, k);
    assert forall i :: i in h.instances ==> h.instances[i].component == g.instances[i].component;
  }

  lemma ConnectedEdgesOk(g: Graph, s: Id, item: Option<nat>, t: Id, k: nat)
    requires EdgesOk(g) && EdgeOk(g.(nodes := g.nodes + {s, t}), s, t, map[k := item])
    ensures EdgesOk(Connected(g, s, item, t, k))
  {
    var h := Connected(g, s, item, t, k);
    assert forall i :: i in h.instances ==> h.instances[i].component == g.instances[i].component;
    forall e | e in h.edges ensures EdgeOk(h, e.0, e.1, h.edges[e]) {
      if e in g.edges {
        assert EdgeOk(g, e.0, e.1, g.edges[e]);
      }
      if e == (s, t) {
        assert k in h.edges[e];
      }
    }
  }

  lemma ConnectedKeepsWithin(g: Graph, s: Id, item: Option<nat>, t: Id, k: nat)
    requires ConnectedWithin(g) && t in g.instances
    ensures ConnectedWithin(Connected(g, s, item, t, k))
  {
    var h := Connected(g, s, item, t, k);
    forall t', k' | t' in h.instances && k' in h.instances[t'].connected ensures exists s' :: OnEdge(h, s', t', k') {
      if t' == t && k' == k {
        ConnectedEdge(g, s, item, t, k, s, t', k');
      } else {
        var s' :| OnEdge(g, s', t', k');
        ConnectedEdge(g, s, item, t, k, s', t', k');
      }
    }
  }

  /** A validated connection keeps the graph sound, and exact if it was exact. */
  lemma ConnectedKeeps(g: Graph, s: Id, item: Option<nat>, t: Id, k: nat, compatible: bool)
    requires Sound(g) && Validate(g, s, item, t, k, compatible).None?
    ensures Sound(Connected(g, s, item, t, k))
    ensures Exact(g) ==> !OnEdge(g, s, t, k) && Exact(Connected(g, s, item, t, k))
  {
    hide BackLinks;
    hide EdgesOk;
    hide ConnectedWithin;
    assert EdgeOk(g.(nodes := g.nodes + {s, t}), s, t, map[k := item]) by {
      ValidatedEdgeOk(g, s, item, t, k, compatible);
    }
    ConnectedLinks(g, s, item, t, k);
    ConnectedEdgesOk(g, s, item, t, k);
    ConnectedKeepsWithin(g, s, item, t, k);
    if EdgesDisjoint(g) {
      ConnectedKeepsDisjoint(g, s, item, t, k);
    }
  }

  lemma ConnectedKeepsDisjoint(g: Graph, s: Id, item: Option<nat>, t: Id, k: nat)
    requires EdgesOk(g) && EdgesDisjoint(g) && t in g.instances && k !in g.instances[t].connected
    ensures EdgesDisjoint(Connected(g, s, item, t, k))
  {
    var h := Connected(g, s, item, t, k);
    forall s', t', k' | OnEdge(h, s', t', k') && t' in h.instances ensures k' in h.instances[t'].connected {
      ConnectedEdge(g, s, item, t, k, s', t', k');
    }
    forall s1, s2, t', k' | OnEdge(h, s1, t', k') && OnEdge(h, s2, t', k') ensures s1 == s2 {
      ConnectedEdge(g, s, item, t, k, s1, t', k');
      ConnectedEdge(g, s, item, t, k, s2, t', k');
      assert !OnEdge(g, s1, t, k) && !OnEdge(g, s2, t, k);
    }
  }

  function Split(edges: map<(Id, Id), Connections>, s: Id, t: Id, k: nat): map<(Id, Id), Connections> {
    if (s, t) !in edges then edges
    else if edges[(s, t)] - {k} == map[] then edges - {(s, t)}
    else edges[(s, t) := edges[(s, t)] - {k}]
  }

  function Disconnected(g: Graph, s: Id, t: Id, k: nat): Graph
    requires t in g.instances
  {
    g.(instances := Unmarked(g.instances, t, k), edges := Split(g.edges, s, t, k))
  }

  lemma DisconnectedEdge(g: Graph, s: Id, t: Id, k: nat, s': Id, t': Id, k': nat)
    requires t in g.instances
    ensures OnEdge(Disconnected(g, s, t, k), s', t', k') <==>
            OnEdge(g, s', t', k') && !(s' == s && t' == t && k' == k)
  {
    if (s, t) in g.edges && (s', t') == (s, t) && k' != k && k' in g.edges[(s, t)] {
      assert k' in g.edges[(s, t)] - {k};
    }
  }

  /** Nothing is connected to the import, or the connection named is the one that exists. */
  predicate NamesConnection(g: Graph, s: Id, t: Id, k: nat)
    requires t in g.instances
  {
    k in g.instances[t].connected ==> OnEdge(g, s, t, k)
  }

  /**
   Disconnecting always leaves the graph sound. An exact graph stays exact if and only if
   the call names the existing connection: otherwise the import is unmarked although another
   edge still supplies it.
   */
  lemma DisconnectedKeeps(g: Graph, s: Id, t: Id, k: nat)
    requires Sound(g) && t in g.instances
    ensures Sound(Disconnected(g, s, t, k))
    ensures Exact(g) ==> (Exact(Disconnected(g, s, t, k)) <==> NamesConnection(g, s, t, k))
  {
    hide BackLinks;
    var h := Disconnected(g, s, t, k);
    DisconnectedLinks(g, s, t, k);
    forall t', k' | t' in h.instances && k' in h.instances[t'].connected ensures exists s' :: OnEdge(h, s', t', k') {
      var s' :| OnEdge(g, s', t', k');
      DisconnectedEdge(g, s, t, k, s', t', k');
    }
    if EdgesDisjoint(g) {
      if NamesConnection(g, s, t, k) {
        DisconnectedKeepsDisjoint(g, s, t, k);
      } else {
        var s' :| OnEdge(g, s', t, k);
        DisconnectedEdge(g, s, t, k, s', t, k);
        assert OnEdge(h, s', t, k) && k !in h.instances[t].connected;
      }
    }
  }

  lemma DisconnectedLinks(g: Graph, s: Id, t: Id, k: nat)
    requires BackLinks(g) && EdgesOk(g) && t in g.instances
    ensures BackLinks(Disconnected(g, s, t, k)) && EdgesOk(Disconnected(g, s, t, k))
  {
    var h := Disconnected(g, s, t, k);
    assert InstanceLinks(h.components, h.instances);
    forall e | e in h.edges ensures EdgeOk(h, e.0, e.1, h.edges[e]) {
      assert EdgeOk(g, e.0, e.1, g.edges[e]);
    }
  }

  lemma DisconnectedKeepsDisjoint(g: Graph, s: Id, t: Id, k: nat)
    requires Exact(g) && t in g.instances && NamesConnection(g, s, t, k)
    ensures EdgesDisjoint(Disconnected(g, s, t, k))
  {
    var h := Disconnected(g, s, t, k);
    forall s', t', k' | OnEdge(h, s', t', k') && t' in h.instances ensures k' in h.instances[t'].connected {
      DisconnectedEdge(g, s, t, k, s', t', k');
    }
    forall s1, s2, t', k' | OnEdge(h, s1, t', k') && OnEdge(h, s2, t', k') ensures s1 == s2 {
      DisconnectedEdge(g, s, t, k, s1, t', k');
      DisconnectedEdge(g, s, t, k, s2, t', k');
    }
  }

  // ----- the mutable graph -----

  datatype Outcome = Accepted | Rejected(error: Error) | Panicked

  datatype Op =
    | DoAddComponent(component: Component)
    | DoRemoveComponent(id: Id)
    | DoInstantiate(id: Id)
    | DoRemoveInstance(id: Id)
    | DoConnect(source: Id, item: Option<nat>, target: Id, arg: nat, compatible: bool)
    | DoDisconnect(source: Id, target: Id, arg: nat)

  class CompositionGraph {
    var names: map<string, Id>
    var components: map<Id, Entry>
    var instances: map<Id, Instance>
    var nodes: set<Id>
    var edges: map<(Id, Id), Connections>
    var nextComponent: Id
    var nextInstance: Id

    function State(): Graph
      reads this
    {
      Graph(names, components, instances, nodes, edges)
    }

    /** Identifiers handed out so far are below the counters. */
    ghost predicate Fresh()
      reads this
    {
      && (forall c :: c in components ==> c < nextComponent)
      && (forall i :: i in instances ==> i < nextInstance)
    }

    ghost predicate Valid()
      reads this
    {
      Sound(State()) && Fresh()
    }

    constructor ()
      ensures Valid() && Exact(State()) && State() == EmptyGraph
      ensures nextComponent == 0 && nextInstance == 0
    {
      names, components, instances, nodes, edges := map[], map[], map[], {}, map[];
      nextComponent, nextInstance := 0, 0;
    }

    method AddComponent(component: Component) returns (r: Result<Id, Error>)
      requires Valid()
      modifies this
      ensures Valid() && (old(Exact(State())) ==> Exact(State()))
      ensures r == Err(NameTaken) <==> component.name in old(names)
      ensures r.Err? ==> r.error in {NameTaken, LimitReached} && State() == old(State())
      ensures r == Err(LimitReached) <==> component.name !in old(names) && old(nextComponent) == MAX_ID
      ensures r.Ok? ==> r.value !in old(components) && State() == WithComponent(old(State()), r.value, component)
      ensures nextInstance == old(nextInstance)
      ensures nextComponent == if r.Ok? then old(nextComponent) + 1 else old(nextComponent)
    {
      hide Sound;
      hide Exact;
      if component.name in names {
        return Err(NameTaken);
      }
      if nextComponent == MAX_ID {
        return Err(LimitReached);
      }
      var id := nextComponent;
      WithComponentKeeps(State(), id, component);
      nextComponent := nextComponent + 1;
      names := names[component.name := id];
      components := components[id := Entry(component, {})];
      return Ok(id);
    }

    method Instantiate(id: Id) returns (r: Result<Id, Error>)
      requires Valid()
      modifies this
      ensures Valid() && (old(Exact(State())) ==> Exact(State()))
      ensures r == Err(NoComponent) <==> id !in old(components)
      ensures r.Err? ==> r.error in {NoComponent, LimitReached} && State() == old(State())
      ensures r == Err(LimitReached) <==> id in old(components) && old(nextInstance) == MAX_ID
      ensures r.Ok? ==> r.value !in old(instances) && State() == WithInstance(old(State()), r.value, id)
      ensures nextComponent == old(nextComponent)
      ensures nextInstance == if r.Ok? then old(nextInstance) + 1 else old(nextInstance)
    {
      hide Sound;
      hide Exact;
      if id !in components {
        return Err(NoComponent);
      }
      if nextInstance == MAX_ID {
        return Err(LimitReached);
      }
      var instance := nextInstance;
      WithInstanceKeeps(State(), instance, id);
      nextInstance := nextInstance + 1;
      instances := instances[instance := Instance(id, {})];
      components := components[id := Entry(components[id].component, components[id].instances + {instance})];
      return Ok(instance);
    }

    /** Unmarks, at every target, the imports that `id` supplied; every target is still there. */
    method DropOutgoing(id: Id)
      requires forall e :: e in edges && e.0 == id ==> e.1 in instances
      requires id !in instances
      modifies this`instances
      ensures instances == InstancesWithout(old(instances), edges, {id})
    {
      var targets := set e | e in edges && e.0 == id :: e.1;
      ghost var was := instances;
      ghost var all := targets;
      while targets != {}
        invariant targets <= all && instances.Keys == was.Keys
        invariant forall i :: i in was && i in targets ==> instances[i] == was[i]
        invariant forall i :: i in was && i !in targets ==>
                    instances[i] == Instance(was[i].component, was[i].connected - Supplied(edges, {id}, i))
      {
        var t :| t in targets;
        assert (id, t) in edges;
        assert Supplied(edges, {id}, t) == edges[(id, t)].Keys;
        instances := instances[t := Instance(instances[t].component, instances[t].connected - edges[(id, t)].Keys)];
        targets := targets - {t};
      }
    }

    method RemoveNode(id: Id)
      modifies this`nodes, this`edges
      ensures nodes == old(nodes) - {id} && edges == EdgesWithout(old(edges), {id})
    {
      nodes := nodes - {id};
      edges := map e | e in edges && e.0 !in {id} && e.1 !in {id} :: edges[e];
    }

    method RemoveInstance(id: Id)
      requires Valid()
      modifies this
      ensures Valid() && (old(Exact(State())) ==> Exact(State()))
      ensures id !in old(instances) ==> State() == old(State())
      ensures id in old(instances) ==> State() == WithoutInstance(old(State()), id)
    {
      hide Exact;
      hide Sound;
      if id !in instances {
        return;
      }
      ghost var g := State();
      WithoutInstanceKeeps(g, id);
      EndsLive(g);
      var c := instances[id].component;
      instances := instances - {id};
      components := components[c := Entry(components[c].component, components[c].instances - {id})];
      DropOutgoing(id);
      RemoveNode(id);
      DroppedFirst(g.instances, g.edges, id);
    }

    /** All instances of the component go, one after the other, with their connections. */
    method RemoveComponent(id: Id)
      requires Valid()
      modifies this
      ensures Valid() && (old(Exact(State())) ==> Exact(State()))
      ensures id !in old(components) ==> State() == old(State())
      ensures id in old(components) ==> State() == WithoutComponent(old(State()), id)
    {
      hide Exact;
      hide Sound;
      if id !in components {
        return;
      }
      ghost var g := State();
      WithoutComponentKeeps(g, id);
      EndsLive(g);
      var entry := components[id];
      components := components - {id};
      // Removing the name asserts that it was there.
      assert entry.component.name in names;
      names := names - {entry.component.name};
      WithoutNone(g.instances, g.edges);
      var todo := entry.instances;
      ghost var done := {};
      while todo != {}
        invariant done !! todo && done + todo == entry.instances
        invariant instances == InstancesWithout(g.instances, g.edges, done)
        invariant edges == EdgesWithout(g.edges, done) && nodes == g.nodes - done
        invariant names == g.names - {entry.component.name} && components == g.components - {id}
        invariant nextComponent == old(nextComponent) && nextInstance == old(nextInstance)
      {
        var x :| x in todo;
        ghost var before := instances;
        instances := instances - {x};
        DropOutgoing(x);
        DroppedFirst(before, edges, x);
        WithoutOneMore(g.instances, g.edges, done, x);
        RemoveNode(x);
        todo := todo - {x};
        done := done + {x};
      }
      assert done == entry.instances;
    }

    // ----- connections -----

    /** Adding the edge asserts that the edge does not carry the import yet. */
    method Connect(source: Id, item: Option<nat>, target: Id, arg: nat, compatible: bool) returns (r: Outcome)
      requires Valid()
      modifies this
      ensures Valid() && (old(Exact(State())) ==> Exact(State()) && !r.Panicked?)
      ensures Validate(old(State()), source, item, target, arg, compatible).Some? ==>
                && r == Rejected(Validate(old(State()), source, item, target, arg, compatible).value)
                && State() == old(State())
      ensures Validate(old(State()), source, item, target, arg, compatible).None? ==>
                && State() == Connected(old(State()), source, item, target, arg)
                && (r == if OnEdge(old(State()), source, target, arg) then Panicked else Accepted)
      ensures !r.Rejected? <==> Acceptable(old(State()), source, item, target, arg, compatible)
      ensures !r.Rejected? ==> EdgeCarries(old(State()), State(), source, item, target, arg)
      ensures nextComponent == old(nextComponent) && nextInstance == old(nextInstance)
    {
      hide Exact;
      hide EdgesOk;
      hide ConnectedWithin;
      hide EdgeCarries;
      hide Acceptable;
      var invalid := Validate(State(), source, item, target, arg, compatible);
      ValidateIs(State(), source, item, target, arg, compatible);
      if invalid.Some? {
        return Rejected(invalid.value);
      }
      ConnectedKeeps(State(), source, item, target, arg, compatible);
      ConnectedCarries(State(), source, item, target, arg);
      r := if OnEdge(State(), source, target, arg) then Panicked else Accepted;
      instances := Marked(instances, target, arg);
      nodes := nodes + {source, target};
      edges := Joined(edges, source, target, arg, item);
    }

    method Disconnect(source: Id, target: Id, arg: nat) returns (r: Outcome)
      requires Valid()
      modifies this
      ensures Valid() && !r.Panicked?
      ensures source !in old(instances) ==> r == Rejected(NoSource) && State() == old(State())
      ensures source in old(instances) && target !in old(instances) ==>
                r == Rejected(NoTarget) && State() == old(State())
      ensures source in old(instances) && target in old(instances) ==>
                r == Accepted && State() == Disconnected(old(State()), source, target, arg)
      ensures old(Exact(State())) ==>
                (Exact(State()) <==> r.Rejected? || NamesConnection(old(State()), source, target, arg))
      ensures nextComponent == old(nextComponent) && nextInstance == old(nextInstance)
    {
      hide Exact;
      hide Sound;
      if source !in instances {
        return Rejected(NoSource);
      }
      if target !in instances {
        return Rejected(NoTarget);
      }
      DisconnectedKeeps(State(), source, target, arg);
      instances := Unmarked(instances, target, arg);
      edges := Split(edges, source, target, arg);
      return Accepted;
    }

    /**
     Any sequence of operations, with the graph after each of them. The graph stays sound; as
     long as every disconnection names an existing connection it also stays exact, and no
     assertion fails.
     */
    method Run(ops: seq<Op>) returns (panicked: bool, ghost trace: seq<Graph>)
      requires Valid() && Exact(State())
      modifies this
      ensures Valid() && 0 < |trace| <= |ops| + 1 && trace[0] == old(State())
      ensures forall i :: 0 <= i < |trace| ==> Sound(trace[i])
      ensures forall i :: 0 <= i < |trace| - 1 ==> Follows(trace[i], ops[i], trace[i + 1])
      ensures !panicked ==> |trace| == |ops| + 1 && trace[|ops|] == State()
      ensures (forall i :: 0 <= i < |ops| && i < |trace| ==> Faithful(trace[i], ops[i])) ==> !panicked && Exact(State())
    {
      hide Exact;
      hide Sound;
      hide Follows;
      panicked, trace := false, [State()];
      for i := 0 to |ops|
        invariant Valid() && !panicked && |trace| == i + 1 && trace[0] == old(State()) && trace[i] == State()
        invariant forall j :: 0 <= j < |trace| ==> Sound(trace[j])
        invariant forall j :: 0 <= j < |trace| - 1 ==> Follows(trace[j], ops[j], trace[j + 1])
        invariant (forall j :: 0 <= j < i ==> Faithful(trace[j], ops[j])) ==> Exact(State())
      {
        panicked := Perform(ops[i]);
        if panicked {
          return;
        }
        trace := trace + [State()];
      }
    }

    /** One operation, as a caller of the library would make it. */
    method Perform(op: Op) returns (panicked: bool)
      requires Valid()
      modifies this
      ensures Valid() && (!panicked ==> Follows(old(State()), op, State()))
      ensures old(Exact(State())) ==> !panicked && (Faithful(old(State()), op) ==> Exact(State()))
    {
      hide Exact;
      hide Sound;
      LinksNow();
      match op {
        case DoAddComponent(component) =>
          var _ := AddComponent(component);
        case DoRemoveComponent(id) =>
          RemoveComponent(id);
        case DoInstantiate(id) =>
          var _ := Instantiate(id);
        case DoRemoveInstance(id) =>
          RemoveInstance(id);
        case DoConnect(source, item, target, arg, compatible) =>
          var r := Connect(source, item, target, arg, compatible);
          return r.Panicked?;
        case DoDisconnect(source, target, arg) =>
          var _ := Disconnect(source, target, arg);
      }
      return false;
    }

    lemma LinksNow()
      requires Valid()
      ensures BackLinks(State())
    {
    }
  }

  /** What one operation may do to the graph. */
  ghost predicate Follows(g: Graph, op: Op, h: Graph) {
    match op
    case DoAddComponent(c) => h == g || exists id :: id !in g.components && h == WithComponent(g, id, c)
    case DoRemoveComponent(id) => h == if id in g.components then WithoutComponent(g, id) else g
    case DoInstantiate(c) =>
      h == g || (c in g.components && exists id :: id !in g.instances && h == WithInstance(g, id, c))
    case DoRemoveInstance(id) =>
      h == if id in g.instances && g.instances[id].component in g.components then WithoutInstance(g, id) else g
    case DoConnect(s, item, t, k, _) => h == g || (t in g.instances && h == Connected(g, s, item, t, k))
    case DoDisconnect(s, t, k) => h == if s in g.instances && t in g.instances then Disconnected(g, s, t, k) else g
  }

  /** A disconnection between live instances names a connection that exists. */
  ghost predicate Faithful(g: Graph, op: Op) {
    op.DoDisconnect? && op.source in g.instances && op.target in g.instances ==>
      NamesConnection(g, op.source, op.target, op.arg)
  }

  lemma EndsLive(g: Graph)
    requires Sound(g)
    ensures forall e :: e in g.edges ==> e.0 in g.instances && e.1 in g.instances && e.0 != e.1
    ensures forall i :: i in g.instances ==> g.instances[i].component in g.components
    ensures forall c, i :: c in g.components ==>
              (i in g.components[c].instances <==> i in g.instances && g.instances[i].component == c)
    ensures forall c, n :: n in g.names && g.names[n] == c <==> c in g.components && g.components[c].component.name == n
  {
    forall e | e in g.edges ensures e.0 in g.instances && e.1 in g.instances && e.0 != e.1 {
      assert EdgeOk(g, e.0, e.1, g.edges[e]);
    }
  }

  /** Removing the instance itself before or after its connections makes no difference. */
  lemma DroppedFirst(instances: map<Id, Instance>, edges: map<(Id, Id), Connections>, x: Id)
    ensures InstancesWithout(instances - {x}, edges, {x}) == InstancesWithout(instances, edges, {x})
  {
  }

  /**
   Disconnecting an import in the name of an instance that does not supply it lets a second
   instance be connected to it, and connecting the first one again then trips the assertion.
   */
  lemma WrongDisconnectDuplicates() returns (g: Graph, h: Graph)
    ensures Exact(g) && 2 in g.instances && !NamesConnection(g, 1, 2, 0)
    ensures h == Disconnected(g, 1, 2, 0) && 2 in h.instances && Sound(h)
    ensures Validate(h, 1, None, 2, 0, true).None?
    ensures OnEdge(Connected(h, 1, None, 2, 0), 0, 2, 0) && OnEdge(Connected(h, 1, None, 2, 0), 1, 2, 0)
    ensures Validate(h, 0, None, 2, 0, true).None? && OnEdge(h, 0, 2, 0)
  {
    hide Sound;
    hide Exact;
    g := ExampleGraph();
    h := Disconnected(g, 1, 2, 0);
    DisconnectedKeeps(g, 1, 2, 0);
    assert BackLinks(h) by { SoundLinks(h); }
  }

  /** Two components, and no connections. */
  lemma ExampleParts() returns (g: Graph)
    ensures Exact(g) && Sound(g)
    ensures g.components.Keys == {0, 1} && g.components[1].component.imports == [Import("arg", true)]
    ensures g.instances == map[0 := Instance(0, {}), 1 := Instance(0, {}), 2 := Instance(1, {})]
    ensures g.edges == map[]
  {
    hide Sound;
    hide Exact;
    var source := Component("source", [], []);
    var target := Component("my-target", [Import("arg", true)], []);
    var g0 := WithComponent(EmptyGraph, 0, source);
    var g1 := WithComponent(g0, 1, target);
    var g2 := WithInstance(g1, 0, 0);
    var g3 := WithInstance(g2, 1, 0);
    g := WithInstance(g3, 2, 1);
    assert Sound(EmptyGraph) && Exact(EmptyGraph) by { EmptyIsExact(); }
    WithComponentKeeps(EmptyGraph, 0, source);
    WithComponentKeeps(g0, 1, target);
    WithInstanceKeeps(g1, 0, 0);
    WithInstanceKeeps(g2, 1, 0);
    WithInstanceKeeps(g3, 2, 1);
  }

  /** Two instances of one component; the first supplies the import of the third instance. */
  lemma ExampleGraph() returns (g: Graph)
    ensures Exact(g) && Sound(g)
    ensures g.components.Keys == {0, 1} && g.components[1].component.imports == [Import("arg", true)]
    ensures g.instances == map[0 := Instance(0, {}), 1 := Instance(0, {}), 2 := Instance(1, {0})]
    ensures g.edges == map[(0, 2) := map[0 := None]]
  {
    hide Sound;
    hide Exact;
    var parts := ExampleParts();
    assert BackLinks(parts) by { SoundLinks(parts); }
    ConnectedKeeps(parts, 0, None, 2, 0, true);
    g := Connected(parts, 0, None, 2, 0);
    assert g.instances[2].connected == {0};
  }

  lemma EmptyIsExact()
    ensures Sound(EmptyGraph) && Exact(EmptyGraph)
  {
  }

  lemma SoundLinks(g: Graph)
    requires Sound(g)
    ensures BackLinks(g)
  {
  }
}
