/** The compiler inside the editor's graph serialisation: it folds the
    editor's edges, in order, into the component map and the name map that
    the engine loads. Also the editor's rule for which ports a new edge may
    join. */
module GraphCompiler {
  import opened Wrappers
  import opened LogicGraph

  /** An editor node, as the compiler reads it. A node that was never given
      a name has none. */
  datatype Node = Node(guid: string, kind: LogicType, name: Option<string>, state: bool)

  /** An editor edge from the output port of the producing node `output` to
      the input port of the consuming node `input`; the consuming end is
      absent when that port is attached to no node. */
  datatype Edge = Edge(input: Option<Node>, output: Node)

  /** An edge whose consuming end is a node. */
  datatype Link = Link(consumer: Node, producer: Node)

  /** The edges whose consuming end is a node, in their original order. */
  function ConnectedLinks(edges: seq<Edge>): (links: seq<Link>)
    ensures |links| <= |edges|
    ensures forall l :: l in links <==> Edge(Some(l.consumer), l.producer) in edges
  {
    if |edges| == 0 then []
    else
      var e := edges[|edges| - 1];
      var front := ConnectedLinks(edges[..|edges| - 1]);
      assert forall x :: x in edges <==> x in edges[..|edges| - 1] || x == e;
      if e.input.Some? then front + [Link(e.input.value, e.output)] else front
  }

  /** A single edge yields its link exactly when its consuming end is a node. */
  lemma ConnectedLinksSingle(e: Edge)
    ensures ConnectedLinks([e]) == if e.input.Some? then [Link(e.input.value, e.output)] else []
  {
  }

  /** Filtering commutes with concatenation, so the links keep the order and
      the multiplicity of the edges they come from. */
  lemma {:induction false} ConnectedLinksAppend(a: seq<Edge>, b: seq<Edge>)
    ensures ConnectedLinks(a + b) == ConnectedLinks(a) + ConnectedLinks(b)
  {
    if |b| == 0 {
      assert a + b == a;
    } else {
      var front, e := b[..|b| - 1], b[|b| - 1];
      var tail := if e.input.Some? then [Link(e.input.value, e.output)] else [];
      ConnectedLinksAppend(a, front);
      assert (a + b)[..|a + b| - 1] == a + front;
      assert ConnectedLinks(a + b) == ConnectedLinks(a + front) + tail;
      assert ConnectedLinks(b) == ConnectedLinks(front) + tail;
    }
  }

  /** What the compiler has built so far. */
  datatype Compiled = Compiled(components: Components, names: seq<Binding>)

  /** Bind the node's name to its id unless the name is already bound. A
      node without a name binds nothing: the editor's lookup of a missing
      name fails, and `SerializeGraph` refuses such graphs before folding. */
  function BindName(names: seq<Binding>, node: Node): seq<Binding> {
    match node.name
    case None => names
    case Some(n) => if Bound(names, n) then names else names + [Binding(n, node.guid)]
  }

  /** Record that `consumer` reads from the node with id `producer`. */
  function AddConsumer(cs: Components, consumer: Node, producer: string): (r: Components)
    ensures r.Keys == cs.Keys + {consumer.guid}
    ensures forall k :: k in cs && k != consumer.guid ==> r[k] == cs[k]
    ensures consumer.guid !in cs ==>
      r[consumer.guid] == Component(consumer.kind, consumer.guid, producer, "", "", "", consumer.state)
    ensures consumer.guid in cs ==>
      var before := cs[consumer.guid];
      var after := r[consumer.guid];
      && after.kind == before.kind && after.guid == before.guid && after.state == before.state
      && after.outputPort1 == before.outputPort1 && after.outputPort2 == before.outputPort2
      && (before.inputPort1 != "" ==> after.inputPort1 == before.inputPort1 && after.inputPort2 == producer)
      && (before.inputPort1 == "" ==> after.inputPort1 == producer && after.inputPort2 == before.inputPort2)
  {
    if consumer.guid in cs then
      var c := cs[consumer.guid];
      if |c.inputPort1| > 0 then cs[consumer.guid := c.(inputPort2 := producer)]
      else cs[consumer.guid := c.(inputPort1 := producer)]
    else
      cs[consumer.guid := Component(consumer.kind, consumer.guid, producer, "", "", "", consumer.state)]
  }

  /** Record that `producer` drives the node with id `consumer`. */
  function AddProducer(cs: Components, producer: Node, consumer: string): (r: Components)
    ensures r.Keys == cs.Keys + {producer.guid}
    ensures forall k :: k in cs && k != producer.guid ==> r[k] == cs[k]
    ensures producer.guid !in cs ==>
      r[producer.guid] == Component(producer.kind, producer.guid, "", "", consumer, "", producer.state)
    ensures producer.guid in cs ==>
      var before := cs[producer.guid];
      var after := r[producer.guid];
      && after.kind == before.kind && after.guid == before.guid && after.state == before.state
      && after.inputPort1 == before.inputPort1 && after.inputPort2 == before.inputPort2
      && (before.outputPort1 != "" ==> after.outputPort1 == before.outputPort1 && after.outputPort2 == consumer)
      && (before.outputPort1 == "" ==> after.outputPort1 == consumer && after.outputPort2 == before.outputPort2)
  {
    if producer.guid in cs then
      var c := cs[producer.guid];
      if |c.outputPort1| > 0 then cs[producer.guid := c.(outputPort2 := consumer)]
      else cs[producer.guid := c.(outputPort1 := consumer)]
    else
      cs[producer.guid := Component(producer.kind, producer.guid, "", "", consumer, "", producer.state)]
  }

  /** One pass of the edge loop: name the consumer if it is an OUTPUT, wire
      the consumer, name the producer if it is an INPUT, wire the producer. */
  function Step(acc: Compiled, l: Link): Compiled {
    var names1 := if l.consumer.kind == OUTPUT then BindName(acc.names, l.consumer) else acc.names;
    var cs1 := AddConsumer(acc.components, l.consumer, l.producer.guid);
    var names2 := if l.producer.kind == INPUT then BindName(names1, l.producer) else names1;
    var cs2 := AddProducer(cs1, l.producer, l.consumer.guid);
    Compiled(cs2, names2)
  }

  /** Every record is filed under its own id, every connected port names a
      record, no name is bound twice and every name names a record. */
  ghost predicate WellBuilt(r: Compiled) {
    RecordsWellBuilt(r.components) && NamesWellBuilt(r.names, r.components.Keys)
  }

  ghost predicate RecordsWellBuilt(cs: Components) {
    forall k :: k in cs ==> cs[k].guid == k && PortsWithin(cs[k], cs.Keys)
  }

  ghost predicate NamesWellBuilt(names: seq<Binding>, keys: set<string>) {
    UniqueNames(names) && forall b :: b in names ==> b.guid in keys
  }

  /** The edge loop, over the links in order. */
  function Fold(links: seq<Link>): (r: Compiled)
    ensures WellBuilt(r)
  {
    if |links| == 0 then Compiled(map[], [])
    else
      var acc := Fold(links[..|links| - 1]);
      var l := links[|links| - 1];
      StepKeepsWellBuilt(acc, l);
      Step(acc, l)
  }

  lemma StepKeepsWellBuilt(acc: Compiled, l: Link)
    requires WellBuilt(acc)
    ensures WellBuilt(Step(acc, l))
  {
    StepKeepsRecords(acc.components, l);
    var names1 := if l.consumer.kind == OUTPUT then BindName(acc.names, l.consumer) else acc.names;
    BindNameKeeps(acc.names, l.consumer, acc.components.Keys);
    BindNameKeeps(names1, l.producer, acc.components.Keys + {l.consumer.guid});
  }

  lemma StepKeepsRecords(cs: Components, l: Link)
    requires RecordsWellBuilt(cs)
    ensures RecordsWellBuilt(AddProducer(AddConsumer(cs, l.consumer, l.producer.guid), l.producer, l.consumer.guid))
  {
    var c, p := l.consumer.guid, l.producer.guid;
    var keys := cs.Keys;
    var cs1 := AddConsumer(cs, l.consumer, p);
    AddConsumerPorts(cs, l.consumer, p, keys);
    var cs2 := AddProducer(cs1, l.producer, c);
    AddProducerPorts(cs1, l.producer, c, keys + {p});
    assert cs2.Keys == keys + {p} + {c};
    forall k | k in cs2 ensures PortsWithin(cs2[k], cs2.Keys) && cs2[k].guid == k {
      assert PortsWithin(cs2[k], keys + {p} + {c});
    }
  }

  /** Every connected port of `c` is in `keys`: `Closed` stated for one
      record against a set of ids. */
  ghost predicate PortsWithin(c: Component, keys: set<string>) {
    && (c.inputPort1 == "" || c.inputPort1 in keys)
    && (c.inputPort2 == "" || c.inputPort2 in keys)
    && (c.outputPort1 == "" || c.outputPort1 in keys)
    && (c.outputPort2 == "" || c.outputPort2 in keys)
  }

  /** `PortsWithin` of every record against the map's own ids is `Closed`
      of its wiring, for a map that files nothing under the empty id. */
  lemma PortsWithinClosed(cs: Components)
    requires "" !in cs
    ensures (forall k :: k in cs ==> PortsWithin(cs[k], cs.Keys)) <==> Closed(Wires(cs))
  {
    var w := Wires(cs);
    forall k | k in cs ensures PortsWithin(cs[k], cs.Keys) <==>
      && Linked(w, w[k].inputPort1) && Linked(w, w[k].inputPort2)
      && Linked(w, w[k].outputPort1) && Linked(w, w[k].outputPort2)
    {
      assert w[k] == WireOf(cs[k]);
    }
  }

  lemma AddConsumerPorts(cs: Components, consumer: Node, producer: string, keys: set<string>)
    requires forall k :: k in cs ==> cs[k].guid == k && PortsWithin(cs[k], keys)
    ensures var r := AddConsumer(cs, consumer, producer);
      forall k :: k in r ==> r[k].guid == k && PortsWithin(r[k], keys + {producer})
  {
  }

  lemma AddProducerPorts(cs: Components, producer: Node, consumer: string, keys: set<string>)
    requires forall k :: k in cs ==> cs[k].guid == k && PortsWithin(cs[k], keys)
    ensures var r := AddProducer(cs, producer, consumer);
      forall k :: k in r ==> r[k].guid == k && PortsWithin(r[k], keys + {consumer})
  {
  }

  lemma BindNameKeeps(names: seq<Binding>, node: Node, keys: set<string>)
    requires NamesWellBuilt(names, keys)
    ensures NamesWellBuilt(BindName(names, node), keys + {node.guid})
  {
    if node.name.Some? && !Bound(names, node.name.value) {
      var r := names + [Binding(node.name.value, node.guid)];
      forall i, j | 0 <= i < j < |r| ensures r[i].name != r[j].name {
        if j == |names| {
          assert names[i] in names;
        }
      }
    }
  }

  /** A link whose OUTPUT consumer or INPUT producer has no name: looking
      that name up in the name map fails. */
  predicate NameMissing(l: Link) {
    || (l.consumer.kind == OUTPUT && l.consumer.name.None?)
    || (l.producer.kind == INPUT && l.producer.name.None?)
  }

  /** The whole compilation: nothing at all for an empty edge list, nothing
      either when the loop would fail on an unnamed OUTPUT consumer or INPUT
      producer, otherwise the fold over the edges whose consuming end is a
      node. */
  function SerializeGraph(edges: seq<Edge>): (r: Option<Compiled>)
    ensures r.None? <==>
      || |edges| == 0
      || exists e :: e in edges && e.input.Some? && NameMissing(Link(e.input.value, e.output))
    ensures r.Some? ==> r.value == Fold(ConnectedLinks(edges)) && WellBuilt(r.value)
    ensures r.Some? && (forall e :: e in edges ==> e.input.None?) ==> r.value == Compiled(map[], [])
  {
    if |edges| == 0 then None
    else
      var links := ConnectedLinks(edges);
      if exists l :: l in links && NameMissing(l) then None
      else Some(Fold(links))
  }

  /** The direction of an editor port. */
  datatype Direction = In | Out

  /** An editor port: `id` stands for the port object's identity. */
  datatype Port = Port(id: nat, node: string, direction: Direction)

  /** A port a new edge from `start` may join: another port, on another
      node, facing the other way. */
  predicate Compatible(start: Port, p: Port) {
    p != start && p.node != start.node && p.direction != start.direction
  }

  /** The ports of `ports` compatible with `start`, in their original order. */
  function CompatibleIn(ports: seq<Port>, start: Port): seq<Port> {
    if |ports| == 0 then []
    else
      var front := CompatibleIn(ports[..|ports| - 1], start);
      if Compatible(start, ports[|ports| - 1]) then front + [ports[|ports| - 1]] else front
  }

  method GetCompatiblePorts(ports: seq<Port>, start: Port) returns (compatible: seq<Port>)
    ensures forall p :: p in compatible <==> p in ports && Compatible(start, p)
    ensures |compatible| <= |ports|
    ensures compatible == CompatibleIn(ports, start)
  {
    compatible := [];
    var i := 0;
    while i < |ports|
      invariant 0 <= i <= |ports|
      invariant compatible == CompatibleIn(ports[..i], start)
      invariant forall p :: p in compatible <==> p in ports[..i] && Compatible(start, p)
      invariant |compatible| <= i
    {
      assert ports[..i + 1][..i] == ports[..i];
      assert forall p :: p in ports[..i + 1] <==> p in ports[..i] || p == ports[i];
      if Compatible(start, ports[i]) {
        compatible := compatible + [ports[i]];
      }
      i := i + 1;
    }
    assert ports[..i] == ports;
  }
}
