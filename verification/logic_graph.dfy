/** The runtime evaluation engine of the node logic system.

    A graph is a map from component id to component record. The engine's
    mutable dictionary becomes an immutable map that every operation returns
    in its updated form, and the output callback becomes the ordered sequence
    of (id, state) events that the call would have delivered to it. */
module LogicGraph {
  import opened Wrappers

  /** The gate kinds, in declaration order. */
  datatype LogicType = AND | OR | XOR | NOT | NAND | NOR | XNOR | INPUT | OUTPUT | CONST | SPLITTER

  /** One gate instance. A port holds the id of the connected component, or
      the empty string when the port is unconnected. */
  datatype Component = Component(
    kind: LogicType,
    guid: string,
    inputPort1: string,
    inputPort2: string,
    outputPort1: string,
    outputPort2: string,
    state: bool)

  /** Everything about a component except its state: the part that the
      engine never changes. */
  datatype Wire = Wire(
    kind: LogicType,
    guid: string,
    inputPort1: string,
    inputPort2: string,
    outputPort1: string,
    outputPort2: string)

  function WireOf(c: Component): Wire {
    Wire(c.kind, c.guid, c.inputPort1, c.inputPort2, c.outputPort1, c.outputPort2)
  }

  type Components = map<string, Component>

  type Wiring = map<string, Wire>

  function Wires(cs: Components): (w: Wiring)
    ensures w.Keys == cs.Keys
    ensures forall k :: k in cs ==> w[k] == WireOf(cs[k])
  {
    map k | k in cs :: WireOf(cs[k])
  }

  /** Replacing one record by another with the same wiring keeps the wiring. */
  lemma WiresUpdate(cs: Components, id: string, c: Component)
    requires id in cs && WireOf(c) == WireOf(cs[id])
    ensures Wires(cs[id := c]) == Wires(cs)
  {
  }

  /** A port reference that is either unconnected or names a component. */
  predicate Linked(w: Wiring, ref: string) {
    ref == "" || ref in w
  }

  /** Every connected port of every component names a component of the
      graph, so the lookups `components[guid]` of the engine never miss; and
      no component uses the empty id, which marks an unconnected port. */
  predicate Closed(w: Wiring) {
    && "" !in w
    && forall k :: k in w ==>
      && Linked(w, w[k].inputPort1) && Linked(w, w[k].inputPort2)
      && Linked(w, w[k].outputPort1) && Linked(w, w[k].outputPort2)
  }

  ghost predicate Below(rank: map<string, nat>, ref: string, bound: nat) {
    ref == "" || (ref in rank && rank[ref] < bound)
  }

  /** `rank` strictly decreases along every output port, so following output
      ports always ends: the wiring has no cycle. */
  ghost predicate Ranked(w: Wiring, rank: map<string, nat>) {
    forall k :: k in w ==>
      && k in rank
      && Below(rank, w[k].outputPort1, rank[k])
      && Below(rank, w[k].outputPort2, rank[k])
  }

  /** The graphs on which propagation is defined: closed and acyclic. */
  ghost predicate Acyclic(w: Wiring, rank: map<string, nat>) {
    Closed(w) && Ranked(w, rank)
  }

  /** Termination measure of the depth-first walk from a port reference:
      an unconnected port ends the walk at once. */
  ghost function Depth(rank: map<string, nat>, ref: string): nat {
    if ref != "" && ref in rank then rank[ref] + 1 else 0
  }

  /** The components a propagation starting at `id` visits: `id` itself and,
      unless it is an OUTPUT, everything reachable from its output ports. */
  ghost function Reach(w: Wiring, id: string, rank: map<string, nat>): set<string>
    requires Acyclic(w, rank) && Linked(w, id)
    decreases Depth(rank, id)
  {
    if id == "" then {}
    else if w[id].kind == OUTPUT then {id}
    else {id} + Reach(w, w[id].outputPort1, rank) + Reach(w, w[id].outputPort2, rank)
  }

  /** The OUTPUT components a propagation starting at `id` reports, in the
      order of a depth-first walk taking output port 1 before output port 2.
      It is defined on the wiring alone: it does not look at any state. */
  function Fired(w: Wiring, id: string, ghost rank: map<string, nat>): seq<string>
    requires Acyclic(w, rank) && Linked(w, id)
    decreases Depth(rank, id)
  {
    if id == "" then []
    else if w[id].kind == OUTPUT then [id]
    else Fired(w, w[id].outputPort1, rank) + Fired(w, w[id].outputPort2, rank)
  }

  /** Everything a propagation visits lies in the graph and ranks no higher
      than where it started. */
  lemma {:induction false} ReachBelow(w: Wiring, id: string, rank: map<string, nat>, x: string)
    requires Acyclic(w, rank) && Linked(w, id)
    requires x in Reach(w, id, rank)
    ensures x in w && id in rank && x in rank && rank[x] <= rank[id]
    decreases Depth(rank, id)
  {
    if x != id {
      var c := w[id];
      if x in Reach(w, c.outputPort1, rank) {
        ReachBelow(w, c.outputPort1, rank, x);
      } else {
        ReachBelow(w, c.outputPort2, rank, x);
      }
    }
  }

  /** A walk from the output ports of `id` never comes back to `id`. */
  lemma NotRevisited(w: Wiring, id: string, rank: map<string, nat>)
    requires Acyclic(w, rank) && id in w
    ensures id !in Reach(w, w[id].outputPort1, rank)
    ensures id !in Reach(w, w[id].outputPort2, rank)
  {
    if id in Reach(w, w[id].outputPort1, rank) {
      ReachBelow(w, w[id].outputPort1, rank, id);
    }
    if id in Reach(w, w[id].outputPort2, rank) {
      ReachBelow(w, w[id].outputPort2, rank, id);
    }
  }

  /** The truth table of one gate: the new record for `c` when its inputs read
      `input1` and `input2`. INPUT and CONST have no case and keep their state. */
  function LogicUpdate(c: Component, input1: bool, input2: bool): (r: Component)
    ensures WireOf(r) == WireOf(c)
    ensures c.kind == AND ==> r.state == (input1 && input2)
    ensures c.kind == OR ==> r.state == (input1 || input2)
    ensures c.kind == XOR ==> r.state == (input1 != input2)
    ensures c.kind == NAND ==> r.state == !(input1 && input2)
    ensures c.kind == NOR ==> r.state == !(input1 || input2)
    ensures c.kind == XNOR ==> r.state == (input1 == input2)
    ensures c.kind == NOT ==> r.state == !input1
    ensures c.kind == OUTPUT || c.kind == SPLITTER ==> r.state == input1
    ensures c.kind == INPUT || c.kind == CONST ==> r == c
  {
    match c.kind
    case AND => c.(state := input1 && input2)
    case OR => c.(state := input1 || input2)
    case XOR => c.(state := (input1 && !input2) || (!input1 && input2))
    case NOT => c.(state := !input1)
    case NAND => c.(state := !input1 || !input2)
    case NOR => c.(state := !input1 && !input2)
    case XNOR => c.(state := input1 == input2)
    case OUTPUT => c.(state := input1)
    case SPLITTER => c.(state := input1)
    case INPUT => c
    case CONST => c
  }

  /** The state read through an input port: false when unconnected. */
  function ReadInputIfAvailable(cs: Components, ref: string): (r: bool)
    requires ref == "" || ref in cs
    ensures ref == "" ==> !r
    ensures ref != "" ==> r == cs[ref].state
  {
    if |ref| > 0 then cs[ref].state else false
  }

  /** The record `c` recomputed from the current states of its input ports. */
  function Recompute(cs: Components, c: Component): Component
    requires Linked(Wires(cs), c.inputPort1) && Linked(Wires(cs), c.inputPort2)
  {
    LogicUpdate(c, ReadInputIfAvailable(cs, c.inputPort1), ReadInputIfAvailable(cs, c.inputPort2))
  }

  /** One invocation of the output callback. */
  datatype Event = Event(guid: string, state: bool)

  /** The ids carried by a sequence of callback events, in order. */
  function Ids(events: seq<Event>): (ids: seq<string>)
    ensures |ids| == |events|
    ensures forall i :: 0 <= i < |events| ==> ids[i] == events[i].guid
  {
    if |events| == 0 then [] else [events[0].guid] + Ids(events[1..])
  }

  lemma {:induction false} IdsAppend(a: seq<Event>, b: seq<Event>)
    ensures Ids(a + b) == Ids(a) + Ids(b)
  {
    if |a| > 0 {
      assert (a + b)[1..] == a[1..] + b;
      IdsAppend(a[1..], b);
    } else {
      assert a + b == b;
    }
  }

  /** The graph after a propagation, and the callbacks it made, in order. */
  datatype Propagation = Propagation(components: Components, events: seq<Event>)

  /** Recompute component `id` from its inputs; report it if it is an OUTPUT,
      otherwise propagate into its output ports. An empty id does nothing. */
  function Propagate(cs: Components, id: string, ghost rank: map<string, nat>): (r: Propagation)
    requires Acyclic(Wires(cs), rank)
    requires id == "" || id in cs
    ensures Wires(r.components) == Wires(cs)
    ensures forall k :: k in cs && k !in Reach(Wires(cs), id, rank) ==> r.components[k] == cs[k]
    ensures Ids(r.events) == Fired(Wires(cs), id, rank)
    ensures id == "" ==> r == Propagation(cs, [])
    ensures id != "" && cs[id].kind == OUTPUT ==>
      var s := ReadInputIfAvailable(cs, cs[id].inputPort1);
      && r.components == cs[id := cs[id].(state := s)]
      && r.events == [Event(id, s)]
    ensures id != "" && cs[id].kind != OUTPUT ==> r.components[id] == Recompute(cs, cs[id])
    decreases Depth(rank, id), 1
  {
    if |id| > 0 then
      var updated := Recompute(cs, cs[id]);
      WiresUpdate(cs, id, updated);
      var cs1 := cs[id := updated];
      if updated.kind == OUTPUT then
        Propagation(cs1, [Event(id, updated.state)])
      else
        NotRevisited(Wires(cs), id, rank);
        Fanout(cs1, id, rank)
    else
      Propagation(cs, [])
  }

  /** Propagate into output port 1 of `id`, then into output port 2 of `id`,
      each on the graph the previous step left. */
  function Fanout(cs: Components, id: string, ghost rank: map<string, nat>): (r: Propagation)
    requires Acyclic(Wires(cs), rank)
    requires id in cs
    ensures Wires(r.components) == Wires(cs)
    ensures forall k ::
      (k in cs && k !in Reach(Wires(cs), cs[id].outputPort1, rank) && k !in Reach(Wires(cs), cs[id].outputPort2, rank))
      ==> r.components[k] == cs[k]
    ensures Ids(r.events) == Fired(Wires(cs), cs[id].outputPort1, rank) + Fired(Wires(cs), cs[id].outputPort2, rank)
    ensures forall k ::
      (k in Reach(Wires(cs), cs[id].outputPort1, rank) && k !in Reach(Wires(cs), cs[id].outputPort2, rank))
      ==> k in cs && r.components[k] == Propagate(cs, cs[id].outputPort1, rank).components[k]
    decreases rank[id] + 1, 0
  {
    var c := cs[id];
    var p1 := Propagate(cs, c.outputPort1, rank);
    var p2 := Propagate(p1.components, c.outputPort2, rank);
    IdsAppend(p1.events, p2.events);
    forall k | k in Reach(Wires(cs), c.outputPort1, rank) ensures k in cs {
      ReachBelow(Wires(cs), c.outputPort1, rank, k);
    }
    Propagation(p2.components, p1.events + p2.events)
  }

  /** Write an INPUT component and propagate from both of its output ports.
      Writing any other kind is refused: nothing changes and nothing fires. */
  function SetInput(cs: Components, id: string, value: bool, ghost rank: map<string, nat>): (r: Propagation)
    requires Acyclic(Wires(cs), rank)
    requires id in cs
    ensures cs[id].kind != INPUT ==> r == Propagation(cs, [])
    ensures cs[id].kind == INPUT ==>
      && Wires(r.components) == Wires(cs)
      && r.components[id].state == value
      && Ids(r.events) == Fired(Wires(cs), cs[id].outputPort1, rank) + Fired(Wires(cs), cs[id].outputPort2, rank)
      && forall k ::
           (k in cs && k != id && k !in Reach(Wires(cs), cs[id].outputPort1, rank) && k !in Reach(Wires(cs), cs[id].outputPort2, rank))
           ==> r.components[k] == cs[k]
  {
    var c := cs[id];
    if c.kind == INPUT then
      WiresUpdate(cs, id, c.(state := value));
      var cs0 := cs[id := c.(state := value)];
      var r := Fanout(cs0, id, rank);
      NotRevisited(Wires(cs), id, rank);
      r
    else
      Propagation(cs, [])
  }

  /** The state of an OUTPUT component; false for every other kind. */
  function GetOutput(cs: Components, id: string): (r: bool)
    requires id in cs
    ensures cs[id].kind == OUTPUT ==> r == cs[id].state
    ensures cs[id].kind != OUTPUT ==> !r
  {
    if cs[id].kind == OUTPUT then cs[id].state else false
  }

  /** The state of any component. */
  function GetComponentState(cs: Components, id: string): (r: bool)
    requires id in cs
    ensures r == cs[id].state
  {
    cs[id].state
  }

  /** The two observers agree: an OUTPUT reads as its state either way, and
      `GetOutput` hides the state of every other kind. */
  lemma ObserversAgree(cs: Components, id: string)
    requires id in cs
    ensures GetOutput(cs, id) == (cs[id].kind == OUTPUT && GetComponentState(cs, id))
  {
  }

  /** A friendly name bound to a component id. */
  datatype Binding = Binding(name: string, guid: string)

  /** Whether some binding uses `name`. */
  predicate Bound(names: seq<Binding>, name: string) {
    exists b :: b in names && b.name == name
  }

  /** No name is bound twice. */
  predicate UniqueNames(names: seq<Binding>) {
    forall i, j :: 0 <= i < j < |names| ==> names[i].name != names[j].name
  }

  /** The id the first binding of `name` gives, if any. */
  function Lookup(names: seq<Binding>, name: string): (r: Option<string>)
    ensures r.Some? <==> Bound(names, name)
    ensures r.Some? ==> Binding(name, r.value) in names
  {
    if |names| == 0 then None
    else if names[0].name == name then Some(names[0].guid)
    else Lookup(names[1..], name)
  }

  /** The input and output name lists built when the graph is loaded. */
  datatype NameIndex = NameIndex(inputNames: seq<string>, outputNames: seq<string>)

  /** File one binding's name under the list of the kind it targets, if any. */
  function Place(cs: Components, prev: NameIndex, b: Binding): NameIndex
    requires b.guid in cs
  {
    if cs[b.guid].kind == OUTPUT then prev.(outputNames := prev.outputNames + [b.name])
    else if cs[b.guid].kind == INPUT then prev.(inputNames := prev.inputNames + [b.name])
    else prev
  }

  /** Partition the name map, in its enumeration order, into the names of
      INPUT components and the names of OUTPUT components. */
  function Initialize(cs: Components, names: seq<Binding>): (r: NameIndex)
    requires forall b :: b in names ==> b.guid in cs
    ensures forall n :: n in r.outputNames <==> exists b :: b in names && b.name == n && cs[b.guid].kind == OUTPUT
    ensures forall n :: n in r.inputNames <==> exists b :: b in names && b.name == n && cs[b.guid].kind == INPUT
    ensures |r.inputNames| + |r.outputNames| <= |names|
  {
    if |names| == 0 then NameIndex([], [])
    else
      var b := names[|names| - 1];
      assert forall x :: x in names <==> x in names[..|names| - 1] || x == b;
      Place(cs, Initialize(cs, names[..|names| - 1]), b)
  }

  /** One binding gives its name to exactly one of the two lists, by the kind
      it targets, or to neither. */
  lemma InitializeSingle(cs: Components, b: Binding)
    requires b.guid in cs
    ensures Initialize(cs, [b]) ==
      if cs[b.guid].kind == OUTPUT then NameIndex([], [b.name])
      else if cs[b.guid].kind == INPUT then NameIndex([b.name], [])
      else NameIndex([], [])
  {
  }

  /** Filing a binding after a prefix only extends the prefix's lists. */
  lemma PlaceAfter(cs: Components, i: seq<string>, o: seq<string>, prev: NameIndex, b: Binding)
    requires b.guid in cs
    ensures var q := Place(cs, prev, b);
      Place(cs, NameIndex(i + prev.inputNames, o + prev.outputNames), b) == NameIndex(i + q.inputNames, o + q.outputNames)
  {
  }

  /** Partitioning commutes with concatenation, so both lists keep the
      enumeration order of the bindings and list each binding's name once. */
  lemma {:induction false} InitializeAppend(cs: Components, a: seq<Binding>, b: seq<Binding>)
    requires forall x :: x in a ==> x.guid in cs
    requires forall x :: x in b ==> x.guid in cs
    ensures forall x :: x in a + b ==> x.guid in cs
    ensures var ra, rb := Initialize(cs, a), Initialize(cs, b);
      Initialize(cs, a + b) == NameIndex(ra.inputNames + rb.inputNames, ra.outputNames + rb.outputNames)
  {
    assert forall x :: x in a + b ==> x in a || x in b;
    if |b| == 0 {
      assert a + b == a;
    } else {
      var front, x := b[..|b| - 1], b[|b| - 1];
      assert forall y :: y in front ==> y in b;
      assert x in b;
      InitializeAppend(cs, a, front);
      assert (a + b)[..|a + b| - 1] == a + front;
      assert (a + b)[|a + b| - 1] == x;
      var ra := Initialize(cs, a);
      PlaceAfter(cs, ra.inputNames, ra.outputNames, Initialize(cs, front), x);
    }
  }
}
