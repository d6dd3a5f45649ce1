/** Properties of propagation that relate several calls: which OUTPUT
    components are reported, which value the last report carries, and that
    on a consistently wired acyclic circuit a propagation leaves every
    component it visits in agreement with its truth table. */
module PropagationProofs {
  import opened Wrappers
  import opened LogicGraph

  /** Component `x` agrees with its truth table: recomputing it from the
      states its input ports currently read gives the record back. INPUT and
      CONST components always agree. */
  ghost predicate Consistent(cs: Components, x: string) {
    && x in cs
    && Linked(Wires(cs), cs[x].inputPort1) && Linked(Wires(cs), cs[x].inputPort2)
    && Recompute(cs, cs[x]) == cs[x]
  }

  /** Every component of the circuit agrees with its truth table. */
  ghost predicate Settled(cs: Components) {
    forall x :: x in cs ==> Consistent(cs, x)
  }

  /** The producer `ref` (if connected) lists `x` on one of its output ports
      and, not being an OUTPUT, forwards propagation to it. */
  ghost predicate Feeds(w: Wiring, ref: string, x: string) {
    ref == "" || (ref in w && w[ref].kind != OUTPUT && (w[ref].outputPort1 == x || w[ref].outputPort2 == x))
  }

  /** Every input connection is matched by an output connection of its
      producer, as the editor's edges produce when no port is overfilled. */
  ghost predicate Mirrored(w: Wiring) {
    forall x :: x in w ==> Feeds(w, w[x].inputPort1, x) && Feeds(w, w[x].inputPort2, x)
  }

  lemma LogicUpdateIdempotent(c: Component, input1: bool, input2: bool)
    ensures LogicUpdate(LogicUpdate(c, input1, input2), input1, input2) == LogicUpdate(c, input1, input2)
  {
  }

  /** A producer ranks strictly above every component it feeds. */
  lemma InputsRankHigher(w: Wiring, rank: map<string, nat>, x: string)
    requires Acyclic(w, rank) && Mirrored(w) && x in w
    ensures w[x].inputPort1 != "" ==> w[x].inputPort1 in rank && rank[w[x].inputPort1] > rank[x]
    ensures w[x].inputPort2 != "" ==> w[x].inputPort2 in rank && rank[w[x].inputPort2] > rank[x]
  {
    assert Feeds(w, w[x].inputPort1, x) && Feeds(w, w[x].inputPort2, x);
    var y1, y2 := w[x].inputPort1, w[x].inputPort2;
    if y1 != "" {
      assert Below(rank, w[y1].outputPort1, rank[y1]) && Below(rank, w[y1].outputPort2, rank[y1]);
    }
    if y2 != "" {
      assert Below(rank, w[y2].outputPort1, rank[y2]) && Below(rank, w[y2].outputPort2, rank[y2]);
    }
  }

  /** The visited set is closed under the output ports of every non-OUTPUT
      component in it. */
  lemma {:induction false} ReachForward(w: Wiring, id: string, rank: map<string, nat>, y: string)
    requires Acyclic(w, rank) && Linked(w, id)
    requires y in w && y in Reach(w, id, rank) && w[y].kind != OUTPUT
    ensures w[y].outputPort1 == "" || w[y].outputPort1 in Reach(w, id, rank)
    ensures w[y].outputPort2 == "" || w[y].outputPort2 in Reach(w, id, rank)
    decreases Depth(rank, id)
  {
    if y != id {
      if y in Reach(w, w[id].outputPort1, rank) {
        ReachForward(w, w[id].outputPort1, rank, y);
      } else {
        ReachForward(w, w[id].outputPort2, rank, y);
      }
    }
  }

  /** On mirrored wiring, a component fed by a visited producer is visited. */
  lemma ConsumerReached(w: Wiring, id: string, rank: map<string, nat>, y: string, x: string)
    requires Acyclic(w, rank) && Mirrored(w) && Linked(w, id)
    requires y in Reach(w, id, rank) && x in w
    requires w[x].inputPort1 == y || w[x].inputPort2 == y
    ensures x in Reach(w, id, rank)
  {
    ReachBelow(w, id, rank, y);
    assert Feeds(w, y, x) by {
      assert Feeds(w, w[x].inputPort1, x) && Feeds(w, w[x].inputPort2, x);
    }
    ReachForward(w, id, rank, y);
  }

  /** A component that agreed with its truth table still does when neither
      it nor the components it reads have changed. */
  lemma StaysConsistent(cs: Components, cs': Components, x: string)
    requires Consistent(cs, x) && Wires(cs') == Wires(cs)
    requires cs'[x] == cs[x]
    requires cs[x].inputPort1 != "" ==> cs'[cs[x].inputPort1].state == cs[cs[x].inputPort1].state
    requires cs[x].inputPort2 != "" ==> cs'[cs[x].inputPort2].state == cs[cs[x].inputPort2].state
    ensures Consistent(cs', x)
  {
  }

  /** A component outside the visited set that agreed with its truth table
      still agrees after the propagation: on mirrored wiring nothing it
      reads was visited either. */
  lemma PropagatePreservesConsistent(cs: Components, id: string, rank: map<string, nat>, x: string)
    requires Acyclic(Wires(cs), rank) && Mirrored(Wires(cs))
    requires id == "" || id in cs
    requires Consistent(cs, x) && x !in Reach(Wires(cs), id, rank)
    ensures Consistent(Propagate(cs, id, rank).components, x)
  {
    var w := Wires(cs);
    var r := Propagate(cs, id, rank);
    forall y | y != "" && (y == w[x].inputPort1 || y == w[x].inputPort2)
      ensures y !in Reach(w, id, rank)
    {
      if y in Reach(w, id, rank) {
        ConsumerReached(w, id, rank, y, x);
      }
    }
    StaysConsistent(cs, r.components, x);
  }

  /** The same for a propagation from both output ports of `id`. */
  lemma FanoutPreservesConsistent(cs: Components, id: string, rank: map<string, nat>, x: string)
    requires Acyclic(Wires(cs), rank) && Mirrored(Wires(cs))
    requires id in cs
    requires Consistent(cs, x)
    requires x !in Reach(Wires(cs), cs[id].outputPort1, rank) && x !in Reach(Wires(cs), cs[id].outputPort2, rank)
    ensures Consistent(Fanout(cs, id, rank).components, x)
  {
    var p1 := Propagate(cs, cs[id].outputPort1, rank);
    PropagatePreservesConsistent(cs, cs[id].outputPort1, rank, x);
    PropagatePreservesConsistent(p1.components, cs[id].outputPort2, rank, x);
  }

  /** After propagating from `id`, every visited component agrees with its
      truth table. */
  lemma {:induction false} PropagateSettles(cs: Components, id: string, rank: map<string, nat>)
    requires Acyclic(Wires(cs), rank) && Mirrored(Wires(cs))
    requires id == "" || id in cs
    ensures forall x :: x in Reach(Wires(cs), id, rank) ==> Consistent(Propagate(cs, id, rank).components, x)
    decreases Depth(rank, id), 1
  {
    if id != "" {
      var w := Wires(cs);
      var c := cs[id];
      var u := Recompute(cs, c);
      var cs1 := cs[id := u];
      WiresUpdate(cs, id, u);
      InputsRankHigher(w, rank, id);
      LogicUpdateIdempotent(c, ReadInputIfAvailable(cs, c.inputPort1), ReadInputIfAvailable(cs, c.inputPort2));
      assert Consistent(cs1, id);
      if u.kind != OUTPUT {
        FanoutSettles(cs1, id, rank);
        NotRevisited(w, id, rank);
        FanoutPreservesConsistent(cs1, id, rank, id);
      }
    }
  }

  /** After propagating from both output ports of `id`, every component
      visited from either port agrees with its truth table. */
  lemma {:induction false} FanoutSettles(cs: Components, id: string, rank: map<string, nat>)
    requires Acyclic(Wires(cs), rank) && Mirrored(Wires(cs))
    requires id in cs
    ensures forall x ::
      (x in Reach(Wires(cs), cs[id].outputPort1, rank) + Reach(Wires(cs), cs[id].outputPort2, rank))
      ==> Consistent(Fanout(cs, id, rank).components, x)
    decreases rank[id] + 1, 0
  {
    var w := Wires(cs);
    var c := cs[id];
    var p1 := Propagate(cs, c.outputPort1, rank);
    PropagateSettles(cs, c.outputPort1, rank);
    PropagateSettles(p1.components, c.outputPort2, rank);
    forall x | x in Reach(w, c.outputPort1, rank) && x !in Reach(w, c.outputPort2, rank)
      ensures Consistent(Fanout(cs, id, rank).components, x)
    {
      PropagatePreservesConsistent(p1.components, c.outputPort2, rank, x);
    }
  }

  /** SetInput keeps a settled circuit settled: once it returns, every
      component again agrees with its truth table. */
  lemma SetInputKeepsSettled(cs: Components, id: string, value: bool, rank: map<string, nat>)
    requires Acyclic(Wires(cs), rank) && Mirrored(Wires(cs))
    requires id in cs && Settled(cs)
    ensures Settled(SetInput(cs, id, value, rank).components)
  {
    var c := cs[id];
    if c.kind == INPUT {
      var w := Wires(cs);
      var cs0 := cs[id := c.(state := value)];
      WiresUpdate(cs, id, c.(state := value));
      FanoutSettles(cs0, id, rank);
      forall x | x in cs && x !in Reach(w, c.outputPort1, rank) && x !in Reach(w, c.outputPort2, rank)
        ensures Consistent(SetInput(cs, id, value, rank).components, x)
      {
        WrittenInputKeepsOthers(cs, id, value, rank, x);
        FanoutPreservesConsistent(cs0, id, rank, x);
      }
    }
  }

  /** Whatever state the circuit was in, a write to an INPUT leaves every
      component visited from its output ports in agreement with its truth
      table: each is recomputed after everything it reads. */
  lemma SetInputSettlesReached(cs: Components, id: string, value: bool, rank: map<string, nat>)
    requires Acyclic(Wires(cs), rank) && Mirrored(Wires(cs))
    requires id in cs && cs[id].kind == INPUT
    ensures forall x ::
      (x in Reach(Wires(cs), cs[id].outputPort1, rank) + Reach(Wires(cs), cs[id].outputPort2, rank))
      ==> Consistent(SetInput(cs, id, value, rank).components, x)
  {
    var c := cs[id];
    var cs0 := cs[id := c.(state := value)];
    WiresUpdate(cs, id, c.(state := value));
    FanoutSettles(cs0, id, rank);
  }

  /** Writing an INPUT disturbs no component outside the sets visited from
      its output ports. */
  lemma WrittenInputKeepsOthers(cs: Components, id: string, value: bool, rank: map<string, nat>, x: string)
    requires Acyclic(Wires(cs), rank) && Mirrored(Wires(cs))
    requires id in cs && cs[id].kind == INPUT && Consistent(cs, x)
    requires x !in Reach(Wires(cs), cs[id].outputPort1, rank) && x !in Reach(Wires(cs), cs[id].outputPort2, rank)
    ensures Consistent(cs[id := cs[id].(state := value)], x)
  {
    var w := Wires(cs);
    var c := cs[id].(state := value);
    var cs0 := cs[id := c];
    WiresUpdate(cs, id, c);
    assert Feeds(w, w[x].inputPort1, x) && Feeds(w, w[x].inputPort2, x);
    if x != id {
      assert w[x] == WireOf(cs[x]);
      assert ReadInputIfAvailable(cs0, cs[x].inputPort1) == ReadInputIfAvailable(cs, cs[x].inputPort1);
      assert ReadInputIfAvailable(cs0, cs[x].inputPort2) == ReadInputIfAvailable(cs, cs[x].inputPort2);
    }
  }

  /** A component is reported by a propagation exactly when the propagation
      visits it and it is an OUTPUT. */
  lemma {:induction false} FiredIsOutputReach(w: Wiring, id: string, rank: map<string, nat>, x: string)
    requires Acyclic(w, rank) && Linked(w, id)
    ensures x in Fired(w, id, rank) <==> x in Reach(w, id, rank) && x in w && w[x].kind == OUTPUT
    decreases Depth(rank, id)
  {
    if id != "" && w[id].kind != OUTPUT {
      var o1, o2 := w[id].outputPort1, w[id].outputPort2;
      FiredIsOutputReach(w, o1, rank, x);
      FiredIsOutputReach(w, o2, rank, x);
      if x == id {
        if x in Reach(w, o1, rank) { ReachBelow(w, o1, rank, x); }
        if x in Reach(w, o2, rank) { ReachBelow(w, o2, rank, x); }
      }
    }
  }

  /** The state the last callback for `x` delivered, if there was one. */
  function LastReport(events: seq<Event>, x: string): Option<bool> {
    if |events| == 0 then None
    else if events[|events| - 1].guid == x then Some(events[|events| - 1].state)
    else LastReport(events[..|events| - 1], x)
  }

  lemma {:induction false} LastReportAppend(a: seq<Event>, b: seq<Event>, x: string)
    ensures LastReport(a + b, x) == if LastReport(b, x).Some? then LastReport(b, x) else LastReport(a, x)
    decreases |b|
  {
    if |b| == 0 {
      assert a + b == a;
    } else {
      assert (a + b)[..|a + b| - 1] == a + b[..|b| - 1];
      LastReportAppend(a, b[..|b| - 1], x);
    }
  }

  lemma {:induction false} LastReportAbsent(events: seq<Event>, x: string)
    requires x !in Ids(events)
    ensures LastReport(events, x) == None
    decreases |events|
  {
    if |events| > 0 {
      assert Ids(events)[|events| - 1] == events[|events| - 1].guid;
      var front := events[..|events| - 1];
      assert forall i :: 0 <= i < |front| ==> Ids(front)[i] == Ids(events)[i];
      LastReportAbsent(front, x);
    }
  }

  /** For every OUTPUT a propagation reports, the last report carries the
      state the component is left in. */
  lemma {:induction false} PropagateReportsFinalState(cs: Components, id: string, rank: map<string, nat>)
    requires Acyclic(Wires(cs), rank)
    requires id == "" || id in cs
    ensures var r := Propagate(cs, id, rank);
      forall x :: x in Fired(Wires(cs), id, rank) ==> x in r.components && LastReport(r.events, x) == Some(r.components[x].state)
    decreases Depth(rank, id), 1
  {
    if id != "" {
      var u := Recompute(cs, cs[id]);
      WiresUpdate(cs, id, u);
      if u.kind != OUTPUT {
        FanoutReportsFinalState(cs[id := u], id, rank);
      }
    }
  }

  lemma {:induction false} FanoutReportsFinalState(cs: Components, id: string, rank: map<string, nat>)
    requires Acyclic(Wires(cs), rank)
    requires id in cs
    ensures var r := Fanout(cs, id, rank);
      forall x :: x in Fired(Wires(cs), cs[id].outputPort1, rank) + Fired(Wires(cs), cs[id].outputPort2, rank)
        ==> x in r.components && LastReport(r.events, x) == Some(r.components[x].state)
    decreases rank[id] + 1, 0
  {
    var w := Wires(cs);
    var o1, o2 := cs[id].outputPort1, cs[id].outputPort2;
    var p1 := Propagate(cs, o1, rank);
    var p2 := Propagate(p1.components, o2, rank);
    PropagateReportsFinalState(cs, o1, rank);
    PropagateReportsFinalState(p1.components, o2, rank);
    assert Fanout(cs, id, rank) == Propagation(p2.components, p1.events + p2.events);
    forall x | x in Fired(w, o2, rank)
      ensures LastReport(p1.events + p2.events, x) == Some(p2.components[x].state)
    {
      LastReportAppend(p1.events, p2.events, x);
    }
    forall x | x in Fired(w, o1, rank) && x !in Fired(w, o2, rank)
      ensures x in p2.components && LastReport(p1.events + p2.events, x) == Some(p2.components[x].state)
    {
      FiredIsOutputReach(w, o1, rank, x);
      LaterPropagationKeepsReport(p1.components, o2, rank, p1.events, x);
    }
  }

  /** A propagation that does not report `x` leaves both its state and its
      last report as they were. */
  lemma LaterPropagationKeepsReport(cs: Components, id: string, rank: map<string, nat>, before: seq<Event>, x: string)
    requires Acyclic(Wires(cs), rank)
    requires id == "" || id in cs
    requires x in cs && cs[x].kind == OUTPUT && x !in Fired(Wires(cs), id, rank)
    requires LastReport(before, x) == Some(cs[x].state)
    ensures var r := Propagate(cs, id, rank);
      LastReport(before + r.events, x) == Some(r.components[x].state)
  {
    var r := Propagate(cs, id, rank);
    FiredIsOutputReach(Wires(cs), id, rank, x);
    LastReportAbsent(r.events, x);
    LastReportAppend(before, r.events, x);
  }

  /** After SetInput, reading any OUTPUT that was reported gives the value
      its last callback delivered. */
  lemma SetInputReportsFinalOutputs(cs: Components, id: string, value: bool, rank: map<string, nat>)
    requires Acyclic(Wires(cs), rank)
    requires id in cs
    ensures var r := SetInput(cs, id, value, rank);
      forall x :: x in Ids(r.events) ==> x in r.components && LastReport(r.events, x) == Some(GetOutput(r.components, x))
  {
    var c := cs[id];
    if c.kind == INPUT {
      var w := Wires(cs);
      var cs0 := cs[id := c.(state := value)];
      WiresUpdate(cs, id, c.(state := value));
      FanoutReportsFinalState(cs0, id, rank);
      var r := SetInput(cs, id, value, rank);
      forall x | x in Ids(r.events)
        ensures x in r.components && r.components[x].kind == OUTPUT
      {
        FiredIsOutputReach(w, c.outputPort1, rank, x);
        FiredIsOutputReach(w, c.outputPort2, rank, x);
      }
    }
  }

  /** There is no change suppression: writing an INPUT with the value it
      already holds reports every OUTPUT reachable from it, exactly the
      reports a write of the opposite value makes. */
  lemma NoChangeSuppression(cs: Components, id: string, rank: map<string, nat>, x: string)
    requires Acyclic(Wires(cs), rank)
    requires id in cs && cs[id].kind == INPUT
    requires x in cs && cs[x].kind == OUTPUT
    requires x in Reach(Wires(cs), cs[id].outputPort1, rank) + Reach(Wires(cs), cs[id].outputPort2, rank)
    ensures x in Ids(SetInput(cs, id, cs[id].state, rank).events)
    ensures Ids(SetInput(cs, id, cs[id].state, rank).events) == Ids(SetInput(cs, id, !cs[id].state, rank).events)
  {
    FiredIsOutputReach(Wires(cs), cs[id].outputPort1, rank, x);
    FiredIsOutputReach(Wires(cs), cs[id].outputPort2, rank, x);
  }
}
