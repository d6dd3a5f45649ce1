/** Small circuits worked through the engine: the callbacks each write of an
    input produces, derived from the general theorems about propagation. */
module Scenarios {
  import opened Wrappers
  import opened LogicGraph
  import opened PropagationProofs

  /** A single callback is the one its last report describes. */
  lemma SingleReport(events: seq<Event>, x: string, s: bool)
    requires Ids(events) == [x] && LastReport(events, x) == Some(s)
    ensures events == [Event(x, s)]
  {
    assert events[0].guid == x;
  }

  /** INPUT a -> NOT n -> OUTPUT b, whatever the states. */
  ghost predicate NotShaped(cs: Components) {
    && cs.Keys == {"a", "n", "b"}
    && WireOf(cs["a"]) == Wire(INPUT, "a", "", "", "n", "")
    && WireOf(cs["n"]) == Wire(NOT, "n", "a", "", "b", "")
    && WireOf(cs["b"]) == Wire(OUTPUT, "b", "n", "", "", "")
  }

  /** Ranks falling along the wires: the circuit has no cycle. */
  ghost function NotRank(): map<string, nat> {
    map["a" := 2, "n" := 1, "b" := 0]
  }

  lemma NotShapedAcyclic(cs: Components)
    requires NotShaped(cs)
    ensures Acyclic(Wires(cs), NotRank()) && Mirrored(Wires(cs))
  {
    var w, rank := Wires(cs), NotRank();
    forall k | k in w
      ensures Linked(w, w[k].inputPort1) && Linked(w, w[k].inputPort2)
      ensures Linked(w, w[k].outputPort1) && Linked(w, w[k].outputPort2)
      ensures k in rank && Below(rank, w[k].outputPort1, rank[k]) && Below(rank, w[k].outputPort2, rank[k])
      ensures Feeds(w, w[k].inputPort1, k) && Feeds(w, w[k].inputPort2, k)
    {
      assert w[k] == WireOf(cs[k]);
    }
  }

  /** Once the NOT gate and the output agree with their truth tables, the
      output is the negation of the input. */
  lemma NotAtRest(cs: Components)
    requires NotShaped(cs) && Consistent(cs, "n") && Consistent(cs, "b")
    ensures cs["b"].state == !cs["a"].state
  {
    assert Consistent(cs, "n") && Consistent(cs, "b");
  }

  /** Writing the input reports the output once. */
  lemma NotWriteFires(cs: Components, v: bool)
    requires NotShaped(cs)
    ensures Acyclic(Wires(cs), NotRank())
    ensures Ids(SetInput(cs, "a", v, NotRank()).events) == ["b"]
  {
    NotShapedAcyclic(cs);
    var w, rank := Wires(cs), NotRank();
    assert w["a"].outputPort1 == "n" && w["a"].outputPort2 == "";
    assert w["n"].kind == NOT && w["n"].outputPort1 == "b" && w["n"].outputPort2 == "";
    assert Fired(w, "b", rank) == ["b"];
    assert Fired(w, "n", rank) == ["b"];
  }

  /** Writing `v` to the input of the NOT circuit reports the output once,
      with state `!v`, whatever states the circuit held before: a freshly
      compiled circuit with every state false included. */
  lemma NotWriteInverts(cs: Components, v: bool)
    requires NotShaped(cs)
    ensures Acyclic(Wires(cs), NotRank())
    ensures SetInput(cs, "a", v, NotRank()).events == [Event("b", !v)]
  {
    NotWriteFires(cs, v);
    NotShapedAcyclic(cs);
    var w, rank := Wires(cs), NotRank();
    var r := SetInput(cs, "a", v, rank);
    assert w["a"] == WireOf(cs["a"]) && w["n"] == WireOf(cs["n"]) && w["b"] == WireOf(cs["b"]);
    assert Reach(w, "b", rank) == {"b"};
    assert "n" in Reach(w, "n", rank) && "b" in Reach(w, "n", rank);
    SetInputSettlesReached(cs, "a", v, rank);
    SetInputReportsFinalOutputs(cs, "a", v, rank);
    forall k | k in cs ensures WireOf(r.components[k]) == WireOf(cs[k]) {
      assert Wires(r.components)[k] == Wires(cs)[k];
    }
    NotAtRest(r.components);
    SingleReport(r.events, "b", r.components["b"].state);
  }

  /** INPUT a and INPUT c -> XOR x -> OUTPUT b, whatever the states. */
  ghost predicate XorShaped(cs: Components) {
    && cs.Keys == {"a", "c", "x", "b"}
    && WireOf(cs["a"]) == Wire(INPUT, "a", "", "", "x", "")
    && WireOf(cs["c"]) == Wire(INPUT, "c", "", "", "x", "")
    && WireOf(cs["x"]) == Wire(XOR, "x", "a", "c", "b", "")
    && WireOf(cs["b"]) == Wire(OUTPUT, "b", "x", "", "", "")
  }

  /** Ranks falling along the wires: the circuit has no cycle. */
  ghost function XorRank(): map<string, nat> {
    map["a" := 2, "c" := 2, "x" := 1, "b" := 0]
  }

  lemma XorShapedAcyclic(cs: Components)
    requires XorShaped(cs)
    ensures Acyclic(Wires(cs), XorRank()) && Mirrored(Wires(cs))
  {
    var w, rank := Wires(cs), XorRank();
    forall k | k in w
      ensures Linked(w, w[k].inputPort1) && Linked(w, w[k].inputPort2)
      ensures Linked(w, w[k].outputPort1) && Linked(w, w[k].outputPort2)
      ensures k in rank && Below(rank, w[k].outputPort1, rank[k]) && Below(rank, w[k].outputPort2, rank[k])
      ensures Feeds(w, w[k].inputPort1, k) && Feeds(w, w[k].inputPort2, k)
    {
      assert w[k] == WireOf(cs[k]);
    }
  }

  /** The XOR circuit with inputs `sa` and `sc` and every gate agreeing. */
  function XorCircuit(sa: bool, sc: bool): Components {
    map[
      "a" := Component(INPUT, "a", "", "", "x", "", sa),
      "c" := Component(INPUT, "c", "", "", "x", "", sc),
      "x" := Component(XOR, "x", "a", "c", "b", "", sa != sc),
      "b" := Component(OUTPUT, "b", "x", "", "", "", sa != sc)]
  }

  lemma XorCircuitAtRest(sa: bool, sc: bool)
    ensures XorShaped(XorCircuit(sa, sc)) && Settled(XorCircuit(sa, sc))
    ensures XorCircuit(sa, sc)["a"].state == sa && XorCircuit(sa, sc)["c"].state == sc
  {
    var cs := XorCircuit(sa, sc);
    assert Consistent(cs, "a") && Consistent(cs, "c") && Consistent(cs, "x") && Consistent(cs, "b");
  }

  /** The shape is a property of the wiring alone. */
  lemma XorShapeKept(cs: Components, r: Components)
    requires XorShaped(cs) && Wires(r) == Wires(cs)
    ensures XorShaped(r)
  {
    forall k | k in cs ensures WireOf(r[k]) == WireOf(cs[k]) {
      assert Wires(r)[k] == Wires(cs)[k];
    }
  }

  /** The input of the XOR circuit other than `id`. */
  function OtherInput(id: string): string {
    if id == "a" then "c" else "a"
  }

  /** Writing `v` to either input of the XOR circuit at rest leaves it at
      rest, with that input holding `v` and the other input untouched. */
  lemma XorWriteSettles(cs: Components, id: string, v: bool)
    requires XorShaped(cs) && Settled(cs)
    requires id == "a" || id == "c"
    ensures Acyclic(Wires(cs), XorRank())
    ensures var r := SetInput(cs, id, v, XorRank()).components;
      && XorShaped(r) && Settled(r) && Acyclic(Wires(r), XorRank())
      && r[id].state == v && r[OtherInput(id)] == cs[OtherInput(id)]
  {
    XorShapedAcyclic(cs);
    var rank := XorRank();
    var w := Wires(cs);
    var r := SetInput(cs, id, v, rank).components;
    SetInputKeepsSettled(cs, id, v, rank);
    XorShapeKept(cs, r);
    XorShapedAcyclic(r);
    assert w[id].outputPort1 == "x" && w[id].outputPort2 == "";
    if OtherInput(id) in Reach(w, "x", rank) {
      ReachBelow(w, "x", rank, OtherInput(id));
    }
  }

  /** Writing either input of the XOR circuit reports the output, once. */
  lemma XorWriteFires(cs: Components, id: string, v: bool)
    requires XorShaped(cs)
    requires id == "a" || id == "c"
    ensures Acyclic(Wires(cs), XorRank())
    ensures Ids(SetInput(cs, id, v, XorRank()).events) == ["b"]
  {
    XorShapedAcyclic(cs);
    var rank := XorRank();
    var w := Wires(cs);
    assert w[id].outputPort1 == "x" && w[id].outputPort2 == "";
    assert w["x"].kind == XOR && w["x"].outputPort1 == "b" && w["x"].outputPort2 == "";
    assert Fired(w, "b", rank) == ["b"];
    assert Fired(w, "x", rank) == ["b"];
  }

  /** Once the XOR gate and the output agree with their truth tables, the
      output is the xor of the inputs. */
  lemma XorAtRest(cs: Components)
    requires XorShaped(cs) && Consistent(cs, "x") && Consistent(cs, "b")
    ensures cs["b"].state == (cs["a"].state != cs["c"].state)
  {
    assert Consistent(cs, "x") && Consistent(cs, "b");
  }

  /** Writing `v` to either input of the XOR circuit at rest reports the
      output with `v` xor the other input. */
  lemma XorWriteReports(cs: Components, id: string, v: bool)
    requires XorShaped(cs) && Settled(cs)
    requires id == "a" || id == "c"
    ensures Acyclic(Wires(cs), XorRank())
    ensures var r := SetInput(cs, id, v, XorRank());
      r.events == [Event("b", v != cs[OtherInput(id)].state)]
  {
    XorWriteSettles(cs, id, v);
    XorWriteFires(cs, id, v);
    var r := SetInput(cs, id, v, XorRank());
    var rc := r.components;
    SetInputReportsFinalOutputs(cs, id, v, XorRank());
    assert "b" in Ids(r.events);
    assert GetOutput(rc, "b") == rc["b"].state by {
      assert WireOf(rc["b"]).kind == OUTPUT;
    }
    XorAtRest(rc);
    assert rc["b"].state == (v != cs[OtherInput(id)].state) by {
      if id == "a" {
        assert rc["a"].state == v && rc["c"] == cs["c"];
      } else {
        assert rc["c"].state == v && rc["a"] == cs["a"];
      }
    }
    SingleReport(r.events, "b", rc["b"].state);
  }

  /** Starting with both inputs false: writing a true reports true, then
      writing c true reports false, then writing a false reports true. */
  lemma XorSequence()
    ensures var cs0 := XorCircuit(false, false);
      && Acyclic(Wires(cs0), XorRank())
      && (var r1 := SetInput(cs0, "a", true, XorRank());
          && r1.events == [Event("b", true)]
          && Acyclic(Wires(r1.components), XorRank())
          && (var r2 := SetInput(r1.components, "c", true, XorRank());
              && r2.events == [Event("b", false)]
              && Acyclic(Wires(r2.components), XorRank())
              && SetInput(r2.components, "a", false, XorRank()).events == [Event("b", true)]))
  {
    var cs0 := XorCircuit(false, false);
    XorCircuitAtRest(false, false);
    assert OtherInput("a") == "c" && OtherInput("c") == "a";
    XorWriteSettles(cs0, "a", true);
    XorWriteReports(cs0, "a", true);
    var r1 := SetInput(cs0, "a", true, XorRank()).components;
    XorWriteSettles(r1, "c", true);
    XorWriteReports(r1, "c", true);
    var r2 := SetInput(r1, "c", true, XorRank()).components;
    XorWriteSettles(r2, "a", false);
    XorWriteReports(r2, "a", false);
  }
}
