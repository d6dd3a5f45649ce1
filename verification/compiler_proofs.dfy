/** What the compiled graph is, stated without the fold: each record's ports
    against the list of edges touching its node, each name against the
    first candidate binding, and the engine's loading conditions. */
module CompilerProofs {
  import opened Wrappers
  import opened LogicGraph
  import opened GraphCompiler

  /** The ids of the nodes at either end of some link. */
  function Mentioned(links: seq<Link>): set<string> {
    if |links| == 0 then {}
    else Mentioned(links[..|links| - 1]) + {links[|links| - 1].consumer.guid, links[|links| - 1].producer.guid}
  }

  /** The ids of the nodes feeding node `g`, one per link, in link order. */
  function ProducersOf(links: seq<Link>, g: string): seq<string> {
    if |links| == 0 then []
    else
      var l := links[|links| - 1];
      ProducersOf(links[..|links| - 1], g) + (if l.consumer.guid == g then [l.producer.guid] else [])
  }

  /** The ids of the nodes fed by node `g`, one per link, in link order. */
  function ConsumersOf(links: seq<Link>, g: string): seq<string> {
    if |links| == 0 then []
    else
      var l := links[|links| - 1];
      ConsumersOf(links[..|links| - 1], g) + (if l.producer.guid == g then [l.consumer.guid] else [])
  }

  /** The node with id `g` as first met, reading each link consumer first. */
  function FirstNode(links: seq<Link>, g: string): Option<Node> {
    if |links| == 0 then None
    else
      var l := links[|links| - 1];
      var earlier := FirstNode(links[..|links| - 1], g);
      if earlier.Some? then earlier
      else if l.consumer.guid == g then Some(l.consumer)
      else if l.producer.guid == g then Some(l.producer)
      else None
  }

  /** The binding one end of a link offers, if that end is looked up by name
      and carries one. */
  function Offer(node: Node, named: bool): seq<Binding> {
    if named && node.name.Some? then [Binding(node.name.value, node.guid)] else []
  }

  /** The bindings a link offers: its consumer if that is an OUTPUT, then its
      producer if that is an INPUT. */
  function LinkCandidates(l: Link): seq<Binding> {
    Offer(l.consumer, l.consumer.kind == OUTPUT) + Offer(l.producer, l.producer.kind == INPUT)
  }

  /** Every binding the links offer, in order, duplicates included. */
  function Candidates(links: seq<Link>): seq<Binding> {
    if |links| == 0 then [] else Candidates(links[..|links| - 1]) + LinkCandidates(links[|links| - 1])
  }

  /** Port 1 holds the first id listed, or nothing. */
  function FirstSlot(ids: seq<string>): string {
    if |ids| == 0 then "" else ids[0]
  }

  /** Port 2 holds the last id after the first, or nothing. */
  function SecondSlot(ids: seq<string>): string {
    if |ids| < 2 then "" else ids[|ids| - 1]
  }

  /** Editor nodes always carry a non-empty id. */
  ghost predicate NonEmptyIds(links: seq<Link>) {
    forall l :: l in links ==> l.consumer.guid != "" && l.producer.guid != ""
  }

  lemma NonEmptyIdsFront(links: seq<Link>)
    requires |links| > 0 && NonEmptyIds(links)
    ensures NonEmptyIds(links[..|links| - 1])
    ensures links[|links| - 1].consumer.guid != "" && links[|links| - 1].producer.guid != ""
  {
    assert links[|links| - 1] in links;
    forall l | l in links[..|links| - 1] ensures l in links { }
  }

  /** The last link of a non-empty list is compiled after all the others. */
  lemma FoldLast(links: seq<Link>)
    requires |links| > 0
    ensures var front := links[..|links| - 1];
      var l := links[|links| - 1];
      Fold(links).components == AddProducer(AddConsumer(Fold(front).components, l.consumer, l.producer.guid), l.producer, l.consumer.guid)
  {
  }

  lemma FoldLastNames(links: seq<Link>)
    requires |links| > 0
    ensures var front := links[..|links| - 1];
      var l := links[|links| - 1];
      var names1 := if l.consumer.kind == OUTPUT then BindName(Fold(front).names, l.consumer) else Fold(front).names;
      Fold(links).names == if l.producer.kind == INPUT then BindName(names1, l.producer) else names1
  {
  }

  /** The compiled map has a record for exactly the nodes some link touches. */
  lemma {:induction false} CompiledKeys(links: seq<Link>)
    ensures Fold(links).components.Keys == Mentioned(links)
  {
    if |links| > 0 {
      CompiledKeys(links[..|links| - 1]);
    }
  }

  /** A node no link touches feeds nothing, is fed by nothing and is never met. */
  lemma {:induction false} Unmentioned(links: seq<Link>, g: string)
    requires g !in Mentioned(links)
    ensures ProducersOf(links, g) == [] && ConsumersOf(links, g) == [] && FirstNode(links, g) == None
  {
    if |links| > 0 {
      Unmentioned(links[..|links| - 1], g);
    }
  }

  lemma {:induction false} ProducersNonEmpty(links: seq<Link>, g: string)
    requires NonEmptyIds(links)
    ensures forall i :: 0 <= i < |ProducersOf(links, g)| ==> ProducersOf(links, g)[i] != ""
    ensures forall i :: 0 <= i < |ConsumersOf(links, g)| ==> ConsumersOf(links, g)[i] != ""
  {
    if |links| > 0 {
      NonEmptyIdsFront(links);
      ProducersNonEmpty(links[..|links| - 1], g);
    }
  }

  /** Filling port 1 if empty, else overwriting port 2, keeps the slots in
      step with the list of ids. */
  lemma SlotsAfterAppend(ids: seq<string>, x: string)
    requires forall i :: 0 <= i < |ids| ==> ids[i] != ""
    ensures FirstSlot(ids) != "" ==> FirstSlot(ids + [x]) == FirstSlot(ids) && SecondSlot(ids + [x]) == x
    ensures FirstSlot(ids) == "" ==> FirstSlot(ids + [x]) == x && SecondSlot(ids + [x]) == SecondSlot(ids)
  {
  }

  /** Input port 1 of every compiled record names the node of the first link
      into it, and input port 2 the node of the last further link: a third
      incoming link overwrites port 2. */
  lemma {:induction false} CompiledInputPorts(links: seq<Link>, g: string)
    requires NonEmptyIds(links)
    ensures var cs := Fold(links).components;
      g in cs ==> cs[g].inputPort1 == FirstSlot(ProducersOf(links, g)) && cs[g].inputPort2 == SecondSlot(ProducersOf(links, g))
  {
    if |links| > 0 {
      var front := links[..|links| - 1];
      var l := links[|links| - 1];
      NonEmptyIdsFront(links);
      CompiledInputPorts(front, g);
      CompiledKeys(front);
      var ids := ProducersOf(front, g);
      var cs := Fold(front).components;
      var cs1 := AddConsumer(cs, l.consumer, l.producer.guid);
      var cs2 := AddProducer(cs1, l.producer, l.consumer.guid);
      FoldLast(links);
      if g in cs1 {
        assert cs2[g].inputPort1 == cs1[g].inputPort1 && cs2[g].inputPort2 == cs1[g].inputPort2;
        if g == l.consumer.guid {
          assert ProducersOf(links, g) == ids + [l.producer.guid];
          if g in cs {
            ProducersNonEmpty(front, g);
            SlotsAfterAppend(ids, l.producer.guid);
          } else {
            Unmentioned(front, g);
          }
        } else {
          assert ProducersOf(links, g) == ids;
        }
      } else {
        Unmentioned(front, g);
        assert ProducersOf(links, g) == ids;
      }
    }
  }

  /** Output port 1 of every compiled record names the node of the first link
      out of it, and output port 2 the node of the last further link. */
  lemma {:induction false} CompiledOutputPorts(links: seq<Link>, g: string)
    requires NonEmptyIds(links)
    ensures var cs := Fold(links).components;
      g in cs ==> cs[g].outputPort1 == FirstSlot(ConsumersOf(links, g)) && cs[g].outputPort2 == SecondSlot(ConsumersOf(links, g))
  {
    if |links| > 0 {
      var front := links[..|links| - 1];
      var l := links[|links| - 1];
      NonEmptyIdsFront(links);
      CompiledOutputPorts(front, g);
      CompiledKeys(front);
      var ids := ConsumersOf(front, g);
      var cs := Fold(front).components;
      var cs1 := AddConsumer(cs, l.consumer, l.producer.guid);
      var cs2 := AddProducer(cs1, l.producer, l.consumer.guid);
      FoldLast(links);
      if g !in cs {
        Unmentioned(front, g);
      }
      if g in cs1 {
        assert cs1[g].outputPort1 == FirstSlot(ids) && cs1[g].outputPort2 == SecondSlot(ids);
      }
      if g == l.producer.guid {
        assert ConsumersOf(links, g) == ids + [l.consumer.guid];
        if g in cs1 {
          ProducersNonEmpty(front, g);
          SlotsAfterAppend(ids, l.consumer.guid);
        }
      } else {
        assert ConsumersOf(links, g) == ids;
      }
    }
  }

  /** Wiring a consumer keeps the kind and state of existing records and
      takes them from the node for a new one. */
  lemma ConsumerFields(cs: Components, node: Node, producer: string, g: string)
    requires g in AddConsumer(cs, node, producer)
    ensures var r := AddConsumer(cs, node, producer);
      && r[g].kind == (if g in cs then cs[g].kind else node.kind)
      && r[g].state == (if g in cs then cs[g].state else node.state)
  {
  }

  lemma ProducerFields(cs: Components, node: Node, consumer: string, g: string)
    requires g in AddProducer(cs, node, consumer)
    ensures var r := AddProducer(cs, node, consumer);
      && r[g].kind == (if g in cs then cs[g].kind else node.kind)
      && r[g].state == (if g in cs then cs[g].state else node.state)
  {
  }

  /** A compiled record takes its kind and state from the node as first met. */
  lemma {:induction false} CompiledNodeFields(links: seq<Link>, g: string)
    ensures var cs := Fold(links).components;
      g in cs ==>
        && FirstNode(links, g).Some?
        && cs[g].kind == FirstNode(links, g).value.kind
        && cs[g].state == FirstNode(links, g).value.state
  {
    if |links| > 0 {
      var front := links[..|links| - 1];
      var l := links[|links| - 1];
      CompiledNodeFields(front, g);
      CompiledKeys(front);
      var cs := Fold(front).components;
      var cs1 := AddConsumer(cs, l.consumer, l.producer.guid);
      FoldLast(links);
      if g in Fold(links).components {
        if g in cs1 {
          ConsumerFields(cs, l.consumer, l.producer.guid, g);
        }
        ProducerFields(cs1, l.producer, l.consumer.guid, g);
        if g !in cs {
          Unmentioned(front, g);
        }
      }
    }
  }

  /** Looking a name up after appending one binding. */
  lemma {:induction false} LookupAppend(names: seq<Binding>, b: Binding, n: string)
    ensures Lookup(names + [b], n) ==
      if Lookup(names, n).Some? then Lookup(names, n)
      else if b.name == n then Some(b.guid) else None
  {
    if |names| > 0 {
      assert (names + [b])[1..] == names[1..] + [b];
      LookupAppend(names[1..], b, n);
    }
  }

  /** Binding a node's name, unless already bound, resolves like appending it. */
  lemma BindNameLookup(names: seq<Binding>, node: Node, n: string)
    requires node.name.Some?
    ensures Lookup(BindName(names, node), n) == Lookup(names + [Binding(node.name.value, node.guid)], n)
  {
    LookupAppend(names, Binding(node.name.value, node.guid), n);
  }

  /** Two name lists that resolve `n` alike still do after the same binding is appended to both. */
  lemma LookupAppendAlike(xs: seq<Binding>, ys: seq<Binding>, b: Binding, n: string)
    requires Lookup(xs, n) == Lookup(ys, n)
    ensures Lookup(xs + [b], n) == Lookup(ys + [b], n)
  {
    LookupAppend(xs, b, n);
    LookupAppend(ys, b, n);
  }

  /** A name list and a candidate list that resolve `n` alike still do after
      one end of a link is offered to both. */
  lemma OfferAlike(names: seq<Binding>, cands: seq<Binding>, node: Node, named: bool, n: string)
    requires Lookup(names, n) == Lookup(cands, n)
    ensures Lookup(if named then BindName(names, node) else names, n) == Lookup(cands + Offer(node, named), n)
  {
    if named && node.name.Some? {
      BindNameLookup(names, node, n);
      LookupAppendAlike(names, cands, Binding(node.name.value, node.guid), n);
    } else {
      assert cands + Offer(node, named) == cands;
    }
  }

  /** The compiled name map resolves every name as the first candidate
      binding does: only OUTPUT consumers and INPUT producers are named, and
      the first binding of a name wins. */
  lemma {:induction false} CompiledNames(links: seq<Link>, n: string)
    ensures Lookup(Fold(links).names, n) == Lookup(Candidates(links), n)
  {
    if |links| > 0 {
      var front := links[..|links| - 1];
      var l := links[|links| - 1];
      CompiledNames(front, n);
      FoldLastNames(links);
      LinkNames(Fold(front).names, Candidates(front), l, n);
    }
  }

  /** One link's two name offers keep the name map and the candidate list in agreement on `n`. */
  lemma LinkNames(names0: seq<Binding>, cands0: seq<Binding>, l: Link, n: string)
    requires Lookup(names0, n) == Lookup(cands0, n)
    ensures var names1 := if l.consumer.kind == OUTPUT then BindName(names0, l.consumer) else names0;
      Lookup(if l.producer.kind == INPUT then BindName(names1, l.producer) else names1, n)
      == Lookup(cands0 + LinkCandidates(l), n)
  {
    var names1 := if l.consumer.kind == OUTPUT then BindName(names0, l.consumer) else names0;
    var cands1 := cands0 + Offer(l.consumer, l.consumer.kind == OUTPUT);
    OfferAlike(names0, cands0, l.consumer, l.consumer.kind == OUTPUT, n);
    OfferAlike(names1, cands1, l.producer, l.producer.kind == INPUT, n);
    assert cands0 + LinkCandidates(l) == cands1 + Offer(l.producer, l.producer.kind == INPUT);
  }

  /** Every compiled binding is one of the candidates. */
  lemma {:induction false} CompiledNamesAreCandidates(links: seq<Link>)
    ensures forall b :: b in Fold(links).names ==> b in Candidates(links)
  {
    if |links| > 0 {
      CompiledNamesAreCandidates(links[..|links| - 1]);
    }
  }

  /** A compiled graph is closed, so every lookup the engine makes in it
      succeeds, and every name of its name map names a record, so it can be
      initialised. */
  lemma CompiledGraphLoads(edges: seq<Edge>)
    requires forall e :: e in edges ==> e.output.guid != "" && (e.input.Some? ==> e.input.value.guid != "")
    ensures var r := SerializeGraph(edges);
      r.Some? ==>
        && Closed(Wires(r.value.components))
        && forall b :: b in r.value.names ==> b.guid in r.value.components
  {
    var links := ConnectedLinks(edges);
    assert NonEmptyIds(links);
    CompiledKeys(links);
    MentionedNonEmpty(links);
    var cs := Fold(links).components;
    forall k | k in cs ensures PortsWithin(cs[k], cs.Keys) { }
    PortsWithinClosed(cs);
  }

  lemma {:induction false} MentionedNonEmpty(links: seq<Link>)
    requires NonEmptyIds(links)
    ensures "" !in Mentioned(links)
  {
    if |links| > 0 {
      NonEmptyIdsFront(links);
      MentionedNonEmpty(links[..|links| - 1]);
    }
  }
}
