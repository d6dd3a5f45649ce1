# Node logic system: evaluation engine and edge compiler

This project models the core of a node-graph editor for boolean logic circuits in Dafny. It has two parts.

- **The runtime evaluation engine** (`LogicGraph`). A graph is a map from component id to a component record. A record holds:
  - a gate kind: AND, OR, XOR, NOT, NAND, NOR, XNOR, INPUT, OUTPUT, CONST or SPLITTER;
  - two input port references and two output port references, where the empty string means "unconnected";
  - a boolean state.

  The engine exposes these operations:
  - writing an INPUT component (`SetInput`), which sets its state and then propagates;
  - propagation (`Propagate`, `Fanout`): a depth-first walk that recomputes each visited gate from its truth table (`LogicUpdate`) and reads unconnected inputs as false (`ReadInputIfAvailable`). An OUTPUT component is reported through the output callback and ends the walk there; any other kind recurses into output port 1, then output port 2;
  - reading values (`GetOutput`, `GetComponentState`);
  - partitioning the name map into input names and output names (`Initialize`).

- **The edge compiler** inside the editor's graph serialisation (`GraphCompiler`). It folds the editor's edges, in order, into the component map and the name map that the engine loads. The rules are:
  - a consumer fills input port 1, then input port 2, and a third incoming edge overwrites port 2;
  - a producer fills output port 1, then output port 2, in the same way;
  - only OUTPUT consumers and INPUT producers are named, and the first binding of a name wins.

  This part also models the editor's rule for which ports a new edge may join (`GetCompatiblePorts`).

The model is functional:
- The engine's mutable dictionary becomes an immutable `map<string, Component>` that every operation returns in its updated form.
- The output callback becomes the ordered sequence of `(id, state)` events (`Event`) that a call returns.
- The name dictionary becomes a sequence of `(name, id)` bindings in insertion order.

Propagation recurses without bound on a cyclic wiring. The model therefore takes a ghost `rank` map that strictly decreases along every output port (`Acyclic`), and propagation's termination is proved from it.

Everything a component has apart from its state is its wiring (`Wire`, `Wires`). Propagation never changes the wiring. Reachability (`Reach`) and the reported OUTPUT ids (`Fired`) are defined on the wiring alone.

Modules:

- `wrappers.dfy`: `Option`.
- `logic_graph.dfy`: the data model and the engine operations.
- `propagation_proofs.dfy`: properties that relate several propagation calls:
  - which OUTPUTs are reported and in which order;
  - that the last report of each OUTPUT carries its final state;
  - that there is no change suppression;
  - that on a consistently wired acyclic circuit, a write leaves every component in agreement with its truth table.
- `graph_compiler.dfy`: the edge fold, `SerializeGraph` and `GetCompatiblePorts`.
- `compiler_proofs.dfy`: the compiled graph characterised without the fold. Each port is stated against the list of edges touching its node. Each name is stated against the first candidate binding. It also proves the conditions the engine needs to load the result.
- `scenarios.dfy`: an INPUT → NOT → OUTPUT circuit and a two-input XOR circuit, worked through the engine using the general theorems.

## Model

| member | source | states |
|---|---|---|
| `LogicGraph.LogicUpdate` | NodeLogicSystem/LogicGraph.cs:127-168 | The new state follows the truth table of the kind: AND a∧b, OR a∨b, XOR a≠b, NAND ¬(a∧b), NOR ¬(a∨b), XNOR a=b, NOT ¬a ignoring b, OUTPUT and SPLITTER copy a. INPUT and CONST come back unchanged because they have no case. The wiring is never changed. |
| `PropagationProofs.LogicUpdateIdempotent` | NodeLogicSystem/LogicGraph.cs:127-168 | Recomputing a gate a second time from the same inputs changes nothing more. |
| `LogicGraph.ReadInputIfAvailable` | NodeLogicSystem/LogicGraph.cs:80-87 | An unconnected (empty) reference reads false. A connected one reads the current state of the referenced component. |
| `LogicGraph.Propagate` | NodeLogicSystem/LogicGraph.cs:55-78 | Propagating from the empty id changes nothing and reports nothing. An OUTPUT is recomputed from input port 1 and reported exactly once with its new state, with no further recursion. Any other kind has its own record recomputed from its inputs before the walk moves on. The wiring is never changed. Components the walk does not visit keep their records. The reported ids are exactly the depth-first, port-1-before-port-2 list `Fired` of the wiring. |
| `LogicGraph.Fanout` | NodeLogicSystem/LogicGraph.cs:72-75 | Output port 1 is propagated before output port 2. The reports are port 1's followed by port 2's. A component reached from port 1 but not from port 2 ends with the record the port-1 walk gave it. Only components reachable from the two ports change. |
| `LogicGraph.SetInput` | NodeLogicSystem/LogicGraph.cs:42-53 | Writing a non-INPUT changes nothing and reports nothing. Writing an INPUT sets its state to the value, leaves the wiring as it is, and reports the OUTPUTs reachable from port 1 and then port 2. Components outside those walks keep their records. |
| `PropagationProofs.FiredIsOutputReach` | NodeLogicSystem/LogicGraph.cs:64-76 | A component is reported by a propagation exactly when the walk visits it and it is an OUTPUT (both directions). |
| `PropagationProofs.PropagateReportsFinalState` | NodeLogicSystem/LogicGraph.cs:55-78 | After a propagation, every reported OUTPUT's last callback carries the state the OUTPUT ends with. |
| `PropagationProofs.SetInputReportsFinalOutputs` | NodeLogicSystem/LogicGraph.cs:42-78 | After a write, reading any reported OUTPUT with `GetOutput` gives the value of its last callback. |
| `PropagationProofs.NoChangeSuppression` | NodeLogicSystem/LogicGraph.cs:42-78 | Writing an INPUT with the value it already holds still reports every OUTPUT reachable from it. The reports name the same OUTPUTs, in the same order, as a write of the opposite value. |
| `PropagationProofs.PropagateSettles` | NodeLogicSystem/LogicGraph.cs:55-78 | Assume every input connection is matched by an output connection of its producer. Then, after a propagation, every component the walk visited agrees with its truth table for the states its inputs then read. |
| `PropagationProofs.SetInputKeepsSettled` | NodeLogicSystem/LogicGraph.cs:42-78 | On such a matched acyclic circuit at rest, writing an INPUT leaves every component again agreeing with its truth table. |
| `PropagationProofs.SetInputSettlesReached` | NodeLogicSystem/LogicGraph.cs:42-78 | On a matched acyclic circuit in any state, writing an INPUT leaves every component visited from its output ports agreeing with its truth table. |
| `LogicGraph.GetOutput` | NodeLogicSystem/LogicGraph.cs:89-97 | An OUTPUT yields its state. Any other kind yields false. |
| `LogicGraph.GetComponentState` | NodeLogicSystem/LogicGraph.cs:99-102 | Any component yields its state. |
| `LogicGraph.ObserversAgree` | NodeLogicSystem/LogicGraph.cs:89-102 | `GetOutput` equals `GetComponentState` on an OUTPUT and is false on every other kind. Both are pure reads, so neither changes the graph. |
| `LogicGraph.Initialize` | NodeLogicSystem/LogicGraph.cs:29-39 | A name is an output name exactly when some binding of it targets an OUTPUT, and an input name exactly when some binding of it targets an INPUT. The two lists together are no longer than the binding list. |
| `LogicGraph.InitializeSingle` | NodeLogicSystem/LogicGraph.cs:29-39 | A single binding puts its name in the output list if it targets an OUTPUT, in the input list if it targets an INPUT, and in neither otherwise. |
| `LogicGraph.InitializeAppend` | NodeLogicSystem/LogicGraph.cs:29-39 | The lists for two binding lists joined are the first part's lists followed by the second part's. With the single-binding case this fixes the result: each binding contributes its name at most once, in enumeration order. |
| `Scenarios.NotWriteInverts` | NodeLogicSystem/LogicGraph.cs:42-78 | On INPUT → NOT → OUTPUT, whatever states it held before (a freshly compiled all-false circuit included), writing `v` reports the OUTPUT once, with `¬v`. |
| `Scenarios.XorWriteReports` | NodeLogicSystem/LogicGraph.cs:42-78 | On two INPUTs → XOR → OUTPUT at rest, writing `v` to either input reports the OUTPUT once, with `v` xor the other input. |
| `Scenarios.XorSequence` | NodeLogicSystem/LogicGraph.cs:42-78 | From both inputs false, three writes report true, then false, then true: a := true, then c := true, then a := false. |
| `GraphCompiler.ConnectedLinks` | NodeLogicSystem/Editor/LogicNodeGraphView.cs:64 | Exactly the edges whose consuming end is a node are kept, as links, and no more links than edges. |
| `GraphCompiler.ConnectedLinksSingle` | NodeLogicSystem/Editor/LogicNodeGraphView.cs:64 | One edge gives one link, from its consuming node to its producing node, when its consuming end is a node, and none otherwise. |
| `GraphCompiler.ConnectedLinksAppend` | NodeLogicSystem/Editor/LogicNodeGraphView.cs:64-65 | The links of two edge lists joined are the links of the first followed by the links of the second. With the single-edge case this fixes the result: edge order and repeated edges are kept. |
| `GraphCompiler.AddConsumer` | NodeLogicSystem/Editor/LogicNodeGraphView.cs:78-92 | A consumer seen for the first time gets a record with its kind, id and state and the producer in input port 1. A consumer already present gets the producer in input port 1 if that is empty, and otherwise in input port 2, overwriting it. Its other fields and every other record are unchanged. |
| `GraphCompiler.AddProducer` | NodeLogicSystem/Editor/LogicNodeGraphView.cs:102-116 | The same rule on the output ports, for the producing node. |
| `GraphCompiler.Fold` | NodeLogicSystem/Editor/LogicNodeGraphView.cs:65-117 | Every compiled record is filed under its own id and every connected port names a record. No name is bound twice and every name names a record. |
| `GraphCompiler.SerializeGraph` | NodeLogicSystem/Editor/LogicNodeGraphView.cs:59-117 | Nothing is produced exactly when the edge list is empty or some connected edge has an unnamed OUTPUT consumer or unnamed INPUT producer, whose name lookup throws. Otherwise the result is the fold over the connected edges in order, which the `CompilerProofs` lemmas characterise, and it is well built. If no edge's consuming end is a node, both maps are empty. |
| `CompilerProofs.CompiledKeys` | NodeLogicSystem/Editor/LogicNodeGraphView.cs:78-116 | The compiled map has a record for exactly the nodes at either end of some connected edge. |
| `CompilerProofs.CompiledInputPorts` | NodeLogicSystem/Editor/LogicNodeGraphView.cs:78-92 | Input port 1 of a record is the producer of the first edge into its node. Input port 2 is the producer of the last edge after that, or empty. |
| `CompilerProofs.CompiledOutputPorts` | NodeLogicSystem/Editor/LogicNodeGraphView.cs:102-116 | Output port 1 of a record is the consumer of the first edge out of its node. Output port 2 is the consumer of the last edge after that, or empty. |
| `CompilerProofs.CompiledNodeFields` | NodeLogicSystem/Editor/LogicNodeGraphView.cs:89-116 | A record's kind and state are those of its node as first met in the edge order, reading each edge consumer first. |
| `CompilerProofs.CompiledNames` | NodeLogicSystem/Editor/LogicNodeGraphView.cs:70-100 | Every name resolves to the first candidate binding: OUTPUT consumers and INPUT producers, in edge order. Later duplicates are ignored. |
| `CompilerProofs.CompiledNamesAreCandidates` | NodeLogicSystem/Editor/LogicNodeGraphView.cs:70-100 | Every compiled binding is one of those candidates. |
| `CompilerProofs.CompiledGraphLoads` | NodeLogicSystem/Editor/LogicNodeGraphView.cs:59-117 | When editor node ids are non-empty and compilation produces a result, the compiled component map is closed: no record is filed under the empty id, and every lookup the engine makes through a port succeeds. Every bound name targets a record, so the engine can load and initialise the result. |
| `GraphCompiler.GetCompatiblePorts` | NodeLogicSystem/Editor/LogicNodeGraphView.cs:45-55 | A port is returned exactly when it is not the start port, is on another node and faces the other way (both directions). The result keeps the original order. |

## Left out

- JSON parsing of the two text assets in `Initialize` (LogicGraph.cs:22-23): a foreign library. `Initialize` takes the already-parsed component map and name bindings.
- Storing the output callback (LogicGraph.cs:24): each operation returns the ordered events the callback would have received.
- `Debug.Log` and `Debug.LogError`: logging only.
- Missing keys: `components[guid]` throws when the id is absent. The model requires the ids it is given to be present, and requires the wiring to be `Closed`, rather than modelling the exception.
- Cyclic wirings: a write whose walk reaches a cycle recurses until the stack is exhausted. Propagation is defined only for wirings that carry a decreasing `rank` (`Acyclic`). That condition is on the whole graph, so the model also excludes graphs with a cycle somewhere that the write's walk never reaches, which the engine handles normally.
- A record filed under the empty id: `Closed` excludes it. Propagation never visits such a record, because the empty id means "unconnected" (`SetInput`, `GetOutput` and `GetComponentState` given the empty id itself would index it directly). Excluding it keeps the termination measure simple. The compiler never produces one from non-empty editor ids (`CompilerProofs.CompiledGraphLoads`).
- Reading a non-OUTPUT and writing a non-INPUT: the engine logs an error, returns false for the read and changes nothing for the write (LogicGraph.cs:51-52, 95-96). The model does the same.
- Dictionary enumeration order in `Initialize`: taken to be the order of the binding sequence. That is the insertion order of a dictionary from which nothing is removed, which is how the compiler builds it.
- `LogicGraphContainer`, `LogicInputCaller`, `GraphEvent`: thin Unity components forwarding onto the engine. The name resolution and not-initialised checks they do are not part of this model.
- Unity editor plumbing: `LogicNode`, node and port construction, the asset saving after the edge loop (LogicNodeGraphView.cs:119 onward), `SaveGraph`, `LoadGraph`, and node positions.
- Unnamed nodes: a node's name is null until it is given one, and `ContainsKey(null)` throws (LogicNodeGraphView.cs:72, 96). The model gives a node an optional name, and `SerializeGraph` produces nothing when the loop would meet an unnamed OUTPUT consumer or INPUT producer. The exception's unwinding is not modelled.
- In `SerializeGraph`, the casts `as LogicNode` are taken to succeed and an edge's producing end is always a node. Edges whose consuming end has no node are dropped, as in the source.
- In `GetCompatiblePorts`, port reference identity is modelled by a port id. The unused node adapter argument is dropped.
- The `ILogicGraphInterfaceMethods` interface: declarations only.
- `CompilerProofs.CompiledInputPorts`: stated only for editor edges whose node ids are non-empty (`NonEmptyIds`). The fold itself (`GraphCompiler.AddConsumer`) models the source exactly for any id, including the case where an empty producer id leaves input port 1 free for the next edge.
- `CompilerProofs.CompiledOutputPorts`: stated only for non-empty node ids, for the same reason.
- `CompilerProofs.CompiledGraphLoads`: stated only for non-empty node ids, because an empty id would be filed under the key that marks an unconnected port.
