# riac core in Dafny

riac is a monitoring overlay for the C++ Actor Framework. A **probe** in
every process hooks into the middleman and turns transport callbacks into
events. It sends them to a central **nexus**. The nexus validates every
event, folds it into a per-node `probe_data_map`, and rebroadcasts it to
every subscribed **listener**. A **nexus proxy** subscribes like any listener.
It keeps a mirror of that map and answers read queries against it.

This project models that core and proves properties of the model:

- `message_types.dfy` (module `MessageTypes`): the event records, `probe_data`,
  `probe_data_map`, the hand-written `operator==` functions, and `Entry`.
  `Entry` is the default entry that `std::map::operator[]` inserts.
- `nexus.dfy` (module `Nexus`): each handler of the nexus is a specification
  function from the old state to a `Reaction`. A `Reaction` is the new state,
  whether the message is broadcast, and the direct sends.
  - Class `NexusActor` implements the handlers in place. It has `data`,
    `probes`, `listeners`, a `watched` multiset (one element per `monitor`
    call) and an `outbox`. Every method is proved against its function.
  - The module also states an invariant every handler keeps, runs of many
    deliveries, and the disconnect scenario of the integration test.
- `nexus_proxy.dfy` (module `NexusProxy`):
  - `Apply`, the proxy's update of its map.
  - The six read-only queries, as functions over the map.
  - Class `ProxyActor`, whose `list_actors`/`get_actor` methods insert entries.
- `mirror.dfy` (module `Mirror`): how far a subscribed proxy follows the nexus
  through any run, and where the two part ways.
- `probe.dfy` (module `Probe`): the `fwd_hook` of `src/probe.cpp`, as a
  callback-to-event translation and as a class with an uplink. Also the
  `probe` module's `start`/`connected`, and the finding about `node`/`id`.
- `init_probe.dfy` (module `InitProbe`): the chained hook of
  `src/init_probe.cpp` (emission, then `call_next`) and both `init_probe`
  overloads.
- `hostname.dfy` (module `Hostname`): `hostname()`, reading a NUL-terminated
  256-byte buffer.
- `collections.dfy`, `wrappers.dfy`: sorted enumeration of a set of node ids,
  enumeration of any set by a loop, `Option`/`Result`.

Abstractions:

- `node_id` is a `nat` and 0 is `invalid_node_id`.
- An actor handle is `NullAddr` or `Addr(home, aid)`. `Node()`/`Id()` give the
  invalid values for `NullAddr`.
- Sends and broadcasts are appends to an outbox of `(destination, message)`
  envelopes.
- `send(this, ...)` is an envelope addressed to the actor's own handle.
- The remote connection, the hook lookup, `gethostname` and the interface
  listing are parameters holding their outcomes.

Facts of the code worth knowing:

- The nexus records `probes_[sender] = sender.node()`, not the node named in
  the `node_info` (src/nexus.cpp:97).
- An entry can exist without any `node_info` for the node. A gauge, a route,
  a published actor, or even a `route_lost` for an absent route creates it
  through `operator[]`. So an entry does not mean that a `node_info` for the
  node was ever accepted (`Nexus.EntryWithoutNodeInfo`).
- An indirect `new_route` is not broadcast: the broadcast sits inside the
  `is_direct` condition (src/nexus.cpp:123-126).
- `route_lost` for a route that is not there still creates the node's entry.
- `node_disconnected` is not source-checked, and it always broadcasts.
- The proxy applies a snapshot whenever one arrives, and it applies events
  without a source check.
- `list_actors`/`get_actor` on an unknown node insert an entry that
  `list_nodes` then reports (`NexusProxy.ListActorsLeaksIntoListNodes`).
- Both hooks register with a bare `node_info` and no observer:
  `register_at_nexus` in `src/probe.cpp` and the hook constructor in
  `src/init_probe.cpp:64`. The model sends it with the observer `NullAddr`
  (`Probe.Registration`, `InitProbe.ChainedHook.constructor`).
- The traffic traces of the `fwd_hook` in `src/probe.cpp` use the intended
  `node`/`id` helpers, not the inverted ones the code has. The code as written
  is modelled beside them (see "## Findings").
- The invariant `Nexus.Inv` is a safety property of its own: every handler
  and every run keeps it. The `NexusActor` methods require it through
  `Valid()`, but no functional postcondition depends on it.

## Model

| member | source | states |
|---|---|---|
| MessageTypes.Entry | src/nexus.cpp:47 | `data_[n]` as `operator[]` reads it: the stored entry, or a default one: an empty `node_info` (invalid node, no CPUs, empty host name and OS, no interfaces), no gauges, and no routes or actors |
| MessageTypes.CpuInfoEq | caf/riac/message_types.hpp:44-48 | `cpu_info` equality holds iff every field is equal |
| MessageTypes.CpuListEq | caf/riac/message_types.hpp:53-61 | the CPU lists inside `node_info` compare equal iff they are the same sequence |
| MessageTypes.NodeInfoEq | caf/riac/message_types.hpp:59-65 | `node_info` equality holds iff every field is equal |
| MessageTypes.NodeDisconnectedEq | caf/riac/message_types.hpp:71-74 | equality holds iff the node is the same |
| MessageTypes.RamUsageEq | caf/riac/message_types.hpp:83-87 | `ram_usage` equality holds iff every field is equal |
| MessageTypes.WorkLoadEq | caf/riac/message_types.hpp:97-102 | `work_load` equality holds iff every field is equal |
| MessageTypes.NewRouteEq | caf/riac/message_types.hpp:112-114 | `new_route` equality ignores `source_node`: it holds iff the routes agree once the source node is copied over |
| MessageTypes.RouteLostEq | caf/riac/message_types.hpp:121-123 | `route_lost` equality compares only `dest` |
| MessageTypes.NewMessageEq | caf/riac/message_types.hpp:133-139 | `new_message` equality holds iff every field is equal, the optional payload included |
| MessageTypes.NewActorPublishedEq | caf/riac/message_types.hpp:147-152 | equality holds iff node, actor and port are equal |
| MessageTypes.ProbeDataEq | caf/riac/message_types.hpp:164-169 | `probe_data` equality holds iff all fields except `published_actors` and `known_actors` are equal |
| MessageTypes.AddListenerEq | caf/riac/message_types.hpp:189-191 | equality compares only the handle |
| MessageTypes.AddTypedListenerEq | caf/riac/message_types.hpp:197-200 | equality compares only the handle |
| MessageTypes.ProbeDataEqIsEquivalence | caf/riac/message_types.hpp:164-169 | `probe_data` equality is reflexive, symmetric and transitive |
| MessageTypes.ProbeDataEqIgnoresActors | caf/riac/message_types.hpp:164-169 | two entries that differ only in their actor sets compare equal |
| MessageTypes.RouteEqIgnoresSource | caf/riac/message_types.hpp:112-123 | routes from different nodes to the same destination compare equal |
| Hostname.CString | src/probe.cpp:54-55 | a NUL-terminated buffer read as a string is the prefix before the first NUL |
| Hostname.Hostname | src/probe.cpp:45-56 | the host name has at most 255 characters, no NUL, and is the buffer cut at its first NUL among the first 255 bytes |
| Nexus.OnNodeInfo | src/nexus.cpp:87-102 | an invalid source is dropped. Otherwise only the node's entry is written (`node` field). `probes_[sender]` becomes the sender's node, the sender is monitored once more and nothing else is, the message is broadcast, and exactly one `ok` goes to the observer iff it is valid |
| Nexus.OnRamUsage | src/nexus.cpp:39-49 | an invalid source is dropped. Otherwise only the `ram` field of that node's entry is written, the entry is created if absent, and the message is broadcast |
| Nexus.OnWorkLoad | src/nexus.cpp:39-49 | the same for the `load` field |
| Nexus.OnActorPublished | src/nexus.cpp:105-120 | an invalid source or handle is dropped. Otherwise the actor and (actor, port) are inserted, the actor is monitored iff it was new and nothing else is monitored, and the message is always broadcast |
| Nexus.OnNewRoute | src/nexus.cpp:121-127 | an invalid source or an indirect route changes nothing. A direct route is inserted, with a broadcast iff the destination was new |
| Nexus.OnRouteLost | src/nexus.cpp:128-135 | the destination is removed and the entry created if absent, with a broadcast iff the destination was there |
| Nexus.OnNewMessage | src/nexus.cpp:136-142 | the state never changes. There is a broadcast iff the source is valid |
| Nexus.OnAddListener | src/nexus.cpp:70-78 | a handle is added at most once. Only a first subscription is monitored and sent the snapshot of `data_` |
| Nexus.OnDown | src/nexus.cpp:149-167 | a lost listener is only removed. A lost probe sends `node_disconnected` for its mapped node to the nexus itself and drops its handle from that node's known actors. `probes_` never shrinks |
| Nexus.OnNodeDisconnected | src/nexus.cpp:168-171 | the node's entry is erased, nothing else changes, and the message is always broadcast |
| Nexus.Handle | src/nexus.cpp:85-172 | the dispatch of the nexus behaviour: `probes_` never loses a key, and only a subscription request or a `down_msg` changes the listeners |
| Nexus.NexusActor.constructor | caf/riac/nexus.hpp:39-42 | the nexus starts with empty state and an empty outbox |
| Nexus.NexusActor.Broadcast | src/nexus.cpp:80-83 | appends the current message exactly once per listener and to nobody else |
| Nexus.NexusActor.HandleNodeInfo | src/nexus.cpp:87-102 | the new state is `OnNodeInfo` of the old one, the outbox grows by its broadcast then its reply, and the invariant is kept |
| Nexus.NexusActor.HandleRamUsage | src/nexus.cpp:39-49 | the new state and outbox are as `OnRamUsage` says |
| Nexus.NexusActor.HandleWorkLoad | src/nexus.cpp:39-49 | the new state and outbox are as `OnWorkLoad` says |
| Nexus.NexusActor.HandleActorPublished | src/nexus.cpp:105-120 | the new state and outbox are as `OnActorPublished` says |
| Nexus.NexusActor.HandleNewRoute | src/nexus.cpp:121-127 | the new state and outbox are as `OnNewRoute` says |
| Nexus.NexusActor.HandleRouteLost | src/nexus.cpp:128-135 | the new state and outbox are as `OnRouteLost` says |
| Nexus.NexusActor.HandleNewMessage | src/nexus.cpp:136-142 | the new state and outbox are as `OnNewMessage` says |
| Nexus.NexusActor.Add | src/nexus.cpp:70-78 | the new state and outbox are as `OnAddListener` says |
| Nexus.NexusActor.HandleDown | src/nexus.cpp:149-167 | the new state and outbox are as `OnDown` says |
| Nexus.NexusActor.HandleNodeDisconnected | src/nexus.cpp:168-171 | the new state and outbox are as `OnNodeDisconnected` says |
| Nexus.NexusActor.Receive | src/nexus.cpp:85-172 | dispatches each message of the nexus interface to its handler, keeping the invariant |
| Nexus.HandlePreservesInv | src/nexus.cpp:85-172 | every handler keeps the invariant: no entry for the invalid node, every listener, probe and known actor monitored, and the null handle never a known actor |
| Nexus.RunPreservesInv | src/nexus.cpp:85-172 | any run of deliveries keeps the invariant |
| Nexus.InvalidSourceDropped | src/nexus.cpp:29-49 | a sink event other than `node_disconnected` with the invalid source node changes nothing and sends nothing |
| Nexus.InvalidDisconnectStillBroadcasts | src/nexus.cpp:168-171 | `node_disconnected` for the invalid node is still broadcast |
| Nexus.DirectRouteIdempotent | src/nexus.cpp:121-127 | asserting the same direct route a second time is a no-op without broadcast |
| Nexus.EqualRoutesDifferentEffects | caf/riac/message_types.hpp:112-114 | two routes `operator==` calls equal can create different entries at the nexus |
| Nexus.EntryWithoutNodeInfo | src/nexus.cpp:39-49 | a gauge for an unknown node creates an entry whose `node_info` is the default |
| Nexus.ListenerLoss | src/nexus.cpp:150-154 | a lost listener is unsubscribed and nothing else happens |
| Nexus.ProbeLossCascade | src/nexus.cpp:155-171 | a lost probe yields exactly one self-sent `node_disconnected` for its node, whose handling erases the entry and broadcasts. A repeated loss notice sends it again, and the repeated erase leaves the data unchanged |
| Nexus.DisconnectScenario | test/riac_init.cpp:57-66 | a listener sees the empty snapshot, then `node_info`, then `node_disconnected`, and the node is gone |
| NexusProxy.Touch | src/nexus_proxy.cpp:117 | `operator[]` creates only the named entry, as the default, and leaves an existing map alone |
| NexusProxy.Apply | src/nexus_proxy.cpp:29-72 | a snapshot replaces the map. `node_disconnected` erases the node. An indirect route, an invalid published handle and anything not an event change nothing. Every other event writes only its node's entry, without a source check: `node_info` sets `node`, the gauges set `ram`/`load`, a direct route inserts and `route_lost` removes the destination, and a publication inserts into `known_actors` and `published_actors` |
| NexusProxy.Replies | src/nexus_proxy.cpp:29-33 | exactly one `ok` goes back when a `node_info` names a valid observer, and none otherwise |
| NexusProxy.ListNodes | src/nexus_proxy.cpp:73-79 | every node with an entry, once each, in increasing order |
| NexusProxy.ListNodesOnHost | src/nexus_proxy.cpp:80-86 | increasing, and contains a node iff it has an entry whose host name is the argument |
| NexusProxy.GetNode | src/nexus_proxy.cpp:87-92 | `no_such_riac_node` iff the node has no entry, otherwise its stored `node_info` |
| NexusProxy.ListPeers | src/nexus_proxy.cpp:93-101 | the node's direct routes once each in order, empty for an unknown node, with no insertion |
| NexusProxy.GetSysLoad | src/nexus_proxy.cpp:102-108 | the error iff the node is unknown or never reported a load, otherwise the stored load |
| NexusProxy.GetRamUsage | src/nexus_proxy.cpp:109-114 | the error iff the node is unknown or never reported RAM usage, otherwise the stored value |
| NexusProxy.FindActor | src/nexus_proxy.cpp:124-130 | returns the first element with the requested id, or the invalid handle when no element has it |
| NexusProxy.ProxyActor.constructor | caf/riac/nexus_proxy.hpp:52-55 | the proxy starts with an empty map |
| NexusProxy.ProxyActor.Receive | src/nexus_proxy.cpp:26-72 | the new map is `Apply` of the old one. The only send is the `ok` of `Replies`. Subscription requests and `down_msg` do nothing |
| NexusProxy.ProxyActor.ListActors | src/nexus_proxy.cpp:115-120 | returns the node's known actors once each, and leaves the map with that entry created |
| NexusProxy.ProxyActor.GetActor | src/nexus_proxy.cpp:121-131 | returns a known actor of the node with the requested id, or the invalid handle if there is none, and creates the entry |
| NexusProxy.ListActorsLeaksIntoListNodes | src/nexus_proxy.cpp:73-79 | reading the actors of an unknown node makes it appear in `list_nodes` with the default `node_info`. A second read sees the same empty set and changes nothing |
| NexusProxy.TouchedGaugesAbsent | src/nexus_proxy.cpp:102-114 | an entry created by a query reports neither gauge |
| NexusProxy.DisconnectPurges | src/nexus_proxy.cpp:59-61 | after `node_disconnected` every query reports the node as absent |
| NexusProxy.InvalidSourceAccepted | src/nexus_proxy.cpp:34-36 | an update for the invalid node creates an entry that `list_nodes` reports |
| NexusProxy.SnapshotReplaces | src/nexus_proxy.cpp:70-72 | after a snapshot, queries answer as on the snapshot |
| Mirror.MirrorStep | src/nexus.cpp:80-83 | for one delivery at the nexus, a subscribed proxy stays subscribed and its map stays entry-wise equal, as `probe_data::operator==` compares, with no entry the nexus lacks. The exception is the loss of the proxy itself |
| Mirror.ReplayMirrors | src/nexus_proxy.cpp:29-72 | the same for any run, applying what the nexus delivered to the proxy |
| Mirror.SubscribedProxyMirrors | src/nexus.cpp:70-78 | a proxy that subscribes, whatever it held before, mirrors the nexus from the snapshot on |
| Mirror.MirroredQueriesAgree | src/nexus_proxy.cpp:87-114 | mirrored maps answer `list_peers`, `get_sys_load` and `get_ram_usage` the same for every node, and `get_node` the same for nodes the proxy knows |
| Mirror.ApplyAgreesWithNexus | src/nexus_proxy.cpp:29-61 | on every event that passes the nexus's source check, the proxy writes exactly the map the nexus writes, actor sets included |
| Mirror.TouchKeepsEntries | src/nexus_proxy.cpp:115-131 | a proxy query that inserts keeps the entries mirrored, but adds an entry the nexus may lack |
| Mirror.RouteLostKeyGap | src/nexus.cpp:128-135 | a `route_lost` for an absent route creates a nexus entry that is never broadcast, so `list_nodes` differs |
| Mirror.LostProbeStaysKnown | src/nexus.cpp:160-165 | the nexus silently drops a lost probe from the known actors while a subscribed proxy keeps it, and the maps still mirror |
| Probe.NodeAsWritten | src/probe.cpp:82-84 | as written, `node(x)` is defined only for non-null `x`, and there it is the invalid node |
| Probe.IdAsWritten | src/probe.cpp:86-88 | as written, `id(x)` is defined only for non-null `x`, and there it is the invalid actor id |
| Probe.TraceAsWritten | src/probe.cpp:96-109 | the `new_message` built as written carries invalid nodes and ids |
| Probe.AsWrittenTraceDropped | src/nexus.cpp:136-142 | as written, every trace is dropped by the nexus's source check, even from a valid node |
| Probe.Trace | src/probe.cpp:96-109 | the intended trace carries the sender's and receiver's nodes and ids and the payload |
| Probe.CorrectedTraceBroadcast | src/nexus.cpp:136-142 | the intended trace from a valid node is broadcast by the nexus without changing its state |
| Probe.Emission | src/probe.cpp:90-149 | nothing is sent while the uplink is unset or for a message sent to the uplink. Exactly received/sent traffic, publications, connections and added routes emit one event. Traffic emits the trace built with the intended helpers. A publication emits `new_actor_published(node_, addr, port)`, a new connection emits a direct `new_route` to the peer, and an added route emits an indirect one to its target, whatever the hop |
| Probe.ToUplink | src/probe.cpp:90-94 | an emitted event becomes exactly one envelope to the uplink |
| Probe.RoutesAtNexus | src/probe.cpp:137-143 | a new connection becomes a direct route of the local node at the nexus. A route added through a hop is emitted as indirect and discarded by the nexus |
| Probe.PublishedAtNexus | src/probe.cpp:127-131 | the publication ignores the interface set, and the nexus records the actor and port under the local node |
| Probe.Registration | src/probe.cpp:68-80 | the `node_info` names the local node and the interfaces, carries `hostname()` of the buffer (at most 255 characters), an empty CPU list and an empty OS name |
| Probe.FwdHook.constructor | src/probe.cpp:60-66 | the hook starts with its node and no uplink |
| Probe.FwdHook.RegisterAtNexus | src/probe.cpp:68-80 | sets the uplink and sends exactly one `node_info` for the local node to it |
| Probe.FwdHook.Transmit | src/probe.cpp:90-94 | sends only while the uplink is set |
| Probe.FwdHook.OnCall | src/probe.cpp:96-149 | appends exactly `ToUplink` of `Emission` for the callback |
| Probe.ProbeModule.constructor | src/probe.cpp:159-163 | a new probe module is not connected |
| Probe.ProbeModule.Connected | src/probe.cpp:205-207 | `connected()` holds exactly when the uplink is set (its definition) |
| Probe.ProbeModule.Start | src/probe.cpp:165-187 | a failed connection changes nothing. A successful one makes `connected()` true and registers a found hook at the nexus |
| InitProbe.ChainEmission | src/init_probe.cpp:66-129 | with the uplink always set, exactly traffic not addressed to the uplink, publications, connections and added routes emit. Traffic carries `actor_addr`'s node and id. A publication, a new connection and an added route emit the same events as `src/probe.cpp` |
| InitProbe.PassesOn | src/init_probe.cpp:81-84 | the hook calls the next one for every callback except a message sent to the uplink (its definition) |
| InitProbe.Step | src/init_probe.cpp:70-137 | at most the event, then `call_next` with the same callback. `call_next` comes last and happens iff the callback is not a send to the uplink |
| InitProbe.SameEventsAsProbeHook | src/init_probe.cpp:66-129 | once an uplink is set, this hook emits what the intended hook of src/probe.cpp emits |
| InitProbe.ChainBrokenOnlyForUplink | src/init_probe.cpp:78-84 | the hook does nothing at all exactly for messages sent to the uplink |
| InitProbe.ChainedHook.constructor | src/init_probe.cpp:56-65 | construction sends one `node_info` for the local node, before anything else |
| InitProbe.ChainedHook.Transmit | src/init_probe.cpp:66-69 | always sends to the uplink |
| InitProbe.ChainedHook.CallNext | src/init_probe.cpp:75 | records the call to the next hook |
| InitProbe.ChainedHook.OnCall | src/init_probe.cpp:70-137 | appends exactly `Step` for the callback, keeping the registration first |
| InitProbe.InitProbe | src/init_probe.cpp:147-168 | returns true iff the connection succeeded. Then a fresh hook has registered the local node with the nexus |
| InitProbe.ArgsComplete | src/init_probe.cpp:177 | the options are complete exactly when the port is not 0 and the host is not empty (its definition) |
| InitProbe.InitProbeFromArgs | src/init_probe.cpp:170-184 | returns false without a hook when the port is 0 or the host is empty. Otherwise it behaves as `init_probe(host, port)`: true iff the connection succeeded, and then a fresh hook of the local node whose only effect is the registration |
| Collections.Sorted | src/nexus_proxy.cpp:73-79 | a set of node ids, listed once each in increasing order, as `std::map`/`std::set` iterate |
| Collections.Elements | src/nexus_proxy.cpp:117-119 | the push-back loop over a set lists every element exactly once |
| Collections.EnumerationLength | src/nexus_proxy.cpp:73-79 | a duplicate-free listing of a set has the set's size |

## Left out

- Logging (`aout`, `cerr`, `CAF_LOG_*`) and the `silent_` flag: output only.
- Message delivery, mailbox order and concurrency between actors: each actor
  is one handler step at a time, and runs are explicit input sequences.
- `monitor` and the generation of `down_msg`: `monitor` is an insertion into a
  watched multiset, and `down_msg` is an input. Its exit reason is not modelled.
- `actor_cast`, typed versus untyped handles: both subscription requests carry
  one handle type.
- The remote connection (`typed_remote_actor`), its exceptions, and the
  blocking `request(...).receive` of `register_at_nexus`: the outcome is a
  parameter, and the awaited acknowledgement is not modelled.
- Hook-chain storage and the `typeid` lookup of `probe::start`: the hook found
  is a parameter. The next hook's behaviour is outside this model, so
  `call_next` is recorded as an effect.
- `probe::init`, the configuration plumbing and option parsing
  (`extract_opts`): the parsed host and port are parameters.
- `gethostname` and the interface listing are foreign calls. Their results
  are parameters. CPU facts and the OS name are never filled in by the source
  and stay empty.
- `message_id` and BASP headers are not modelled: no translation reads them.
  So the two forwarding callbacks carry no arguments in `HookCall`: their
  header and raw payload are not modelled. `message_sending_failed` and
  `invalid_message_received` carry their actors and payloads, and the model
  ignores them as the code does.
- The order of `std::set` iteration over actor handles: `list_actors` lists
  the known actors in some order, each once, and `nexus::broadcast`
  (src/nexus.cpp:80-83) sends to each listener once, in an order left open.
- Probe.Emission: the traffic traces use the intended `node`/`id` helpers.
  The inverted helpers of src/probe.cpp:82-88 are modelled separately by
  `Probe.TraceAsWritten`, because the rest of the model uses the corrected
  behaviour.
- Probe.FwdHook.OnCall: sends `Probe.Emission`, so it has the same corrected
  traces.
- NexusProxy.ProxyActor.GetActor: states that a matching actor is returned, not
  which one when several match. The set order that `std::find_if` sees is not
  modelled.
- `visited_nodes` of the proxy state: it is never used.
- The commented-out RAM/CPU polling in `init_probe`: it is not part of the code.

## Findings

| source | as written | input that shows it | evidently intended | confidence | as-written member | corrected member |
|---|---|---|---|---|---|---|
| src/probe.cpp:82-88 | `node(x)` is `x ? invalid_node_id : x->node()`, and `id(x)` is the same: the condition is inverted | any `message_received_cb` whose `from` is a live actor on a valid node. The trace carries `invalid_node_id`, and the nexus's source check drops it (for a null `from` the code dereferences null) | `x ? x->node() : invalid_node_id`, as `src/init_probe.cpp` computes with `actor_addr::node()` | high; not executed | Probe.AsWrittenTraceDropped | Probe.CorrectedTraceBroadcast |
