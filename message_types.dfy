/** The event vocabulary shared by probes, the nexus and the nexus proxy
    (caf/riac/message_types.hpp): the event records, the per-node aggregate
    `probe_data`, the cluster snapshot `probe_data_map`, and every hand-written
    `operator==`. Runtime handles and identifiers are abstracted:

    - a `node_id` is a natural number, `0` standing for `invalid_node_id`;
    - an actor handle (`actor`, `actor_addr`, `strong_actor_ptr`, a typed
      handle) is an `ActorAddr`, `NullAddr` standing for the invalid handle;
    - the type-erased `message` payload is an opaque sequence of values. */
module MessageTypes {
  import opened Wrappers

  type NodeId = nat
  const InvalidNodeId: NodeId := 0

  type ActorId = nat
  const InvalidActorId: ActorId := 0

  type U8 = x: int | 0 <= x < 0x100
  type U16 = x: int | 0 <= x < 0x1_0000
  type U64 = x: int | 0 <= x < 0x1_0000_0000_0000_0000
  type Port = U16

  /** An actor handle: null, or an actor with an id living on a node. */
  datatype ActorAddr = NullAddr | Addr(home: NodeId, aid: ActorId) {
    /** `actor_addr::node()`: the invalid node for a null handle. */
    function Node(): NodeId
    {
      if NullAddr? then InvalidNodeId else home
    }

    /** `actor_addr::id()`: the invalid actor id for a null handle. */
    function Id(): ActorId
    {
      if NullAddr? then InvalidActorId else aid
    }
  }

  /** The runtime's type-erased `message`, compared by content. */
  type Payload = seq<int>

  datatype Protocol = Ethernet | IPv4 | IPv6

  /** `interfaces_map`: interface name -> protocol -> addresses. */
  type InterfacesMap = map<string, map<Protocol, seq<string>>>

  datatype CpuInfo = CpuInfo(sourceNode: NodeId, numCores: U64, mhzPerCore: U64)

  /** Sent once per connection by a probe; replaces the node's previous value. */
  datatype NodeInfo = NodeInfo(
    sourceNode: NodeId,
    cpu: seq<CpuInfo>,
    hostname: string,
    os: string,
    interfaces: InterfacesMap)

  datatype NodeDisconnected = NodeDisconnected(sourceNode: NodeId)

  datatype RamUsage = RamUsage(sourceNode: NodeId, inUse: U64, available: U64)

  /** `cpuLoad` is a percentage in the source's comment; only its byte width is enforced. */
  datatype WorkLoad = WorkLoad(sourceNode: NodeId, cpuLoad: U8, numProcesses: U64, numActors: U64)

  datatype NewRoute = NewRoute(sourceNode: NodeId, dest: NodeId, isDirect: bool)

  datatype RouteLost = RouteLost(sourceNode: NodeId, dest: NodeId)

  datatype NewMessage = NewMessage(
    sourceNode: NodeId,
    destNode: NodeId,
    sourceActor: ActorId,
    destActor: ActorId,
    msg: Option<Payload>)

  datatype NewActorPublished = NewActorPublished(sourceNode: NodeId, publishedActor: ActorAddr, port: Port)

  /** Everything the nexus knows about one node. */
  datatype ProbeData = ProbeData(
    node: NodeInfo,
    ram: Option<RamUsage>,
    load: Option<WorkLoad>,
    directRoutes: set<NodeId>,
    publishedActors: set<(ActorAddr, Port)>,
    knownActors: set<ActorAddr>)

  /** `std::map<node_id, probe_data>`: at most one entry per node by construction. */
  type ProbeDataMap = map<NodeId, ProbeData>

  datatype AddListener = AddListener(listener: ActorAddr)

  datatype AddTypedListener = AddTypedListener(listener: ActorAddr)

  /** A default-constructed `node_info`. */
  const EmptyNodeInfo: NodeInfo := NodeInfo(InvalidNodeId, [], "", "", map[])

  /** A default-constructed `probe_data`. */
  const EmptyProbeData: ProbeData := ProbeData(EmptyNodeInfo, None, None, {}, {}, {})

  /** The entry `data[n]` refers to: the stored one, or the default entry
      that `std::map::operator[]` would insert. */
  function Entry(data: ProbeDataMap, n: NodeId): (r: ProbeData)
    ensures n in data ==> r == data[n]
    ensures n !in data ==> && r.node.sourceNode == InvalidNodeId && r.node.cpu == [] && r.node.hostname == ""
                           && r.node.os == "" && r.node.interfaces == map[] && r.ram.None? && r.load.None?
                           && r.directRoutes == {} && r.knownActors == {} && r.publishedActors == {}
  {
    if n in data then data[n] else EmptyProbeData
  }

  /** `after` is `before` with only the entry of `n` written (and created
      if it was absent), the effect of one `data_[n]. ... = ...`. */
  ghost predicate OnlyEntry(before: ProbeDataMap, after: ProbeDataMap, n: NodeId)
  {
    && after.Keys == before.Keys + {n}
    && forall k :: k in before && k != n ==> after[k] == before[k]
  }

  /** Every message the three actors exchange. `NodeInfoMsg` carries the
      observer handle the nexus replies to; `SnapshotMsg` is a whole
      `probe_data_map`; `OkMsg` is `(ok_atom, nexus handle)`; `DownMsg` is the
      runtime's `down_msg` (its exit reason is not modelled). */
  datatype Message =
    | NodeInfoMsg(info: NodeInfo, observer: ActorAddr)
    | RamUsageMsg(ramUsage: RamUsage)
    | WorkLoadMsg(workLoad: WorkLoad)
    | NewRouteMsg(route: NewRoute)
    | RouteLostMsg(lost: RouteLost)
    | NewMessageMsg(trace: NewMessage)
    | ActorPublishedMsg(published: NewActorPublished)
    | NodeDisconnectedMsg(disconnected: NodeDisconnected)
    | AddListenerMsg(add: AddListener)
    | AddTypedListenerMsg(addTyped: AddTypedListener)
    | DownMsg(source: ActorAddr)
    | SnapshotMsg(snapshot: ProbeDataMap)
    | OkMsg(handle: ActorAddr)
  {
    /** One of the eight inputs of `sink_type`. */
    predicate IsSinkEvent()
    {
      NodeInfoMsg? || RamUsageMsg? || WorkLoadMsg? || NewRouteMsg? || RouteLostMsg?
      || NewMessageMsg? || ActorPublishedMsg? || NodeDisconnectedMsg?
    }

    /** What a handle of `nexus_type` accepts, plus the runtime's `down_msg`. */
    predicate InNexusInterface()
    {
      IsSinkEvent() || AddListenerMsg? || AddTypedListenerMsg? || DownMsg?
    }

    /** The `source_node` field of a sink event. */
    function SourceNode(): NodeId
      requires IsSinkEvent()
    {
      match this
      case NodeInfoMsg(ni, _) => ni.sourceNode
      case RamUsageMsg(ru) => ru.sourceNode
      case WorkLoadMsg(wl) => wl.sourceNode
      case NewRouteMsg(r) => r.sourceNode
      case RouteLostMsg(r) => r.sourceNode
      case NewMessageMsg(m) => m.sourceNode
      case ActorPublishedMsg(p) => p.sourceNode
      case NodeDisconnectedMsg(d) => d.sourceNode
    }
  }

  /** One send: a message addressed to a handle. */
  datatype Envelope = Envelope(dest: ActorAddr, msg: Message)

  // ---------------------------------------------------------------------
  // The hand-written equality operators
  // ---------------------------------------------------------------------

  function CpuInfoEq(lhs: CpuInfo, rhs: CpuInfo): (r: bool)
    ensures r <==> lhs == rhs
  {
    lhs.sourceNode == rhs.sourceNode
    && lhs.numCores == rhs.numCores
    && lhs.mhzPerCore == rhs.mhzPerCore
  }

  /** `std::vector<cpu_info>::operator==`: same length, pairwise `cpu_info` equal. */
  function CpuListEq(lhs: seq<CpuInfo>, rhs: seq<CpuInfo>): (r: bool)
    ensures r <==> lhs == rhs
  {
    |lhs| == |rhs| && forall i :: 0 <= i < |lhs| ==> CpuInfoEq(lhs[i], rhs[i])
  }

  function NodeInfoEq(lhs: NodeInfo, rhs: NodeInfo): (r: bool)
    ensures r <==> lhs == rhs
  {
    lhs.sourceNode == rhs.sourceNode
    && CpuListEq(lhs.cpu, rhs.cpu)
    && lhs.hostname == rhs.hostname
    && lhs.os == rhs.os
    && lhs.interfaces == rhs.interfaces
  }

  function NodeDisconnectedEq(lhs: NodeDisconnected, rhs: NodeDisconnected): (r: bool)
    ensures r <==> lhs == rhs
  {
    lhs.sourceNode == rhs.sourceNode
  }

  function RamUsageEq(lhs: RamUsage, rhs: RamUsage): (r: bool)
    ensures r <==> lhs == rhs
  {
    lhs.sourceNode == rhs.sourceNode
    && lhs.inUse == rhs.inUse
    && lhs.available == rhs.available
  }

  function WorkLoadEq(lhs: WorkLoad, rhs: WorkLoad): (r: bool)
    ensures r <==> lhs == rhs
  {
    lhs.sourceNode == rhs.sourceNode
    && lhs.cpuLoad == rhs.cpuLoad
    && lhs.numProcesses == rhs.numProcesses
    && lhs.numActors == rhs.numActors
  }

  /** Ignores `source_node`: two routes are equal when they are the same
      route once the source is overwritten. */
  function NewRouteEq(lhs: NewRoute, rhs: NewRoute): (r: bool)
    ensures r <==> lhs.(sourceNode := rhs.sourceNode) == rhs
  {
    lhs.dest == rhs.dest && lhs.isDirect == rhs.isDirect
  }

  /** Compares only `dest`. */
  function RouteLostEq(lhs: RouteLost, rhs: RouteLost): (r: bool)
    ensures r <==> lhs.(sourceNode := rhs.sourceNode) == rhs
  {
    lhs.dest == rhs.dest
  }

  /** Field-wise, the optional payload included. */
  function NewMessageEq(lhs: NewMessage, rhs: NewMessage): (r: bool)
    ensures r <==> lhs == rhs
  {
    lhs.sourceNode == rhs.sourceNode
    && lhs.destNode == rhs.destNode
    && lhs.sourceActor == rhs.sourceActor
    && lhs.destActor == rhs.destActor
    && lhs.msg == rhs.msg
  }

  function NewActorPublishedEq(lhs: NewActorPublished, rhs: NewActorPublished): (r: bool)
    ensures r <==> lhs == rhs
  {
    lhs.sourceNode == rhs.sourceNode
    && lhs.publishedActor == rhs.publishedActor
    && lhs.port == rhs.port
  }

  /** Ignores `published_actors` and `known_actors`: two entries are equal
      when they agree once both actor sets are overwritten. */
  function ProbeDataEq(lhs: ProbeData, rhs: ProbeData): (r: bool)
    ensures r <==> lhs.(publishedActors := rhs.publishedActors, knownActors := rhs.knownActors) == rhs
  {
    NodeInfoEq(lhs.node, rhs.node)
    && lhs.ram == rhs.ram
    && lhs.load == rhs.load
    && lhs.directRoutes == rhs.directRoutes
  }

  function AddListenerEq(lhs: AddListener, rhs: AddListener): (r: bool)
    ensures r <==> lhs == rhs
  {
    lhs.listener == rhs.listener
  }

  function AddTypedListenerEq(lhs: AddTypedListener, rhs: AddTypedListener): (r: bool)
    ensures r <==> lhs == rhs
  {
    lhs.listener == rhs.listener
  }

  /** `probe_data`'s equality is an equivalence, though a coarser one than identity. */
  lemma ProbeDataEqIsEquivalence(a: ProbeData, b: ProbeData, c: ProbeData)
    ensures ProbeDataEq(a, a)
    ensures ProbeDataEq(a, b) ==> ProbeDataEq(b, a)
    ensures ProbeDataEq(a, b) && ProbeDataEq(b, c) ==> ProbeDataEq(a, c)
  {
  }

  /** Two entries that differ only in their actor sets compare equal. */
  lemma ProbeDataEqIgnoresActors(a: ProbeData, published: set<(ActorAddr, Port)>, known: set<ActorAddr>)
    ensures ProbeDataEq(a, a.(publishedActors := published, knownActors := known))
    ensures a.(publishedActors := published, knownActors := known) != a <==> published != a.publishedActors || known != a.knownActors
  {
  }

  /** Routes reported by two different nodes toward the same destination
      compare equal; `route_lost` likewise. */
  lemma RouteEqIgnoresSource(a: NodeId, b: NodeId, dest: NodeId, direct: bool)
    ensures NewRouteEq(NewRoute(a, dest, direct), NewRoute(b, dest, direct))
    ensures RouteLostEq(RouteLost(a, dest), RouteLost(b, dest))
    ensures a != b ==> NewRoute(a, dest, direct) != NewRoute(b, dest, direct)
  {
  }
}
