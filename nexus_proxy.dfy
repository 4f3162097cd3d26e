/** The nexus proxy (src/nexus_proxy.cpp, state in caf/riac/nexus_proxy.hpp):
    a local mirror of the nexus's `probe_data_map`, replaced wholesale by a
    snapshot and kept current by the same events, that answers read queries.
    Unlike the nexus it does not check `source_node`, and it ignores
    subscription requests and `down_msg`. */
module NexusProxy {
  import opened Wrappers
  import opened MessageTypes
  import opened Collections

  /** `sec::no_such_riac_node`, the only error the queries report. */
  datatype QueryError = NoSuchRiacNode

  /** `data[n]` as `operator[]` leaves it: the entry exists afterwards. */
  function Touch(d: ProbeDataMap, n: NodeId): (r: ProbeDataMap)
    ensures OnlyEntry(d, r, n) && r[n] == Entry(d, n)
    ensures n in d ==> r == d
  {
    d[n := Entry(d, n)]
  }

  /** What one message does to the mirrored map. */
  function Apply(d: ProbeDataMap, m: Message): (r: ProbeDataMap)
    ensures m.SnapshotMsg? ==> r == m.snapshot
    ensures m.NodeDisconnectedMsg? ==>
      r.Keys == d.Keys - {m.disconnected.sourceNode} && forall k :: k in r ==> r[k] == d[k]
    ensures m.NewRouteMsg? && !m.route.isDirect ==> r == d
    ensures m.ActorPublishedMsg? && m.published.publishedActor == NullAddr ==> r == d
    ensures !m.IsSinkEvent() && !m.SnapshotMsg? ==> r == d
    ensures m.NewMessageMsg? ==> r == d
    ensures m.IsSinkEvent() && !m.NodeDisconnectedMsg? && !m.NewMessageMsg?
            && !(m.NewRouteMsg? && !m.route.isDirect)
            && !(m.ActorPublishedMsg? && m.published.publishedActor == NullAddr) ==>
      OnlyEntry(d, r, m.SourceNode())
    ensures m.NodeInfoMsg? ==> r[m.info.sourceNode] == Entry(d, m.info.sourceNode).(node := m.info)
    ensures m.RamUsageMsg? ==> r[m.ramUsage.sourceNode] == Entry(d, m.ramUsage.sourceNode).(ram := Some(m.ramUsage))
    ensures m.WorkLoadMsg? ==> r[m.workLoad.sourceNode] == Entry(d, m.workLoad.sourceNode).(load := Some(m.workLoad))
    ensures m.NewRouteMsg? && m.route.isDirect ==>
      var n := m.route.sourceNode;
      r[n] == Entry(d, n).(directRoutes := Entry(d, n).directRoutes + {m.route.dest})
    ensures m.RouteLostMsg? ==>
      var n := m.lost.sourceNode;
      r[n] == Entry(d, n).(directRoutes := Entry(d, n).directRoutes - {m.lost.dest})
    ensures m.ActorPublishedMsg? && m.published.publishedActor != NullAddr ==>
      var p := m.published;
      var e := Entry(d, p.sourceNode);
      r[p.sourceNode] == e.(knownActors := e.knownActors + {p.publishedActor},
                            publishedActors := e.publishedActors + {(p.publishedActor, p.port)})
  {
    match m
    case NodeInfoMsg(ni, _) => d[ni.sourceNode := Entry(d, ni.sourceNode).(node := ni)]
    case RamUsageMsg(ru) => d[ru.sourceNode := Entry(d, ru.sourceNode).(ram := Some(ru))]
    case WorkLoadMsg(wl) => d[wl.sourceNode := Entry(d, wl.sourceNode).(load := Some(wl))]
    case NewRouteMsg(route) =>
      if route.isDirect then
        var e := Entry(d, route.sourceNode);
        d[route.sourceNode := e.(directRoutes := e.directRoutes + {route.dest})]
      else d
    case RouteLostMsg(lost) =>
      var e := Entry(d, lost.sourceNode);
      d[lost.sourceNode := e.(directRoutes := e.directRoutes - {lost.dest})]
    case NewMessageMsg(_) => d
    case ActorPublishedMsg(p) =>
      if p.publishedActor == NullAddr then d
      else
        var e := Entry(d, p.sourceNode);
        d[p.sourceNode := e.(knownActors := e.knownActors + {p.publishedActor},
                             publishedActors := e.publishedActors + {(p.publishedActor, p.port)})]
    case NodeDisconnectedMsg(nd) => d - {nd.sourceNode}
    case SnapshotMsg(snapshot) => snapshot
    case _ => d
  }

  /** The acknowledgement a `node_info` with a valid observer asks for. */
  function Replies(self: ActorAddr, m: Message): (r: seq<Envelope>)
    ensures r != [] <==> m.NodeInfoMsg? && m.observer != NullAddr
    ensures forall e :: e in r ==> e == Envelope(m.observer, OkMsg(self))
    ensures |r| <= 1
  {
    if m.NodeInfoMsg? && m.observer != NullAddr then [Envelope(m.observer, OkMsg(self))] else []
  }

  // ---------------------------------------------------------------------
  // The read-only queries
  // ---------------------------------------------------------------------

  /** `list_nodes`: every node with an entry, once each, in map order. */
  function ListNodes(d: ProbeDataMap): (r: seq<NodeId>)
    ensures Increasing(r) && Enumerates(r, d.Keys)
  {
    Sorted(d.Keys)
  }

  /** The nodes of `ns` whose entry reports host name `h`, in order. */
  function OnHost(ns: seq<NodeId>, d: ProbeDataMap, h: string): (r: seq<NodeId>)
    requires forall i :: 0 <= i < |ns| ==> ns[i] in d
    requires Increasing(ns)
    ensures Increasing(r)
    ensures forall n :: n in r <==> n in ns && d[n].node.hostname == h
  {
    if ns == [] then []
    else
      var rest := OnHost(ns[1..], d, h);
      if d[ns[0]].node.hostname == h then
        assert forall j :: 0 <= j < |rest| ==> ns[0] < rest[j] by {
          forall j | 0 <= j < |rest| ensures ns[0] < rest[j] {
            assert rest[j] in ns[1..];
          }
        }
        [ns[0]] + rest
      else rest
  }

  /** `list_nodes(hostname)`: exactly the nodes whose `node_info` carries
      that host name, in map order. */
  function ListNodesOnHost(d: ProbeDataMap, h: string): (r: seq<NodeId>)
    ensures Increasing(r)
    ensures forall n :: n in r <==> n in d && d[n].node.hostname == h
  {
    OnHost(Sorted(d.Keys), d, h)
  }

  /** `get_node`: the stored `node_info`, or the error iff there is no entry. */
  function GetNode(d: ProbeDataMap, n: NodeId): (r: Result<NodeInfo, QueryError>)
    ensures r.Err? <==> n !in d
    ensures r.Ok? ==> r.value == d[n].node
  {
    if n in d then Ok(d[n].node) else Err(NoSuchRiacNode)
  }

  /** `list_peers`: the node's direct routes in order, empty for an unknown
      node; the lookup inserts nothing. */
  function ListPeers(d: ProbeDataMap, n: NodeId): (r: seq<NodeId>)
    ensures Increasing(r)
    ensures n in d ==> Enumerates(r, d[n].directRoutes)
    ensures n !in d ==> r == []
  {
    if n in d then Sorted(d[n].directRoutes) else []
  }

  /** `get_sys_load`: the last `work_load`, or the error when the node is
      unknown or never reported one. */
  function GetSysLoad(d: ProbeDataMap, n: NodeId): (r: Result<WorkLoad, QueryError>)
    ensures r.Err? <==> n !in d || d[n].load.None?
    ensures r.Ok? ==> d[n].load == Some(r.value)
  {
    if n !in d || d[n].load.None? then Err(NoSuchRiacNode) else Ok(d[n].load.value)
  }

  /** `get_ram_usage`: the last `ram_usage`, or the error when the node is
      unknown or never reported one. */
  function GetRamUsage(d: ProbeDataMap, n: NodeId): (r: Result<RamUsage, QueryError>)
    ensures r.Err? <==> n !in d || d[n].ram.None?
    ensures r.Ok? ==> d[n].ram == Some(r.value)
  {
    if n !in d || d[n].ram.None? then Err(NoSuchRiacNode) else Ok(d[n].ram.value)
  }

  /** `std::find_if` over the known actors: the first element whose `id()`
      is `aid`, or the invalid handle. */
  method FindActor(known: seq<ActorAddr>, aid: ActorId) returns (r: ActorAddr)
    ensures (r in known && r.Id() == aid) || (r == NullAddr && forall i :: 0 <= i < |known| ==> known[i].Id() != aid)
    ensures forall i :: 0 <= i < |known| && known[i].Id() == aid ==>
      exists k :: 0 <= k <= i && known[k] == r && forall j :: 0 <= j < k ==> known[j].Id() != aid
  {
    var i := 0;
    while i < |known|
      invariant 0 <= i <= |known|
      invariant forall j :: 0 <= j < i ==> known[j].Id() != aid
    {
      if known[i].Id() == aid {
        return known[i];
      }
      i := i + 1;
    }
    return NullAddr;
  }

  // ---------------------------------------------------------------------
  // The actor
  // ---------------------------------------------------------------------

  class ProxyActor {
    /** The proxy's own handle, sent back in `ok` replies. */
    const self: ActorAddr
    /** `state.data`. */
    var data: ProbeDataMap
    /** Every message sent so far, in order. */
    var outbox: seq<Envelope>

    constructor (self: ActorAddr)
      ensures this.self == self && data == map[] && outbox == []
    {
      this.self := self;
      data := map[];
      outbox := [];
    }

    /** One event, snapshot, subscription request or `down_msg`. */
    method Receive(m: Message)
      requires m.InNexusInterface() || m.SnapshotMsg?
      modifies this
      ensures data == Apply(old(data), m)
      ensures outbox == old(outbox) + Replies(self, m)
    {
      match m
      case NodeInfoMsg(ni, observer) =>
        data := data[ni.sourceNode := Entry(data, ni.sourceNode).(node := ni)];
        if observer != NullAddr {
          outbox := outbox + [Envelope(observer, OkMsg(self))];
        }
      case RamUsageMsg(ru) =>
        data := data[ru.sourceNode := Entry(data, ru.sourceNode).(ram := Some(ru))];
      case WorkLoadMsg(wl) =>
        data := data[wl.sourceNode := Entry(data, wl.sourceNode).(load := Some(wl))];
      case NewRouteMsg(route) =>
        if route.isDirect {
          var e := Entry(data, route.sourceNode);
          data := data[route.sourceNode := e.(directRoutes := e.directRoutes + {route.dest})];
        }
      case RouteLostMsg(lost) =>
        var e := Entry(data, lost.sourceNode);
        data := data[lost.sourceNode := e.(directRoutes := e.directRoutes - {lost.dest})];
      case NewMessageMsg(_) =>
      case ActorPublishedMsg(p) =>
        var addr := p.publishedActor;
        var nid := p.sourceNode;
        if addr == NullAddr {
          return;
        }
        var e := Entry(data, nid);
        data := data[nid := e.(knownActors := e.knownActors + {addr})];
        e := data[nid];
        data := data[nid := e.(publishedActors := e.publishedActors + {(addr, p.port)})];
      case NodeDisconnectedMsg(nd) =>
        data := data - {nd.sourceNode};
      case AddListenerMsg(_) =>
      case AddTypedListenerMsg(_) =>
      case SnapshotMsg(snapshot) =>
        data := snapshot;
      case DownMsg(_) =>
    }

    /** `list_actors`: the node's known actors, each once; reading through
        `operator[]` creates the entry of an unknown node. */
    method ListActors(n: NodeId) returns (r: seq<ActorAddr>)
      modifies this`data
      ensures data == Touch(old(data), n)
      ensures Enumerates(r, Entry(old(data), n).knownActors)
    {
      data := data[n := Entry(data, n)];
      r := Elements(data[n].knownActors);
    }

    /** `get_actor`: a known actor of the node with actor id `aid`, or the
        invalid handle when there is none; creates the entry like
        `list_actors`. */
    method GetActor(n: NodeId, aid: ActorId) returns (r: ActorAddr)
      modifies this`data
      ensures data == Touch(old(data), n)
      ensures (r in Entry(old(data), n).knownActors && r.Id() == aid)
              || (r == NullAddr && forall a :: a in Entry(old(data), n).knownActors ==> a.Id() != aid)
    {
      data := data[n := Entry(data, n)];
      var known := Elements(data[n].knownActors);
      r := FindActor(known, aid);
    }
  }

  // ---------------------------------------------------------------------
  // Properties of the queries
  // ---------------------------------------------------------------------

  /** Reading the actors of an unknown node makes it appear in `list_nodes`
      with an empty entry, and a second read sees the same empty entry and
      changes nothing more. */
  lemma ListActorsLeaksIntoListNodes(d: ProbeDataMap, n: NodeId)
    requires n !in d
    ensures n !in ListNodes(d) && n in ListNodes(Touch(d, n))
    ensures Entry(Touch(d, n), n).knownActors == {}
    ensures Touch(Touch(d, n), n) == Touch(d, n)
    ensures GetNode(Touch(d, n), n) == Ok(EmptyNodeInfo)
  {
  }

  /** Neither gauge is ever reported from a default entry: an entry that
      `operator[]` created has neither. */
  lemma TouchedGaugesAbsent(d: ProbeDataMap, n: NodeId)
    requires n !in d
    ensures GetSysLoad(Touch(d, n), n).Err? && GetRamUsage(Touch(d, n), n).Err?
  {
  }

  /** After `node_disconnected` the node is gone from every query. */
  lemma DisconnectPurges(d: ProbeDataMap, n: NodeId)
    ensures var d' := Apply(d, NodeDisconnectedMsg(NodeDisconnected(n)));
            && n !in ListNodes(d')
            && GetNode(d', n).Err?
            && ListPeers(d', n) == []
            && GetSysLoad(d', n).Err? && GetRamUsage(d', n).Err?
  {
  }

  /** The proxy does not check `source_node`: an update for the invalid
      node creates an entry for it that `list_nodes` reports. */
  lemma InvalidSourceAccepted(ru: RamUsage)
    requires ru.sourceNode == InvalidNodeId
    ensures var d := Apply(map[], RamUsageMsg(ru));
            ListNodes(d) == [InvalidNodeId] && GetRamUsage(d, InvalidNodeId) == Ok(ru)
  {
    var d := Apply(map[], RamUsageMsg(ru));
    var ns := ListNodes(d);
    EnumerationLength(ns, d.Keys);
    assert d.Keys == {InvalidNodeId};
    assert ns[0] == InvalidNodeId;
  }

  /** A snapshot replaces everything that was there. */
  lemma SnapshotReplaces(d: ProbeDataMap, snapshot: ProbeDataMap, n: NodeId)
    ensures GetNode(Apply(d, SnapshotMsg(snapshot)), n) == GetNode(snapshot, n)
    ensures ListNodes(Apply(d, SnapshotMsg(snapshot))) == ListNodes(snapshot)
  {
  }
}
