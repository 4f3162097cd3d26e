/** The probe side of src/probe.cpp: the `fwd_hook` installed into the
    middleman, which turns transport callbacks into events for the nexus,
    and the `probe` module, which connects to the nexus and registers the
    hook. The remote connection, the hook registry and the interface
    listing are parameters: their outcomes are given, not computed. */
module Probe {
  import opened Wrappers
  import opened MessageTypes
  import opened Hostname
  import opened Nexus

  /** The middleman callbacks a hook receives, with the arguments the
      translation reads (message ids and BASP headers are not modelled). */
  datatype HookCall =
    | MessageReceived(srcNode: NodeId, from: ActorAddr, dest: ActorAddr, payload: Payload)
    | MessageSent(from: ActorAddr, hop: NodeId, dest: ActorAddr, payload: Payload)
    | MessageForwarded
    | MessageForwardingFailed
    | MessageSendingFailed(failedFrom: ActorAddr, failedDest: ActorAddr, failedPayload: Payload)
    | ActorPublished(addr: ActorAddr, ifs: set<string>, port: Port)
    | NewRemoteActor(remote: ActorAddr)
    | NewConnectionEstablished(peer: NodeId)
    | NewRouteAdded(via: NodeId, target: NodeId)
    | InvalidMessageReceived(source: NodeId, sender: ActorAddr, invalidDest: ActorId, invalidPayload: Payload)
  {
    /** A callback that carries a message between two actors. */
    predicate IsTraffic()
    {
      MessageReceived? || MessageSent?
    }
  }

  // ---------------------------------------------------------------------
  // The node/id helpers, as written and as intended
  // ---------------------------------------------------------------------

  /** `fwd_hook::node` as written, with the condition inverted: a live
      handle gives the invalid node, and only the null handle, whose
      dereference is undefined, would reach `x->node()`. So only non-null
      handles are in its domain, and for all of them it yields the invalid
      node. */
  function NodeAsWritten(x: ActorAddr): (r: NodeId)
    requires x != NullAddr
    ensures r == InvalidNodeId
  {
    if x != NullAddr then InvalidNodeId else x.Node()
  }

  /** `fwd_hook::id` as written, with the same inverted condition. */
  function IdAsWritten(x: ActorAddr): (r: ActorId)
    requires x != NullAddr
    ensures r == InvalidActorId
  {
    if x != NullAddr then InvalidActorId else x.Id()
  }

  /** The `new_message` the callbacks build as written. */
  function TraceAsWritten(from: ActorAddr, dest: ActorAddr, payload: Payload): (r: NewMessage)
    requires from != NullAddr && dest != NullAddr
    ensures r.sourceNode == InvalidNodeId && r.destNode == InvalidNodeId
    ensures r.sourceActor == InvalidActorId && r.destActor == InvalidActorId
    ensures r.msg == Some(payload)
  {
    NewMessage(NodeAsWritten(from), NodeAsWritten(dest), IdAsWritten(from), IdAsWritten(dest), Some(payload))
  }

  /** As written, every traced message reaches the nexus with the invalid
      source node and is dropped by its source check, even when the sender
      lives on a valid node. */
  lemma AsWrittenTraceDropped(s: Core, self: ActorAddr, sender: ActorAddr, from: ActorAddr, dest: ActorAddr, payload: Payload)
    requires from != NullAddr && dest != NullAddr
    ensures Handle(s, self, sender, NewMessageMsg(TraceAsWritten(from, dest, payload))) == Ignore(s)
    ensures from.Node() != InvalidNodeId ==> TraceAsWritten(from, dest, payload).sourceNode != from.Node()
  {
  }

  /** The evident intent, `x ? x->node() : invalid_node_id` (which is what
      src/init_probe.cpp computes with `actor_addr::node()`). */
  function Trace(from: ActorAddr, dest: ActorAddr, payload: Payload): (r: NewMessage)
    ensures r.sourceNode == from.Node() && r.destNode == dest.Node()
    ensures r.sourceActor == from.Id() && r.destActor == dest.Id()
    ensures from == NullAddr ==> r.sourceNode == InvalidNodeId && r.sourceActor == InvalidActorId
    ensures r.msg == Some(payload)
  {
    NewMessage(from.Node(), dest.Node(), from.Id(), dest.Id(), Some(payload))
  }

  /** With the intended helpers a trace from an actor on a valid node passes
      the nexus's source check and is broadcast, leaving its state alone. */
  lemma CorrectedTraceBroadcast(s: Core, self: ActorAddr, sender: ActorAddr, from: ActorAddr, dest: ActorAddr, payload: Payload)
    requires from.Node() != InvalidNodeId
    ensures Handle(s, self, sender, NewMessageMsg(Trace(from, dest, payload))) == Reaction(s, true, [])
  {
  }

  // ---------------------------------------------------------------------
  // The translation
  // ---------------------------------------------------------------------

  /** The event the hook of node `node` sends for callback `c` while its
      uplink is `uplink` (`NullAddr` while unset). */
  function Emission(node: NodeId, uplink: ActorAddr, c: HookCall): (r: Option<Message>)
    ensures uplink == NullAddr ==> r == None
    ensures c.MessageSent? && c.dest == uplink ==> r == None
    ensures r.Some? <==> uplink != NullAddr
                         && (c.MessageReceived? || (c.MessageSent? && c.dest != uplink)
                             || c.ActorPublished? || c.NewConnectionEstablished? || c.NewRouteAdded?)
    ensures r.Some? ==> r.value.IsSinkEvent() && !r.value.NodeInfoMsg?
    ensures r.Some? && c.IsTraffic() ==> r.value == NewMessageMsg(Trace(c.from, c.dest, c.payload))
    ensures r.Some? && c.ActorPublished? ==> r.value == ActorPublishedMsg(NewActorPublished(node, c.addr, c.port))
    ensures r.Some? && c.NewConnectionEstablished? ==> r.value == NewRouteMsg(NewRoute(node, c.peer, true))
    ensures r.Some? && c.NewRouteAdded? ==> r.value == NewRouteMsg(NewRoute(node, c.target, false))
  {
    if uplink == NullAddr then None
    else
      match c
      case MessageReceived(_, from, dest, payload) => Some(NewMessageMsg(Trace(from, dest, payload)))
      case MessageSent(from, _, dest, payload) =>
        if dest == uplink then None else Some(NewMessageMsg(Trace(from, dest, payload)))
      case ActorPublished(addr, _, port) => Some(ActorPublishedMsg(NewActorPublished(node, addr, port)))
      case NewConnectionEstablished(peer) => Some(NewRouteMsg(NewRoute(node, peer, true)))
      case NewRouteAdded(_, target) => Some(NewRouteMsg(NewRoute(node, target, false)))
      case _ => None
  }

  /** The envelope list of an optional event sent to the uplink. */
  function ToUplink(uplink: ActorAddr, e: Option<Message>): (r: seq<Envelope>)
    ensures |r| <= 1
    ensures forall i :: 0 <= i < |r| ==> r[i].dest == uplink && Some(r[i].msg) == e
    ensures e.Some? ==> |r| == 1
  {
    if e.Some? then [Envelope(uplink, e.value)] else []
  }

  /** `new_connection_established` and `new_route_added` differ in the
      route kind, and the nexus records only the first: the peer of a new
      connection becomes a direct route of the probe's node, a route added
      through a hop is discarded. */
  lemma RoutesAtNexus(s: Core, self: ActorAddr, sender: ActorAddr, node: NodeId, uplink: ActorAddr, via: NodeId, dest: NodeId)
    requires node != InvalidNodeId && uplink != NullAddr
    ensures var r := Handle(s, self, sender, Emission(node, uplink, NewConnectionEstablished(dest)).value);
            dest in r.next.data[node].directRoutes
    ensures Handle(s, self, sender, Emission(node, uplink, NewRouteAdded(via, dest)).value) == Ignore(s)
  {
  }

  /** A published actor is recorded under the probe's own node, whatever
      interfaces it was published on. */
  lemma PublishedAtNexus(s: Core, self: ActorAddr, sender: ActorAddr, node: NodeId, uplink: ActorAddr,
                         addr: ActorAddr, ifs: set<string>, ifs': set<string>, port: Port)
    requires node != InvalidNodeId && uplink != NullAddr && addr != NullAddr
    ensures Emission(node, uplink, ActorPublished(addr, ifs, port)) == Emission(node, uplink, ActorPublished(addr, ifs', port))
    ensures var r := Handle(s, self, sender, Emission(node, uplink, ActorPublished(addr, ifs, port)).value);
            addr in r.next.data[node].knownActors && (addr, port) in r.next.data[node].publishedActors && r.broadcast
  {
  }

  /** The `node_info` a hook of node `node` registers with. */
  function Registration(node: NodeId, interfaces: InterfacesMap, written: seq<char>): (r: Message)
    requires |written| == MaxHostnameSize
    ensures r.NodeInfoMsg? && r.info.sourceNode == node && r.observer == NullAddr
    ensures r.info.hostname == Hostname.Hostname(written) && |r.info.hostname| < MaxHostnameSize
    ensures r.info.cpu == [] && r.info.os == "" && r.info.interfaces == interfaces
  {
    NodeInfoMsg(NodeInfo(node, [], Hostname.Hostname(written), "", interfaces), NullAddr)
  }

  // ---------------------------------------------------------------------
  // The hook and the module
  // ---------------------------------------------------------------------

  class FwdHook {
    /** `node_`: the local node, fixed at construction. */
    const node: NodeId
    /** `uplink_`; `NullAddr` until `register_at_nexus`. */
    var uplink: ActorAddr
    /** Every event sent so far, in order. */
    var outbox: seq<Envelope>

    constructor (node: NodeId)
      ensures this.node == node && uplink == NullAddr && outbox == []
    {
      this.node := node;
      uplink := NullAddr;
      outbox := [];
    }

    /** `register_at_nexus`: sets the uplink and sends one `node_info`
        describing this node. `written` is what `gethostname` left in the
        buffer, `interfaces` what the interface listing returned. */
    method RegisterAtNexus(nexus: ActorAddr, interfaces: InterfacesMap, written: seq<char>)
      requires node != InvalidNodeId && |written| == MaxHostnameSize
      modifies this
      ensures uplink == nexus
      ensures outbox == old(outbox) + [Envelope(nexus, Registration(node, interfaces, written))]
    {
      uplink := nexus;
      var ni := NodeInfo(node, [], "", "", interfaces);
      ni := ni.(hostname := Hostname.Hostname(written));
      outbox := outbox + [Envelope(uplink, NodeInfoMsg(ni, NullAddr))];
    }

    /** `transmit`: sends only once the uplink is set. */
    method Transmit(m: Message)
      modifies this`outbox
      ensures outbox == old(outbox) + (if uplink != NullAddr then [Envelope(uplink, m)] else [])
    {
      if uplink != NullAddr {
        outbox := outbox + [Envelope(uplink, m)];
      }
    }

    /** One middleman callback. */
    method OnCall(c: HookCall)
      modifies this`outbox
      ensures outbox == old(outbox) + ToUplink(uplink, Emission(node, uplink, c))
    {
      match c
      case MessageReceived(_, from, dest, payload) =>
        Transmit(NewMessageMsg(Trace(from, dest, payload)));
      case MessageSent(from, _, dest, payload) =>
        if uplink == NullAddr || dest == uplink {
          return;
        }
        Transmit(NewMessageMsg(Trace(from, dest, payload)));
      case MessageForwarded =>
      case MessageForwardingFailed =>
      case MessageSendingFailed(_, _, _) =>
      case ActorPublished(addr, _, port) =>
        Transmit(ActorPublishedMsg(NewActorPublished(node, addr, port)));
      case NewRemoteActor(_) =>
      case NewConnectionEstablished(peer) =>
        Transmit(NewRouteMsg(NewRoute(node, peer, true)));
      case NewRouteAdded(_, target) =>
        Transmit(NewRouteMsg(NewRoute(node, target, false)));
      case InvalidMessageReceived(_, _, _, _) =>
    }
  }

  /** The `probe` middleman module. */
  class ProbeModule {
    /** `uplink_`; `NullAddr` until `start` connects. */
    var uplink: ActorAddr

    constructor ()
      ensures uplink == NullAddr && !Connected()
    {
      uplink := NullAddr;
    }

    /** `probe::connected`. */
    predicate Connected()
      reads this
    {
      uplink != NullAddr
    }

    /** `probe::start`: `connection` is the outcome of connecting to the
        configured nexus (`None` when it throws) and `hook` the `fwd_hook`
        found among the middleman's hooks (`null` when there is none). On
        success the hook is registered at the nexus. */
    method Start(connection: Option<ActorAddr>, hook: FwdHook?, interfaces: InterfacesMap, written: seq<char>)
      requires connection != Some(NullAddr)
      requires hook != null ==> hook.node != InvalidNodeId
      requires |written| == MaxHostnameSize
      modifies this, hook
      ensures connection.None? ==> uplink == old(uplink) && (hook != null ==> unchanged(hook))
      ensures connection.Some? ==> uplink == connection.value && Connected()
      ensures connection.Some? && hook != null ==>
        hook.uplink == uplink && hook.outbox == old(hook.outbox) + [Envelope(uplink, Registration(hook.node, interfaces, written))]
    {
      if connection.None? {
        return;
      }
      uplink := connection.value;
      if hook != null {
        hook.RegisterAtNexus(uplink, interfaces, written);
      }
    }
  }
}
