/** The older entry point of src/init_probe.cpp: a `fwd_hook` that is given
    its uplink at construction, announces its node at once, and passes every
    callback on to the next hook in the middleman's chain; and the two
    `init_probe` overloads that install it. Option parsing and the remote
    connection are parameters: their outcomes are given. */
module InitProbe {
  import opened Wrappers
  import opened MessageTypes
  import opened Hostname
  import opened Probe

  /** What the hook does, in order: send an event to the uplink, or call the
      next hook with the callback's arguments. */
  datatype Effect = Sent(env: Envelope) | Forwarded(call: HookCall)

  /** The event this hook sends for `c`. Its uplink is always set, and the
      node and id come from `actor_addr::node()`/`id()`. */
  function ChainEmission(node: NodeId, uplink: ActorAddr, c: HookCall): (r: Option<Message>)
    ensures r.Some? <==> c.MessageReceived? || (c.MessageSent? && c.dest != uplink)
                         || c.ActorPublished? || c.NewConnectionEstablished? || c.NewRouteAdded?
    ensures r.Some? && c.IsTraffic() ==>
      r.value.NewMessageMsg? && r.value.trace.sourceNode == c.from.Node() && r.value.trace.destNode == c.dest.Node()
      && r.value.trace.sourceActor == c.from.Id() && r.value.trace.destActor == c.dest.Id()
      && r.value.trace.msg == Some(c.payload)
    ensures r.Some? ==> r.value.IsSinkEvent()
    ensures r.Some? && c.ActorPublished? ==> r.value == ActorPublishedMsg(NewActorPublished(node, c.addr, c.port))
    ensures r.Some? && c.NewConnectionEstablished? ==> r.value == NewRouteMsg(NewRoute(node, c.peer, true))
    ensures r.Some? && c.NewRouteAdded? ==> r.value == NewRouteMsg(NewRoute(node, c.target, false))
  {
    match c
    case MessageReceived(_, from, dest, payload) =>
      Some(NewMessageMsg(NewMessage(from.Node(), dest.Node(), from.Id(), dest.Id(), Some(payload))))
    case MessageSent(from, _, dest, payload) =>
      if dest == uplink then None
      else Some(NewMessageMsg(NewMessage(from.Node(), dest.Node(), from.Id(), dest.Id(), Some(payload))))
    case ActorPublished(addr, _, port) => Some(ActorPublishedMsg(NewActorPublished(node, addr, port)))
    case NewConnectionEstablished(peer) => Some(NewRouteMsg(NewRoute(node, peer, true)))
    case NewRouteAdded(_, target) => Some(NewRouteMsg(NewRoute(node, target, false)))
    case _ => None
  }

  /** Whether the hook calls the next one: always, except for a message
      sent to the uplink itself. */
  predicate PassesOn(uplink: ActorAddr, c: HookCall)
  {
    !(c.MessageSent? && c.dest == uplink)
  }

  /** The effects of one callback: the event first, then the call to the
      next hook with the same arguments. */
  function Step(node: NodeId, uplink: ActorAddr, c: HookCall): (r: seq<Effect>)
    ensures |r| <= 2
    ensures Forwarded(c) in r <==> PassesOn(uplink, c)
    ensures forall i :: 0 <= i < |r| && r[i].Forwarded? ==> i == |r| - 1 && r[i].call == c
    ensures forall i :: 0 <= i < |r| && r[i].Sent? ==>
      r[i].env.dest == uplink && Some(r[i].env.msg) == ChainEmission(node, uplink, c)
    ensures ChainEmission(node, uplink, c).Some? ==> r[0].Sent?
  {
    var sent := match ChainEmission(node, uplink, c)
                case Some(m) => [Sent(Envelope(uplink, m))]
                case None => [];
    sent + if PassesOn(uplink, c) then [Forwarded(c)] else []
  }

  /** Once the uplink is set, this hook sends exactly what the hook of
      src/probe.cpp sends with the intended node/id helpers. */
  lemma SameEventsAsProbeHook(node: NodeId, uplink: ActorAddr, c: HookCall)
    requires uplink != NullAddr
    ensures ChainEmission(node, uplink, c) == Emission(node, uplink, c)
  {
  }

  /** The hook breaks the chain exactly for messages sent to the uplink: for
      those it does nothing at all. */
  lemma ChainBrokenOnlyForUplink(node: NodeId, uplink: ActorAddr, c: HookCall)
    ensures Step(node, uplink, c) == [] <==> c.MessageSent? && c.dest == uplink
  {
  }

  class ChainedHook {
    /** `node_`. */
    const node: NodeId
    /** `uplink_`, fixed at construction. */
    const uplink: ActorAddr
    /** Every effect so far, in order. */
    var trace: seq<Effect>

    /** The first effect is the registration with the nexus. */
    ghost predicate Valid()
      reads this
    {
      && |trace| >= 1
      && trace[0].Sent?
      && trace[0].env.dest == uplink
      && trace[0].env.msg.NodeInfoMsg?
      && trace[0].env.msg.info.sourceNode == node
    }

    /** The constructor sends the `node_info` of the local node before
        anything else. */
    constructor (node: NodeId, uplink: ActorAddr, interfaces: InterfacesMap, written: seq<char>)
      requires |written| == MaxHostnameSize
      ensures this.node == node && this.uplink == uplink
      ensures trace == [Sent(Envelope(uplink, Registration(node, interfaces, written)))]
      ensures Valid()
    {
      this.node := node;
      this.uplink := uplink;
      var ni := NodeInfo(node, [], "", "", interfaces);
      ni := ni.(hostname := Hostname.Hostname(written));
      trace := [Sent(Envelope(uplink, NodeInfoMsg(ni, NullAddr)))];
    }

    /** `transmit`: unlike src/probe.cpp, always sends. */
    method Transmit(m: Message)
      modifies this`trace
      ensures trace == old(trace) + [Sent(Envelope(uplink, m))]
    {
      trace := trace + [Sent(Envelope(uplink, m))];
    }

    /** `call_next`. */
    method CallNext(c: HookCall)
      modifies this`trace
      ensures trace == old(trace) + [Forwarded(c)]
    {
      trace := trace + [Forwarded(c)];
    }

    /** One middleman callback. */
    method OnCall(c: HookCall)
      requires Valid()
      modifies this`trace
      ensures Valid()
      ensures trace == old(trace) + Step(node, uplink, c)
    {
      match c
      case MessageReceived(_, from, dest, payload) =>
        Transmit(NewMessageMsg(NewMessage(from.Node(), dest.Node(), from.Id(), dest.Id(), Some(payload))));
        CallNext(c);
      case MessageSent(from, _, dest, payload) =>
        if dest == uplink {
          return;
        }
        Transmit(NewMessageMsg(NewMessage(from.Node(), dest.Node(), from.Id(), dest.Id(), Some(payload))));
        CallNext(c);
      case MessageForwarded => CallNext(c);
      case MessageForwardingFailed => CallNext(c);
      case MessageSendingFailed(_, _, _) => CallNext(c);
      case ActorPublished(addr, _, port) =>
        Transmit(ActorPublishedMsg(NewActorPublished(node, addr, port)));
        CallNext(c);
      case NewRemoteActor(_) => CallNext(c);
      case NewConnectionEstablished(peer) =>
        Transmit(NewRouteMsg(NewRoute(node, peer, true)));
        CallNext(c);
      case NewRouteAdded(_, target) =>
        Transmit(NewRouteMsg(NewRoute(node, target, false)));
        CallNext(c);
      case InvalidMessageReceived(_, _, _, _) => CallNext(c);
    }
  }

  /** `init_probe(host, port)`: `connection` is the outcome of connecting to
      the nexus at host and port (`None` when it throws). On success the
      hook is built, which registers the node, and the call reports true. */
  method InitProbe(connection: Option<ActorAddr>, node: NodeId, interfaces: InterfacesMap, written: seq<char>)
    returns (ok: bool, hook: ChainedHook?)
    requires |written| == MaxHostnameSize
    ensures ok <==> connection.Some?
    ensures !ok ==> hook == null
    ensures ok ==> hook != null && fresh(hook) && hook.Valid()
                   && hook.uplink == connection.value && hook.node == node
                   && hook.trace == [Sent(Envelope(connection.value, Registration(node, interfaces, written)))]
  {
    if connection.None? {
      return false, null;
    }
    hook := new ChainedHook(node, connection.value, interfaces, written);
    ok := true;
  }

  /** The options `--caf-nexus-host` and `--caf-nexus-port` are both given:
      a port other than 0 and a non-empty host. */
  predicate ArgsComplete(host: string, port: Port)
  {
    port != 0 && host != ""
  }

  /** `init_probe(argc, argv)` with the parsed option values (an absent
      option leaves the empty host or port 0): incomplete options fail
      before any connection; otherwise it is `init_probe(host, port)`. */
  method InitProbeFromArgs(host: string, port: Port, connection: Option<ActorAddr>, node: NodeId,
                           interfaces: InterfacesMap, written: seq<char>)
    returns (ok: bool, hook: ChainedHook?)
    requires |written| == MaxHostnameSize
    ensures ok <==> ArgsComplete(host, port) && connection.Some?
    ensures !ok ==> hook == null
    ensures ok ==> hook != null && fresh(hook) && hook.Valid()
                   && hook.uplink == connection.value && hook.node == node
                   && hook.trace == [Sent(Envelope(connection.value, Registration(node, interfaces, written)))]
  {
    if port == 0 || host == "" {
      return false, null;
    }
    ok, hook := InitProbe(connection, node, interfaces, written);
  }
}
