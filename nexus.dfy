/** The nexus aggregation engine (src/nexus.cpp, state in caf/riac/nexus.hpp).

    The engine is a sequential actor: each incoming message runs one handler
    to completion. Each handler is specified by a function from the old state
    to a `Reaction` (the new state, whether the current message is re-sent to
    every listener, and the direct sends that follow), and implemented by a
    method of `NexusActor` that updates the fields in place and appends its
    sends to an outbox. `monitor(h)` adds `h` once more to a watched multiset. */
module Nexus {
  import opened Wrappers
  import opened MessageTypes
  import opened Collections

  /** `data_`, `probes_`, `listeners_`, and the handles monitored so far
      (once per `monitor` call). */
  datatype Core = Core(
    data: ProbeDataMap,
    probes: map<ActorAddr, NodeId>,
    listeners: set<ActorAddr>,
    watched: multiset<ActorAddr>)

  const Initial: Core := Core(map[], map[], {}, multiset{})

  /** What one handler does: the state it leaves, whether it broadcasts the
      current message, and the sends it makes after the broadcast. */
  datatype Reaction = Reaction(next: Core, broadcast: bool, sends: seq<Envelope>)

  /** A dropped message: nothing changes and nothing is sent. */
  function Ignore(s: Core): Reaction
  {
    Reaction(s, false, [])
  }

  /** The invariant every handler keeps: no entry for the invalid node,
      every listener, probe and known actor is monitored, and no known actor
      is the invalid handle. */
  ghost predicate Inv(s: Core)
  {
    && InvalidNodeId !in s.data
    && (forall l :: l in s.listeners ==> l in s.watched)
    && (forall p :: p in s.probes ==> p in s.watched)
    && (forall n :: n in s.data ==> NullAddr !in s.data[n].knownActors)
    && (forall n, a :: n in s.data && a in s.data[n].knownActors ==> a in s.watched)
  }

  // ---------------------------------------------------------------------
  // One specification function per handler
  // ---------------------------------------------------------------------

  /** `node_info` from `sender`, with an optional observer to acknowledge. */
  function OnNodeInfo(s: Core, self: ActorAddr, sender: ActorAddr, ni: NodeInfo, observer: ActorAddr): (r: Reaction)
    ensures ni.sourceNode == InvalidNodeId ==> r == Ignore(s)
    ensures ni.sourceNode != InvalidNodeId ==>
      && OnlyEntry(s.data, r.next.data, ni.sourceNode)
      && r.next.data[ni.sourceNode] == Entry(s.data, ni.sourceNode).(node := ni)
      && r.next.probes == s.probes[sender := sender.Node()]
      && r.next.watched == s.watched + multiset{sender}
      && r.next.listeners == s.listeners
      && r.broadcast
      && (r.sends != [] <==> observer != NullAddr)
      && (forall e :: e in r.sends ==> e == Envelope(observer, OkMsg(self)))
    ensures |r.sends| <= 1
  {
    if ni.sourceNode == InvalidNodeId then Ignore(s)
    else
      var e := Entry(s.data, ni.sourceNode);
      Reaction(
        Core(s.data[ni.sourceNode := e.(node := ni)],
             s.probes[sender := sender.Node()],
             s.listeners,
             s.watched + multiset{sender}),
        true,
        if observer != NullAddr then [Envelope(observer, OkMsg(self))] else [])
  }

  /** `ram_usage`: overwrites only the `ram` field of the node's entry. */
  function OnRamUsage(s: Core, ru: RamUsage): (r: Reaction)
    ensures ru.sourceNode == InvalidNodeId ==> r == Ignore(s)
    ensures ru.sourceNode != InvalidNodeId ==>
      && OnlyEntry(s.data, r.next.data, ru.sourceNode)
      && r.next.data[ru.sourceNode] == Entry(s.data, ru.sourceNode).(ram := Some(ru))
      && r.next.(data := s.data) == s
      && r.broadcast && r.sends == []
  {
    if ru.sourceNode == InvalidNodeId then Ignore(s)
    else
      var e := Entry(s.data, ru.sourceNode);
      Reaction(s.(data := s.data[ru.sourceNode := e.(ram := Some(ru))]), true, [])
  }

  /** `work_load`: overwrites only the `load` field of the node's entry. */
  function OnWorkLoad(s: Core, wl: WorkLoad): (r: Reaction)
    ensures wl.sourceNode == InvalidNodeId ==> r == Ignore(s)
    ensures wl.sourceNode != InvalidNodeId ==>
      && OnlyEntry(s.data, r.next.data, wl.sourceNode)
      && r.next.data[wl.sourceNode] == Entry(s.data, wl.sourceNode).(load := Some(wl))
      && r.next.(data := s.data) == s
      && r.broadcast && r.sends == []
  {
    if wl.sourceNode == InvalidNodeId then Ignore(s)
    else
      var e := Entry(s.data, wl.sourceNode);
      Reaction(s.(data := s.data[wl.sourceNode := e.(load := Some(wl))]), true, [])
  }

  /** `new_actor_published`: records the actor and its port, monitoring the
      actor only the first time it is seen, and always broadcasts. */
  function OnActorPublished(s: Core, p: NewActorPublished): (r: Reaction)
    ensures p.sourceNode == InvalidNodeId || p.publishedActor == NullAddr ==> r == Ignore(s)
    ensures p.sourceNode != InvalidNodeId && p.publishedActor != NullAddr ==>
      var e := Entry(s.data, p.sourceNode);
      && OnlyEntry(s.data, r.next.data, p.sourceNode)
      && r.next.data[p.sourceNode] == e.(knownActors := e.knownActors + {p.publishedActor},
                                         publishedActors := e.publishedActors + {(p.publishedActor, p.port)})
      && r.next.watched == (if p.publishedActor in e.knownActors then s.watched else s.watched + multiset{p.publishedActor})
      && r.next.probes == s.probes && r.next.listeners == s.listeners
      && r.broadcast && r.sends == []
  {
    var addr := p.publishedActor;
    if p.sourceNode == InvalidNodeId || addr == NullAddr then Ignore(s)
    else
      var e := Entry(s.data, p.sourceNode);
      var watched := if addr in e.knownActors then s.watched else s.watched + multiset{addr};
      var e' := e.(knownActors := e.knownActors + {addr},
                   publishedActors := e.publishedActors + {(addr, p.port)});
      Reaction(s.(data := s.data[p.sourceNode := e'], watched := watched), true, [])
  }

  /** `new_route`: only direct routes are recorded, and a broadcast happens
      exactly when the destination is new for that node. */
  function OnNewRoute(s: Core, route: NewRoute): (r: Reaction)
    ensures route.sourceNode == InvalidNodeId || !route.isDirect ==> r == Ignore(s)
    ensures route.sourceNode != InvalidNodeId && route.isDirect ==>
      var e := Entry(s.data, route.sourceNode);
      && OnlyEntry(s.data, r.next.data, route.sourceNode)
      && r.next.data[route.sourceNode] == e.(directRoutes := e.directRoutes + {route.dest})
      && r.next.(data := s.data) == s
      && (r.broadcast <==> route.dest !in e.directRoutes)
      && r.sends == []
  {
    if route.sourceNode == InvalidNodeId || !route.isDirect then Ignore(s)
    else
      var e := Entry(s.data, route.sourceNode);
      Reaction(s.(data := s.data[route.sourceNode := e.(directRoutes := e.directRoutes + {route.dest})]),
               route.dest !in e.directRoutes, [])
  }

  /** `route_lost`: removes the destination, broadcasting exactly when it
      was there; the node's entry is created even when nothing is removed. */
  function OnRouteLost(s: Core, lost: RouteLost): (r: Reaction)
    ensures lost.sourceNode == InvalidNodeId ==> r == Ignore(s)
    ensures lost.sourceNode != InvalidNodeId ==>
      var e := Entry(s.data, lost.sourceNode);
      && OnlyEntry(s.data, r.next.data, lost.sourceNode)
      && r.next.data[lost.sourceNode] == e.(directRoutes := e.directRoutes - {lost.dest})
      && r.next.(data := s.data) == s
      && (r.broadcast <==> lost.dest in e.directRoutes)
      && r.sends == []
  {
    if lost.sourceNode == InvalidNodeId then Ignore(s)
    else
      var e := Entry(s.data, lost.sourceNode);
      Reaction(s.(data := s.data[lost.sourceNode := e.(directRoutes := e.directRoutes - {lost.dest})]),
               lost.dest in e.directRoutes, [])
  }

  /** `new_message`: a pass-through trace; state never changes. */
  function OnNewMessage(s: Core, m: NewMessage): (r: Reaction)
    ensures r.next == s && r.sends == []
    ensures r.broadcast <==> m.sourceNode != InvalidNodeId
  {
    if m.sourceNode == InvalidNodeId then Ignore(s) else Reaction(s, true, [])
  }

  /** `nexus::add`: a handle subscribes at most once; only a first
      subscription is monitored and receives the snapshot of `data_`. */
  function OnAddListener(s: Core, hdl: ActorAddr): (r: Reaction)
    ensures r.next.listeners == s.listeners + {hdl}
    ensures r.next.data == s.data && r.next.probes == s.probes && !r.broadcast
    ensures hdl in s.listeners ==> r == Ignore(s)
    ensures hdl !in s.listeners ==>
      r.sends == [Envelope(hdl, SnapshotMsg(s.data))] && r.next.watched == s.watched + multiset{hdl}
  {
    if hdl in s.listeners then Ignore(s)
    else
      Reaction(s.(listeners := s.listeners + {hdl}, watched := s.watched + multiset{hdl}),
               false, [Envelope(hdl, SnapshotMsg(s.data))])
  }

  /** `down_msg` for `source`: a lost listener is only unsubscribed; a lost
      probe makes the nexus send itself `node_disconnected` for the node it
      registered, and drops the probe's handle from that node's known actors.
      `probes_` is never shrunk. */
  function OnDown(s: Core, self: ActorAddr, source: ActorAddr): (r: Reaction)
    ensures !r.broadcast && r.next.probes == s.probes && r.next.watched == s.watched
    ensures source in s.listeners ==> r == Ignore(s.(listeners := s.listeners - {source}))
    ensures source !in s.listeners && source !in s.probes ==> r == Ignore(s)
    ensures source !in s.listeners && source in s.probes ==>
      var n := s.probes[source];
      && r.sends == [Envelope(self, NodeDisconnectedMsg(NodeDisconnected(n)))]
      && r.next.listeners == s.listeners
      && r.next.data.Keys == s.data.Keys
      && (forall k :: k in s.data ==>
            r.next.data[k] == if k == n then s.data[k].(knownActors := s.data[k].knownActors - {source})
                              else s.data[k])
  {
    if source in s.listeners then Ignore(s.(listeners := s.listeners - {source}))
    else if source in s.probes then
      var n := s.probes[source];
      var data := if n in s.data then s.data[n := s.data[n].(knownActors := s.data[n].knownActors - {source})]
                  else s.data;
      Reaction(s.(data := data), false, [Envelope(self, NodeDisconnectedMsg(NodeDisconnected(n)))])
    else Ignore(s)
  }

  /** `node_disconnected`: erases the node's whole entry and always
      broadcasts, whether or not there was an entry. */
  function OnNodeDisconnected(s: Core, nd: NodeDisconnected): (r: Reaction)
    ensures r.next.data.Keys == s.data.Keys - {nd.sourceNode}
    ensures forall k :: k in r.next.data ==> r.next.data[k] == s.data[k]
    ensures r.next.(data := s.data) == s
    ensures r.broadcast && r.sends == []
  {
    Reaction(s.(data := s.data - {nd.sourceNode}), true, [])
  }

  /** The behaviour: dispatch on the message kind. */
  function Handle(s: Core, self: ActorAddr, sender: ActorAddr, m: Message): (r: Reaction)
    requires m.InNexusInterface()
    ensures s.probes.Keys <= r.next.probes.Keys
    ensures !(m.AddListenerMsg? || m.AddTypedListenerMsg? || m.DownMsg?) ==> r.next.listeners == s.listeners
  {
    match m
    case NodeInfoMsg(ni, observer) => OnNodeInfo(s, self, sender, ni, observer)
    case RamUsageMsg(ru) => OnRamUsage(s, ru)
    case WorkLoadMsg(wl) => OnWorkLoad(s, wl)
    case ActorPublishedMsg(p) => OnActorPublished(s, p)
    case NewRouteMsg(route) => OnNewRoute(s, route)
    case RouteLostMsg(lost) => OnRouteLost(s, lost)
    case NewMessageMsg(trace) => OnNewMessage(s, trace)
    case AddListenerMsg(req) => OnAddListener(s, req.listener)
    case AddTypedListenerMsg(req) => OnAddListener(s, req.listener)
    case DownMsg(source) => OnDown(s, self, source)
    case NodeDisconnectedMsg(nd) => OnNodeDisconnected(s, nd)
  }

  // ---------------------------------------------------------------------
  // What reaches the outbox
  // ---------------------------------------------------------------------

  function Destinations(out: seq<Envelope>): seq<ActorAddr>
  {
    seq(|out|, i requires 0 <= i < |out| => out[i].dest)
  }

  /** `out` sends `m` to every listener exactly once and to nobody else. */
  ghost predicate BroadcastTo(out: seq<Envelope>, listeners: set<ActorAddr>, m: Message)
  {
    && (forall i :: 0 <= i < |out| ==> out[i].msg == m)
    && Enumerates(Destinations(out), listeners)
  }

  /** `out` is what a handler with reaction `r` sends while handling `m`:
      the broadcast to `listeners` (if any), then `r.sends`. */
  ghost predicate Emits(out: seq<Envelope>, r: Reaction, listeners: set<ActorAddr>, m: Message)
  {
    if r.broadcast then
      && |listeners| <= |out|
      && BroadcastTo(out[..|listeners|], listeners, m)
      && out[|listeners|..] == r.sends
    else out == r.sends
  }

  /** `after` is `before` followed by what a handler emits. */
  ghost predicate Appended(before: seq<Envelope>, after: seq<Envelope>, r: Reaction, listeners: set<ActorAddr>, m: Message)
  {
    && |before| <= |after|
    && after[..|before|] == before
    && Emits(after[|before|..], r, listeners, m)
  }

  /** A broadcast of `m` to `listeners`, followed by `r.sends`. */
  lemma AppendedBroadcast(before: seq<Envelope>, mid: seq<Envelope>, after: seq<Envelope>,
                          r: Reaction, listeners: set<ActorAddr>, m: Message)
    requires r.broadcast
    requires |before| <= |mid| && mid[..|before|] == before
    requires |mid| - |before| == |listeners| && BroadcastTo(mid[|before|..], listeners, m)
    requires after == mid + r.sends
    ensures Appended(before, after, r, listeners, m)
  {
    assert after[..|before|] == mid[..|before|];
    var out := after[|before|..];
    assert out == mid[|before|..] + r.sends;
    assert out[..|listeners|] == mid[|before|..];
    assert out[|listeners|..] == r.sends;
  }

  /** No broadcast: only `r.sends` is appended. */
  lemma AppendedDirect(before: seq<Envelope>, after: seq<Envelope>, r: Reaction, listeners: set<ActorAddr>, m: Message)
    requires !r.broadcast && after == before + r.sends
    ensures Appended(before, after, r, listeners, m)
  {
    assert after[..|before|] == before;
    assert after[|before|..] == r.sends;
  }

  // ---------------------------------------------------------------------
  // The actor
  // ---------------------------------------------------------------------

  class NexusActor {
    /** The nexus's own handle, the target of `send(this, ...)`. */
    const self: ActorAddr
    var data: ProbeDataMap
    var probes: map<ActorAddr, NodeId>
    var listeners: set<ActorAddr>
    var watched: multiset<ActorAddr>
    /** Every message sent so far, in order. */
    var outbox: seq<Envelope>

    function State(): Core
      reads this
    {
      Core(data, probes, listeners, watched)
    }

    ghost predicate Valid()
      reads this
    {
      Inv(State())
    }

    constructor (self: ActorAddr)
      ensures this.self == self && State() == Initial && outbox == [] && Valid()
    {
      this.self := self;
      data, probes, listeners, watched := map[], map[], {}, multiset{};
      outbox := [];
    }

    /** `nexus::broadcast`: sends the current message to every listener. */
    method Broadcast(m: Message)
      modifies this`outbox
      ensures |old(outbox)| <= |outbox| && outbox[..|old(outbox)|] == old(outbox)
      ensures |outbox| - |old(outbox)| == |listeners|
      ensures BroadcastTo(outbox[|old(outbox)|..], listeners, m)
    {
      var start := |outbox|;
      var rest := listeners;
      while rest != {}
        invariant rest <= listeners
        invariant start <= |outbox| && outbox[..start] == old(outbox)
        invariant forall i :: start <= i < |outbox| ==> outbox[i].msg == m
        invariant Distinct(Destinations(outbox[start..]))
        invariant forall i :: start <= i < |outbox| ==> outbox[i].dest in listeners && outbox[i].dest !in rest
        invariant forall l :: l in listeners && l !in rest ==> l in Destinations(outbox[start..])
        decreases rest
      {
        var l :| l in rest;
        ghost var before := outbox;
        outbox := outbox + [Envelope(l, m)];
        assert Destinations(outbox[start..]) == Destinations(before[start..]) + [l];
        rest := rest - {l};
      }
      EnumerationLength(Destinations(outbox[start..]), listeners);
    }

    method HandleNodeInfo(sender: ActorAddr, ni: NodeInfo, observer: ActorAddr)
      requires Valid()
      modifies this
      ensures Valid()
      ensures State() == OnNodeInfo(old(State()), self, sender, ni, observer).next
      ensures Appended(old(outbox), outbox, OnNodeInfo(old(State()), self, sender, ni, observer), old(listeners), NodeInfoMsg(ni, observer))
    {
      ghost var r := OnNodeInfo(State(), self, sender, ni, observer);
      ghost var before := outbox;
      NodeInfoKeepsInv(State(), self, sender, ni, observer);
      if ni.sourceNode == InvalidNodeId {
        AppendedDirect(before, outbox, r, listeners, NodeInfoMsg(ni, observer));
        return;
      }
      var e := Entry(data, ni.sourceNode);
      data := data[ni.sourceNode := e.(node := ni)];
      probes := probes[sender := sender.Node()];
      watched := watched + multiset{sender};
      Broadcast(NodeInfoMsg(ni, observer));
      ghost var mid := outbox;
      if observer != NullAddr {
        outbox := outbox + [Envelope(observer, OkMsg(self))];
      }
      AppendedBroadcast(before, mid, outbox, r, listeners, NodeInfoMsg(ni, observer));
    }

    method HandleRamUsage(ru: RamUsage)
      requires Valid()
      modifies this
      ensures Valid()
      ensures State() == OnRamUsage(old(State()), ru).next
      ensures Appended(old(outbox), outbox, OnRamUsage(old(State()), ru), old(listeners), RamUsageMsg(ru))
    {
      ghost var r := OnRamUsage(State(), ru);
      ghost var before := outbox;
      HandlePreservesInv(State(), self, self, RamUsageMsg(ru));
      if ru.sourceNode == InvalidNodeId {
        AppendedDirect(before, outbox, r, listeners, RamUsageMsg(ru));
        return;
      }
      var e := Entry(data, ru.sourceNode);
      data := data[ru.sourceNode := e.(ram := Some(ru))];
      Broadcast(RamUsageMsg(ru));
      AppendedBroadcast(before, outbox, outbox, r, listeners, RamUsageMsg(ru));
    }

    method HandleWorkLoad(wl: WorkLoad)
      requires Valid()
      modifies this
      ensures Valid()
      ensures State() == OnWorkLoad(old(State()), wl).next
      ensures Appended(old(outbox), outbox, OnWorkLoad(old(State()), wl), old(listeners), WorkLoadMsg(wl))
    {
      ghost var r := OnWorkLoad(State(), wl);
      ghost var before := outbox;
      HandlePreservesInv(State(), self, self, WorkLoadMsg(wl));
      if wl.sourceNode == InvalidNodeId {
        AppendedDirect(before, outbox, r, listeners, WorkLoadMsg(wl));
        return;
      }
      var e := Entry(data, wl.sourceNode);
      data := data[wl.sourceNode := e.(load := Some(wl))];
      Broadcast(WorkLoadMsg(wl));
      AppendedBroadcast(before, outbox, outbox, r, listeners, WorkLoadMsg(wl));
    }

    method HandleActorPublished(p: NewActorPublished)
      requires Valid()
      modifies this
      ensures Valid()
      ensures State() == OnActorPublished(old(State()), p).next
      ensures Appended(old(outbox), outbox, OnActorPublished(old(State()), p), old(listeners), ActorPublishedMsg(p))
    {
      ghost var r := OnActorPublished(State(), p);
      ghost var before := outbox;
      ActorPublishedKeepsInv(State(), p);
      if p.sourceNode == InvalidNodeId {
        AppendedDirect(before, outbox, r, listeners, ActorPublishedMsg(p));
        return;
      }
      var addr := p.publishedActor;
      var nid := p.sourceNode;
      if addr == NullAddr {
        AppendedDirect(before, outbox, r, listeners, ActorPublishedMsg(p));
        return;
      }
      var e := Entry(data, nid);
      if addr !in e.knownActors {
        watched := watched + multiset{addr};
      }
      e := e.(knownActors := e.knownActors + {addr});
      e := e.(publishedActors := e.publishedActors + {(addr, p.port)});
      data := data[nid := e];
      assert State() == r.next;
      Broadcast(ActorPublishedMsg(p));
      AppendedBroadcast(before, outbox, outbox, r, listeners, ActorPublishedMsg(p));
    }

    method HandleNewRoute(route: NewRoute)
      requires Valid()
      modifies this
      ensures Valid()
      ensures State() == OnNewRoute(old(State()), route).next
      ensures Appended(old(outbox), outbox, OnNewRoute(old(State()), route), old(listeners), NewRouteMsg(route))
    {
      ghost var r := OnNewRoute(State(), route);
      ghost var before := outbox;
      HandlePreservesInv(State(), self, self, NewRouteMsg(route));
      if route.sourceNode == InvalidNodeId || !route.isDirect {
        AppendedDirect(before, outbox, r, listeners, NewRouteMsg(route));
        return;
      }
      var e := Entry(data, route.sourceNode);
      var inserted := route.dest !in e.directRoutes;
      data := data[route.sourceNode := e.(directRoutes := e.directRoutes + {route.dest})];
      if inserted {
        Broadcast(NewRouteMsg(route));
        AppendedBroadcast(before, outbox, outbox, r, listeners, NewRouteMsg(route));
      } else {
        AppendedDirect(before, outbox, r, listeners, NewRouteMsg(route));
      }
    }

    method HandleRouteLost(lost: RouteLost)
      requires Valid()
      modifies this
      ensures Valid()
      ensures State() == OnRouteLost(old(State()), lost).next
      ensures Appended(old(outbox), outbox, OnRouteLost(old(State()), lost), old(listeners), RouteLostMsg(lost))
    {
      ghost var r := OnRouteLost(State(), lost);
      ghost var before := outbox;
      HandlePreservesInv(State(), self, self, RouteLostMsg(lost));
      if lost.sourceNode == InvalidNodeId {
        AppendedDirect(before, outbox, r, listeners, RouteLostMsg(lost));
        return;
      }
      var e := Entry(data, lost.sourceNode);
      var erased := lost.dest in e.directRoutes;
      data := data[lost.sourceNode := e.(directRoutes := e.directRoutes - {lost.dest})];
      if erased {
        Broadcast(RouteLostMsg(lost));
        AppendedBroadcast(before, outbox, outbox, r, listeners, RouteLostMsg(lost));
      } else {
        AppendedDirect(before, outbox, r, listeners, RouteLostMsg(lost));
      }
    }

    method HandleNewMessage(trace: NewMessage)
      requires Valid()
      modifies this
      ensures Valid()
      ensures State() == OnNewMessage(old(State()), trace).next
      ensures Appended(old(outbox), outbox, OnNewMessage(old(State()), trace), old(listeners), NewMessageMsg(trace))
    {
      ghost var r := OnNewMessage(State(), trace);
      ghost var before := outbox;
      if trace.sourceNode == InvalidNodeId {
        AppendedDirect(before, outbox, r, listeners, NewMessageMsg(trace));
        return;
      }
      Broadcast(NewMessageMsg(trace));
      AppendedBroadcast(before, outbox, outbox, r, listeners, NewMessageMsg(trace));
    }

    /** `nexus::add`, shared by both subscription requests. */
    method Add(hdl: ActorAddr)
      requires Valid()
      modifies this
      ensures Valid()
      ensures State() == OnAddListener(old(State()), hdl).next
      ensures outbox == old(outbox) + OnAddListener(old(State()), hdl).sends
    {
      HandlePreservesInv(State(), self, self, AddListenerMsg(AddListener(hdl)));
      if hdl !in listeners {
        listeners := listeners + {hdl};
        watched := watched + multiset{hdl};
        outbox := outbox + [Envelope(hdl, SnapshotMsg(data))];
      }
    }

    method HandleDown(source: ActorAddr)
      requires Valid()
      modifies this
      ensures Valid()
      ensures State() == OnDown(old(State()), self, source).next
      ensures outbox == old(outbox) + OnDown(old(State()), self, source).sends
    {
      DownKeepsInv(State(), self, source);
      if source in listeners {
        listeners := listeners - {source};
        return;
      }
      if source in probes {
        var n := probes[source];
        outbox := outbox + [Envelope(self, NodeDisconnectedMsg(NodeDisconnected(n)))];
        if n in data && source in data[n].knownActors {
          data := data[n := data[n].(knownActors := data[n].knownActors - {source})];
        } else if n in data {
          assert data[n].(knownActors := data[n].knownActors - {source}) == data[n];
          assert data[n := data[n]] == data;
        }
      }
    }

    method HandleNodeDisconnected(nd: NodeDisconnected)
      requires Valid()
      modifies this
      ensures Valid()
      ensures State() == OnNodeDisconnected(old(State()), nd).next
      ensures Appended(old(outbox), outbox, OnNodeDisconnected(old(State()), nd), old(listeners), NodeDisconnectedMsg(nd))
    {
      ghost var r := OnNodeDisconnected(State(), nd);
      ghost var before := outbox;
      HandlePreservesInv(State(), self, self, NodeDisconnectedMsg(nd));
      data := data - {nd.sourceNode};
      Broadcast(NodeDisconnectedMsg(nd));
      AppendedBroadcast(before, outbox, outbox, r, listeners, NodeDisconnectedMsg(nd));
    }

    /** The message loop's single step: `sender` delivered `m`. */
    method Receive(sender: ActorAddr, m: Message)
      requires Valid() && m.InNexusInterface()
      modifies this
      ensures Valid()
      ensures State() == Handle(old(State()), self, sender, m).next
      ensures Appended(old(outbox), outbox, Handle(old(State()), self, sender, m), old(listeners), m)
    {
      match m
      case NodeInfoMsg(ni, observer) => HandleNodeInfo(sender, ni, observer);
      case RamUsageMsg(ru) => HandleRamUsage(ru);
      case WorkLoadMsg(wl) => HandleWorkLoad(wl);
      case ActorPublishedMsg(p) => HandleActorPublished(p);
      case NewRouteMsg(route) => HandleNewRoute(route);
      case RouteLostMsg(lost) => HandleRouteLost(lost);
      case NewMessageMsg(trace) => HandleNewMessage(trace);
      case AddListenerMsg(req) => Add(req.listener);
      case AddTypedListenerMsg(req) => Add(req.listener);
      case DownMsg(source) => HandleDown(source);
      case NodeDisconnectedMsg(nd) => HandleNodeDisconnected(nd);
    }
  }

  // ---------------------------------------------------------------------
  // Properties of the behaviour
  // ---------------------------------------------------------------------

  /** Writing one valid node's entry without adding known actors keeps
      `Inv`, whatever else grows in the watched multiset. */
  lemma EntryWriteKeepsInv(s: Core, t: Core, n: NodeId, e: ProbeData)
    requires Inv(s) && n != InvalidNodeId
    requires e.knownActors <= Entry(s.data, n).knownActors
    requires t.data == s.data[n := e] && t.listeners == s.listeners
    requires forall p :: p in t.probes && p !in s.probes ==> p in t.watched
    requires s.watched <= t.watched
    ensures Inv(t)
  {
    forall k, a | k in t.data && a in t.data[k].knownActors ensures a in t.watched {
      assert a in s.data[k].knownActors;
    }
  }

  lemma NodeInfoKeepsInv(s: Core, self: ActorAddr, sender: ActorAddr, ni: NodeInfo, observer: ActorAddr)
    requires Inv(s)
    ensures Inv(OnNodeInfo(s, self, sender, ni, observer).next)
  {
    if ni.sourceNode != InvalidNodeId {
      var t := OnNodeInfo(s, self, sender, ni, observer).next;
      EntryWriteKeepsInv(s, t, ni.sourceNode, Entry(s.data, ni.sourceNode).(node := ni));
    }
  }

  lemma ActorPublishedKeepsInv(s: Core, p: NewActorPublished)
    requires Inv(s)
    ensures Inv(OnActorPublished(s, p).next)
  {
    if p.sourceNode != InvalidNodeId && p.publishedActor != NullAddr {
      var t := OnActorPublished(s, p).next;
      var e := Entry(s.data, p.sourceNode);
      forall k, a | k in t.data && a in t.data[k].knownActors ensures a in t.watched {
        if k == p.sourceNode && a != p.publishedActor {
          assert a in e.knownActors;
        } else if k != p.sourceNode {
          assert a in s.data[k].knownActors;
        }
      }
    }
  }

  lemma DownKeepsInv(s: Core, self: ActorAddr, source: ActorAddr)
    requires Inv(s)
    ensures Inv(OnDown(s, self, source).next)
  {
    var t := OnDown(s, self, source).next;
    if source !in s.listeners && source in s.probes {
      forall k, a | k in t.data && a in t.data[k].knownActors ensures a in t.watched {
        assert a in s.data[k].knownActors;
      }
    }
  }

  /** Every handler keeps `Inv`. */
  lemma HandlePreservesInv(s: Core, self: ActorAddr, sender: ActorAddr, m: Message)
    requires Inv(s) && m.InNexusInterface()
    ensures Inv(Handle(s, self, sender, m).next)
  {
    match m
    case NodeInfoMsg(ni, observer) => NodeInfoKeepsInv(s, self, sender, ni, observer);
    case RamUsageMsg(ru) =>
      if ru.sourceNode != InvalidNodeId {
        EntryWriteKeepsInv(s, OnRamUsage(s, ru).next, ru.sourceNode, Entry(s.data, ru.sourceNode).(ram := Some(ru)));
      }
    case WorkLoadMsg(wl) =>
      if wl.sourceNode != InvalidNodeId {
        EntryWriteKeepsInv(s, OnWorkLoad(s, wl).next, wl.sourceNode, Entry(s.data, wl.sourceNode).(load := Some(wl)));
      }
    case ActorPublishedMsg(p) => ActorPublishedKeepsInv(s, p);
    case NewRouteMsg(route) =>
      if route.sourceNode != InvalidNodeId && route.isDirect {
        var e := Entry(s.data, route.sourceNode);
        EntryWriteKeepsInv(s, OnNewRoute(s, route).next, route.sourceNode, e.(directRoutes := e.directRoutes + {route.dest}));
      }
    case RouteLostMsg(lost) =>
      if lost.sourceNode != InvalidNodeId {
        var e := Entry(s.data, lost.sourceNode);
        EntryWriteKeepsInv(s, OnRouteLost(s, lost).next, lost.sourceNode, e.(directRoutes := e.directRoutes - {lost.dest}));
      }
    case NewMessageMsg(trace) =>
    case AddListenerMsg(req) =>
    case AddTypedListenerMsg(req) =>
    case DownMsg(source) => DownKeepsInv(s, self, source);
    case NodeDisconnectedMsg(nd) =>
  }

  /** A sink event other than `node_disconnected` that names the invalid
      node leaves the whole state alone and sends nothing. */
  lemma InvalidSourceDropped(s: Core, self: ActorAddr, sender: ActorAddr, m: Message)
    requires m.IsSinkEvent() && !m.NodeDisconnectedMsg? && m.SourceNode() == InvalidNodeId
    ensures Handle(s, self, sender, m) == Ignore(s)
  {
  }

  /** `node_disconnected` is not checked: even for the invalid node it
      broadcasts. */
  lemma InvalidDisconnectStillBroadcasts(s: Core, self: ActorAddr, sender: ActorAddr)
    requires InvalidNodeId !in s.data
    ensures Handle(s, self, sender, NodeDisconnectedMsg(NodeDisconnected(InvalidNodeId))) == Reaction(s, true, [])
  {
  }

  /** Asserting the same direct route twice changes the state once and
      broadcasts once: the second assertion is dropped. */
  lemma DirectRouteIdempotent(s: Core, self: ActorAddr, sender: ActorAddr, route: NewRoute)
    requires route.isDirect
    ensures var once := Handle(s, self, sender, NewRouteMsg(route)).next;
            Handle(once, self, sender, NewRouteMsg(route)) == Ignore(once)
  {
    var once := Handle(s, self, sender, NewRouteMsg(route)).next;
    if route.sourceNode != InvalidNodeId {
      var e := once.data[route.sourceNode];
      assert e.directRoutes + {route.dest} == e.directRoutes;
      assert once.data[route.sourceNode := e] == once.data;
    }
  }

  /** `operator==` on `new_route` is not a congruence for the nexus: two
      routes it calls equal can update different entries. */
  lemma EqualRoutesDifferentEffects()
    ensures NewRouteEq(NewRoute(1, 3, true), NewRoute(2, 3, true))
    ensures OnNewRoute(Initial, NewRoute(1, 3, true)).next.data.Keys == {1}
    ensures OnNewRoute(Initial, NewRoute(2, 3, true)).next.data.Keys == {2}
  {
  }

  /** An entry can exist without any `node_info` for that node: a gauge, a
      route or a published actor arriving first creates it with a default
      `node_info`. */
  lemma EntryWithoutNodeInfo(ru: RamUsage)
    requires ru.sourceNode != InvalidNodeId
    ensures var d := OnRamUsage(Initial, ru).next.data;
            ru.sourceNode in d && d[ru.sourceNode].node == EmptyNodeInfo
  {
  }

  /** A lost listener is unsubscribed and nothing else happens. */
  lemma ListenerLoss(s: Core, self: ActorAddr, l: ActorAddr)
    requires l in s.listeners
    ensures Handle(s, self, l, DownMsg(l)) == Reaction(s.(listeners := s.listeners - {l}), false, [])
  {
  }

  /** A lost probe: exactly one `node_disconnected` for the node it
      registered is sent to the nexus itself, and handling it erases the
      entry and broadcasts. A repeated loss notice sends it again (`probes_`
      is never shrunk), and the repeated erase leaves the data as it was. */
  lemma ProbeLossCascade(s: Core, self: ActorAddr, p: ActorAddr)
    requires p !in s.listeners && p in s.probes
    ensures var r := Handle(s, self, p, DownMsg(p));
            var n := s.probes[p];
            && r.sends == [Envelope(self, NodeDisconnectedMsg(NodeDisconnected(n)))]
            && !r.broadcast
            && var r2 := Handle(r.next, self, self, r.sends[0].msg);
               && n !in r2.next.data
               && r2.broadcast
               && p in r2.next.probes
               && var r3 := Handle(r2.next, self, p, DownMsg(p));
                  && r3.sends == r.sends
                  && Handle(r3.next, self, self, r3.sends[0].msg).next == r2.next
  {
    var n := s.probes[p];
    var r := Handle(s, self, p, DownMsg(p));
    var r2 := Handle(r.next, self, self, r.sends[0].msg);
    var r3 := Handle(r2.next, self, p, DownMsg(p));
    assert r3.next == r2.next;
    assert r2.next.data - {n} == r2.next.data;
  }

  // ---------------------------------------------------------------------
  // Runs: a sequence of deliveries
  // ---------------------------------------------------------------------

  /** One delivery: `sender` delivered `msg`. */
  datatype Input = Input(sender: ActorAddr, msg: Message)

  predicate AllInInterface(inputs: seq<Input>)
  {
    forall i :: 0 <= i < |inputs| ==> inputs[i].msg.InNexusInterface()
  }

  /** The state after handling `inputs` in order. */
  function Run(s: Core, self: ActorAddr, inputs: seq<Input>): Core
    requires AllInInterface(inputs)
    decreases |inputs|
  {
    if inputs == [] then s
    else Run(Handle(s, self, inputs[0].sender, inputs[0].msg).next, self, inputs[1..])
  }

  /** The messages `l` receives from the nexus during a run, in order:
      each broadcast while it is subscribed, and every direct send to it. */
  function Delivered(s: Core, self: ActorAddr, inputs: seq<Input>, l: ActorAddr): seq<Message>
    requires AllInInterface(inputs)
    decreases |inputs|
  {
    if inputs == [] then []
    else
      var r := Handle(s, self, inputs[0].sender, inputs[0].msg);
      (if r.broadcast && l in s.listeners then [inputs[0].msg] else [])
      + ToOne(r.sends, l)
      + Delivered(r.next, self, inputs[1..], l)
  }

  /** The messages among `sends` addressed to `l`. */
  function ToOne(sends: seq<Envelope>, l: ActorAddr): seq<Message>
  {
    if sends == [] then []
    else (if sends[0].dest == l then [sends[0].msg] else []) + ToOne(sends[1..], l)
  }

  /** Any run from a state satisfying `Inv` keeps it. */
  lemma {:induction false} RunPreservesInv(s: Core, self: ActorAddr, inputs: seq<Input>)
    requires Inv(s) && AllInInterface(inputs)
    ensures Inv(Run(s, self, inputs))
    decreases |inputs|
  {
    if inputs != [] {
      HandlePreservesInv(s, self, inputs[0].sender, inputs[0].msg);
      RunPreservesInv(Handle(s, self, inputs[0].sender, inputs[0].msg).next, self, inputs[1..]);
    }
  }

  /** `Delivered` and `Run` after one more delivery at the front. */
  lemma DeliveredCons(s: Core, self: ActorAddr, i: Input, rest: seq<Input>, l: ActorAddr)
    requires i.msg.InNexusInterface() && AllInInterface(rest)
    ensures AllInInterface([i] + rest)
    ensures var r := Handle(s, self, i.sender, i.msg);
            && Delivered(s, self, [i] + rest, l)
               == (if r.broadcast && l in s.listeners then [i.msg] else []) + ToOne(r.sends, l) + Delivered(r.next, self, rest, l)
            && Run(s, self, [i] + rest) == Run(r.next, self, rest)
  {
    assert ([i] + rest)[0] == i;
    assert ([i] + rest)[1..] == rest;
  }

  /** The four steps of the disconnect scenario, one by one. */
  lemma ScenarioSteps(self: ActorAddr, l: ActorAddr, p: ActorAddr, ni: NodeInfo)
    requires ni.sourceNode != InvalidNodeId && p.Node() == ni.sourceNode
    requires l != p && l != self
    ensures var n := ni.sourceNode;
            var s1 := Core(map[], map[], {l}, multiset{l});
            var s2 := Core(map[n := EmptyProbeData.(node := ni)], map[p := n], {l}, multiset{l, p});
            var s3 := Core(map[], map[p := n], {l}, multiset{l, p});
            && Handle(Initial, self, l, AddListenerMsg(AddListener(l))) == Reaction(s1, false, [Envelope(l, SnapshotMsg(map[]))])
            && Handle(s1, self, p, NodeInfoMsg(ni, NullAddr)) == Reaction(s2, true, [])
            && Handle(s2, self, p, DownMsg(p)) == Reaction(s2, false, [Envelope(self, NodeDisconnectedMsg(NodeDisconnected(n)))])
            && Handle(s2, self, self, NodeDisconnectedMsg(NodeDisconnected(n))) == Reaction(s3, true, [])
  {
    var n := ni.sourceNode;
    var s2 := Core(map[n := EmptyProbeData.(node := ni)], map[p := n], {l}, multiset{l, p});
    assert s2.data[n].(knownActors := s2.data[n].knownActors - {p}) == s2.data[n];
    assert s2.data[n := s2.data[n]] == s2.data;
  }

  /** The scenario of the integration test: a listener subscribes, a probe
      registers its node, the probe's connection is lost and the nexus
      handles the `node_disconnected` it sent itself. The listener receives
      the empty snapshot, then `node_info`, then `node_disconnected`, and
      the node is gone. */
  lemma DisconnectScenario(self: ActorAddr, l: ActorAddr, p: ActorAddr, ni: NodeInfo)
    requires ni.sourceNode != InvalidNodeId && p.Node() == ni.sourceNode
    requires l != p && l != self
    ensures var inputs := [Input(l, AddListenerMsg(AddListener(l))),
                           Input(p, NodeInfoMsg(ni, NullAddr)),
                           Input(p, DownMsg(p)),
                           Input(self, NodeDisconnectedMsg(NodeDisconnected(ni.sourceNode)))];
            && Delivered(Initial, self, inputs, l)
               == [SnapshotMsg(map[]), NodeInfoMsg(ni, NullAddr), NodeDisconnectedMsg(NodeDisconnected(ni.sourceNode))]
            && Run(Initial, self, inputs).data == map[]
  {
    var n := ni.sourceNode;
    var i0 := Input(l, AddListenerMsg(AddListener(l)));
    var i1 := Input(p, NodeInfoMsg(ni, NullAddr));
    var i2 := Input(p, DownMsg(p));
    var i3 := Input(self, NodeDisconnectedMsg(NodeDisconnected(n)));
    var s1 := Core(map[], map[], {l}, multiset{l});
    var s2 := Core(map[n := EmptyProbeData.(node := ni)], map[p := n], {l}, multiset{l, p});
    var s3 := Core(map[], map[p := n], {l}, multiset{l, p});
    ScenarioSteps(self, l, p, ni);
    var t3: seq<Input> := [i3];
    var t2 := [i2] + t3;
    var t1 := [i1] + t2;
    var t0 := [i0] + t1;
    assert t0 == [i0, i1, i2, i3];
    DeliveredCons(s2, self, i3, [], l);
    assert [i3] + [] == t3;
    assert Delivered(s2, self, t3, l) == [i3.msg];
    DeliveredCons(s2, self, i2, t3, l);
    assert ToOne([Envelope(self, NodeDisconnectedMsg(NodeDisconnected(n)))], l) == [];
    assert Delivered(s2, self, t2, l) == [i3.msg];
    DeliveredCons(s1, self, i1, t2, l);
    assert Delivered(s1, self, t1, l) == [i1.msg, i3.msg];
    DeliveredCons(Initial, self, i0, t1, l);
    assert ToOne([Envelope(l, SnapshotMsg(map[]))], l) == [SnapshotMsg(map[])];
  }
}
