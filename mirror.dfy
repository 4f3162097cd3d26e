/** How far a subscribed proxy (src/nexus_proxy.cpp) mirrors the nexus
    (src/nexus.cpp). The proxy sees only what the nexus sends it: the
    snapshot when it subscribes, then every broadcast. Two effects of the
    nexus are never broadcast: creating an empty entry on a `route_lost` for
    an unknown route, and dropping a lost probe from `known_actors`. So the
    proxy's map agrees with the nexus's entry by entry up to the fields
    `probe_data::operator==` ignores, and may lack entries the nexus has. */
module Mirror {
  import opened Wrappers
  import opened MessageTypes
  import opened Collections
  import opened Nexus
  import opened NexusProxy

  /** The proxy's map `p` agrees with the nexus's map `d` on every node, as
      `probe_data::operator==` compares, reading an absent entry as the
      default one; and it has no entry the nexus lacks. */
  ghost predicate Mirrors(p: ProbeDataMap, d: ProbeDataMap)
  {
    && p.Keys <= d.Keys
    && forall k :: ProbeDataEq(Entry(p, k), Entry(d, k))
  }

  /** The proxy's map after handling `msgs` in order. */
  function ApplyAll(p: ProbeDataMap, msgs: seq<Message>): ProbeDataMap
    decreases |msgs|
  {
    if msgs == [] then p else ApplyAll(Apply(p, msgs[0]), msgs[1..])
  }

  lemma {:induction false} ApplyAllConcat(p: ProbeDataMap, a: seq<Message>, b: seq<Message>)
    ensures ApplyAll(p, a + b) == ApplyAll(ApplyAll(p, a), b)
    decreases |a|
  {
    if a == [] {
      assert a + b == b;
    } else {
      assert (a + b)[0] == a[0];
      assert (a + b)[1..] == a[1..] + b;
      ApplyAllConcat(Apply(p, a[0]), a[1..], b);
      assert ApplyAll(p, a + b) == ApplyAll(Apply(p, a[0]), a[1..] + b);
      assert ApplyAll(p, a) == ApplyAll(Apply(p, a[0]), a[1..]);
    }
  }

  /** Acknowledgements leave the proxy's map alone. */
  lemma {:induction false} ApplyAllAcks(p: ProbeDataMap, msgs: seq<Message>)
    requires forall i :: 0 <= i < |msgs| ==> msgs[i].OkMsg?
    ensures ApplyAll(p, msgs) == p
    decreases |msgs|
  {
    if msgs != [] {
      ApplyAllAcks(p, msgs[1..]);
    }
  }

  /** What the nexus sends to `proxy` directly, when the proxy is already
      subscribed and is not the nexus itself, is at most an `ok`. */
  lemma {:induction false} DirectSendsAreAcks(sends: seq<Envelope>, proxy: ActorAddr)
    requires forall i :: 0 <= i < |sends| ==> sends[i].dest != proxy || sends[i].msg.OkMsg?
    ensures forall i :: 0 <= i < |ToOne(sends, proxy)| ==> ToOne(sends, proxy)[i].OkMsg?
    decreases |sends|
  {
    if sends != [] {
      DirectSendsAreAcks(sends[1..], proxy);
    }
  }

  /** Writing related entries at the same node keeps the maps related. */
  lemma WriteBoth(p: ProbeDataMap, d: ProbeDataMap, n: NodeId, ep: ProbeData, ed: ProbeData)
    requires Mirrors(p, d) && ProbeDataEq(ep, ed)
    ensures Mirrors(p[n := ep], d[n := ed])
  {
    var p', d' := p[n := ep], d[n := ed];
    forall k ensures ProbeDataEq(Entry(p', k), Entry(d', k)) {
      assert ProbeDataEq(Entry(p, k), Entry(d, k));
    }
  }

  /** The nexus rewriting an entry to a value `operator==` cannot tell from
      the old one, without the proxy hearing of it, keeps the maps related. */
  lemma NexusOnly(p: ProbeDataMap, d: ProbeDataMap, n: NodeId, ed: ProbeData)
    requires Mirrors(p, d) && ProbeDataEq(Entry(d, n), ed)
    ensures Mirrors(p, d[n := ed])
  {
    forall k ensures ProbeDataEq(Entry(p, k), Entry(d[n := ed], k)) {
      assert ProbeDataEq(Entry(p, k), Entry(d, k));
    }
  }

  /** The broadcast messages, as the subscribed proxy applies them. */
  lemma EventStep(p: ProbeDataMap, s: Core, self: ActorAddr, sender: ActorAddr, m: Message)
    requires m.IsSinkEvent() && Mirrors(p, s.data)
    ensures var r := Handle(s, self, sender, m);
            Mirrors(if r.broadcast then Apply(p, m) else p, r.next.data)
  {
    var r := Handle(s, self, sender, m);
    if m.SourceNode() != InvalidNodeId || m.NodeDisconnectedMsg? {
      var n := m.SourceNode();
      var ep := Entry(p, n);
      var ed := Entry(s.data, n);
      assert ProbeDataEq(ep, ed);
      match m
      case NodeInfoMsg(ni, _) => WriteBoth(p, s.data, n, ep.(node := ni), ed.(node := ni));
      case RamUsageMsg(ru) => WriteBoth(p, s.data, n, ep.(ram := Some(ru)), ed.(ram := Some(ru)));
      case WorkLoadMsg(wl) => WriteBoth(p, s.data, n, ep.(load := Some(wl)), ed.(load := Some(wl)));
      case NewRouteMsg(route) =>
        if route.isDirect {
          var ep' := ep.(directRoutes := ep.directRoutes + {route.dest});
          var ed' := ed.(directRoutes := ed.directRoutes + {route.dest});
          if r.broadcast {
            WriteBoth(p, s.data, n, ep', ed');
          } else {
            assert ed' == ed;
            assert n in s.data;
            assert s.data[n := ed'] == s.data;
          }
        }
      case RouteLostMsg(lost) =>
        var ep' := ep.(directRoutes := ep.directRoutes - {lost.dest});
        var ed' := ed.(directRoutes := ed.directRoutes - {lost.dest});
        if r.broadcast {
          WriteBoth(p, s.data, n, ep', ed');
        } else {
          assert ed' == ed;
          NexusOnly(p, s.data, n, ed');
        }
      case NewMessageMsg(_) =>
      case ActorPublishedMsg(pub) =>
        if pub.publishedActor != NullAddr {
          var a := pub.publishedActor;
          WriteBoth(p, s.data, n,
                    ep.(knownActors := ep.knownActors + {a}, publishedActors := ep.publishedActors + {(a, pub.port)}),
                    ed.(knownActors := ed.knownActors + {a}, publishedActors := ed.publishedActors + {(a, pub.port)}));
        }
      case NodeDisconnectedMsg(nd) =>
        var p' := Apply(p, m);
        var d' := r.next.data;
        forall k ensures ProbeDataEq(Entry(p', k), Entry(d', k)) {
          assert ProbeDataEq(Entry(p, k), Entry(s.data, k));
        }
    }
  }

  /** One step of the nexus, with the proxy subscribed: the proxy stays
      subscribed and its map stays related to the nexus's, unless the
      message is the loss of the proxy itself. */
  lemma MirrorStep(p: ProbeDataMap, s: Core, self: ActorAddr, sender: ActorAddr, m: Message, proxy: ActorAddr)
    requires proxy in s.listeners && proxy != self
    requires m.InNexusInterface() && m != DownMsg(proxy)
    requires Mirrors(p, s.data)
    ensures var r := Handle(s, self, sender, m);
            && proxy in r.next.listeners
            && Mirrors(ApplyAll(p, (if r.broadcast then [m] else []) + ToOne(r.sends, proxy)), r.next.data)
  {
    var r := Handle(s, self, sender, m);
    var b := if r.broadcast then [m] else [];
    DirectSendsAreAcks(r.sends, proxy);
    ApplyAllConcat(p, b, ToOne(r.sends, proxy));
    ApplyAllAcks(ApplyAll(p, b), ToOne(r.sends, proxy));
    assert ApplyAll(p, b) == if r.broadcast then Apply(p, m) else p;
    if m.IsSinkEvent() {
      EventStep(p, s, self, sender, m);
    } else if m.DownMsg? {
      var source := m.source;
      if source !in s.listeners && source in s.probes {
        var n := s.probes[source];
        if n in s.data {
          NexusOnly(p, s.data, n, s.data[n].(knownActors := s.data[n].knownActors - {source}));
        }
      }
    }
  }

  /** A subscribed proxy that is never lost follows the nexus through any
      run: its map, after applying what the nexus delivered to it, stays
      related to the nexus's map. */
  lemma {:induction false} ReplayMirrors(p: ProbeDataMap, s: Core, self: ActorAddr, proxy: ActorAddr, inputs: seq<Input>)
    requires proxy in s.listeners && proxy != self
    requires AllInInterface(inputs)
    requires forall i :: 0 <= i < |inputs| ==> inputs[i].msg != DownMsg(proxy)
    requires Mirrors(p, s.data)
    ensures Mirrors(ApplyAll(p, Delivered(s, self, inputs, proxy)), Run(s, self, inputs).data)
    decreases |inputs|
  {
    if inputs != [] {
      var m := inputs[0].msg;
      var r := Handle(s, self, inputs[0].sender, m);
      var now := (if r.broadcast && proxy in s.listeners then [m] else []) + ToOne(r.sends, proxy);
      MirrorStep(p, s, self, inputs[0].sender, m, proxy);
      ApplyAllConcat(p, now, Delivered(r.next, self, inputs[1..], proxy));
      ReplayMirrors(ApplyAll(p, now), r.next, self, proxy, inputs[1..]);
    }
  }

  /** A proxy that subscribes, whatever it held before, receives the
      snapshot and from then on follows the nexus. */
  lemma SubscribedProxyMirrors(p: ProbeDataMap, s: Core, self: ActorAddr, proxy: ActorAddr, inputs: seq<Input>)
    requires proxy !in s.listeners && proxy != self
    requires AllInInterface(inputs) && inputs != [] && inputs[0].msg == AddListenerMsg(AddListener(proxy))
    requires forall i :: 0 < i < |inputs| ==> inputs[i].msg != DownMsg(proxy)
    ensures Mirrors(ApplyAll(p, Delivered(s, self, inputs, proxy)), Run(s, self, inputs).data)
  {
    var r := Handle(s, self, inputs[0].sender, inputs[0].msg);
    assert ToOne(r.sends, proxy) == [SnapshotMsg(s.data)];
    var now := ([] + ToOne(r.sends, proxy));
    assert ApplyAll(p, now) == s.data;
    ApplyAllConcat(p, now, Delivered(r.next, self, inputs[1..], proxy));
    forall k ensures ProbeDataEq(Entry(s.data, k), Entry(s.data, k)) {
    }
    ReplayMirrors(s.data, r.next, self, proxy, inputs[1..]);
  }

  /** Related maps give the same answers to `list_peers`, `get_sys_load`
      and `get_ram_usage` for every node, and the same `node_info` for
      every node the proxy knows. */
  lemma MirroredQueriesAgree(p: ProbeDataMap, d: ProbeDataMap, n: NodeId)
    requires Mirrors(p, d)
    ensures ListPeers(p, n) == ListPeers(d, n)
    ensures GetSysLoad(p, n) == GetSysLoad(d, n)
    ensures GetRamUsage(p, n) == GetRamUsage(d, n)
    ensures n in p ==> GetNode(p, n) == GetNode(d, n)
  {
    assert ProbeDataEq(Entry(p, n), Entry(d, n));
    if n !in p && n in d {
      assert d[n].directRoutes == {};
      assert |Sorted(d[n].directRoutes)| == 0;
    }
  }

  /** On an event that passes the nexus's source check, the proxy's update
      and the nexus's handler write the same map, actor sets included. */
  lemma ApplyAgreesWithNexus(s: Core, self: ActorAddr, sender: ActorAddr, m: Message)
    requires m.IsSinkEvent() && m.SourceNode() != InvalidNodeId
    ensures Apply(s.data, m) == Handle(s, self, sender, m).next.data
  {
  }

  /** `list_actors`/`get_actor` on the proxy keep the maps related entry by
      entry, but may give the proxy an entry the nexus lacks. */
  lemma TouchKeepsEntries(p: ProbeDataMap, d: ProbeDataMap, n: NodeId)
    requires Mirrors(p, d)
    ensures forall k :: ProbeDataEq(Entry(Touch(p, n), k), Entry(d, k))
    ensures n !in d ==> !Mirrors(Touch(p, n), d)
  {
    forall k ensures ProbeDataEq(Entry(Touch(p, n), k), Entry(d, k)) {
      assert ProbeDataEq(Entry(p, k), Entry(d, k));
    }
  }

  /** The mirror is not exact: a `route_lost` for a route that never
      existed creates an entry at the nexus that is never broadcast, so the
      nexus lists a node a subscribed proxy does not. */
  lemma RouteLostKeyGap(self: ActorAddr, proxy: ActorAddr, sender: ActorAddr)
    requires proxy != self
    ensures var s := Initial.(listeners := {proxy});
            var r := Handle(s, self, sender, RouteLostMsg(RouteLost(1, 2)));
            && !r.broadcast && ToOne(r.sends, proxy) == []
            && ListNodes(r.next.data) == [1] && ListNodes(map[]) == []
  {
    var s := Initial.(listeners := {proxy});
    var r := Handle(s, self, sender, RouteLostMsg(RouteLost(1, 2)));
    var ns := ListNodes(r.next.data);
    assert r.next.data.Keys == {1};
    EnumerationLength(ns, r.next.data.Keys);
    assert ns[0] == 1;
  }

  /** The mirror is not exact: after a probe is lost the nexus forgets the
      probe's handle among the node's known actors without telling anyone,
      so the proxy still lists it. */
  lemma LostProbeStaysKnown(self: ActorAddr, proxy: ActorAddr, probe: ActorAddr, n: NodeId)
    requires proxy != self && proxy != probe && probe != NullAddr && n != InvalidNodeId
    ensures var e := EmptyProbeData.(knownActors := {probe});
            var s := Core(map[n := e], map[probe := n], {proxy}, multiset{proxy, probe});
            var r := Handle(s, self, proxy, DownMsg(probe));
            && !r.broadcast && ToOne(r.sends, proxy) == []
            && probe !in r.next.data[n].knownActors
            && Mirrors(map[n := e], r.next.data)
  {
    var e := EmptyProbeData.(knownActors := {probe});
    var s := Core(map[n := e], map[probe := n], {proxy}, multiset{proxy, probe});
    MirrorStep(map[n := e], s, self, proxy, DownMsg(probe), proxy);
  }
}
