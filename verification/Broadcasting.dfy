/** Broadcast packets: although every node fans out to all its first hops, a
    listener gets exactly one copy or none, and exactly when. */
module Broadcasting {
  import opened Routing
  import opened Routes
  import opened Paths
  import opened Spf
  import opened SpfTheorems
  import opened Forwarding
  import opened PacketNet
  import opened Trails
  import opened Agreement
  import opened Delivery

  type Hosts = map<NodeId, set<Listener>>

  /** Every node knows its own listeners and all hosts it can reach. */
  ghost predicate Announced(sites: map<NodeId, Site>, e: EndpointId, hosts: Hosts) {
    && hosts.Keys <= sites.Keys
    && forall x {:trigger AnnouncedAt(sites, e, hosts, x)} :: x in sites ==> AnnouncedAt(sites, e, hosts, x)
  }

  ghost predicate AnnouncedAt(sites: map<NodeId, Site>, e: EndpointId, hosts: Hosts, x: NodeId)
    requires x in sites
  {
    if e in sites[x].routes then
      var entry := sites[x].routes[e];
      && entry.kind == Broadcast
      && DistinctListeners(LocalHops(entry.routes))
      && (forall l :: (exists r :: r in entry.routes && r.via == ToListener(l)) <==> x in hosts && l in hosts[x])
      && (forall r :: r in entry.routes && r.via.ToNode? ==> r.via.node != x && r.via.node in hosts)
      && (forall o :: o in hosts && o != x && Dist(sites, x, o) < MAX_COST ==>
        exists r :: r in entry.routes && r.via == ToNode(o))
    else
      forall o :: o in hosts ==> o != x && Dist(sites, x, o) == MAX_COST
  }

  function HopsAt(net: Net, x: NodeId, e: EndpointId): seq<Hop>
    requires x in net.fibs
  {
    if e in net.fibs[x].table then Hops(net.fibs[x].table[e]) else []
  }

  /** A link by which a node reaches some host. */
  ghost predicate TowardsHost(sites: map<NodeId, Site>, hosts: Hosts, x: NodeId, link: Link) {
    exists o :: o in hosts && o != x && x in sites && o in sites[x].tree.nextHop && sites[x].tree.nextHop[o] == link
  }

  /** A node's hops are its own listeners and its next hops towards all reachable hosts. */
  lemma HopsAreComplete(g: Graph, sites: map<NodeId, Site>, net: Net, e: EndpointId, hosts: Hosts, x: NodeId)
    requires Consistent(g, sites, net) && Announced(sites, e, hosts) && x in sites
    ensures x in net.fibs
    ensures forall l :: Local(l) in HopsAt(net, x, e) <==> x in hosts && l in hosts[x]
    ensures forall o :: o in hosts && o != x && o in sites[x].tree.nextHop ==>
              Hop.Remote(sites[x].tree.nextHop[o]) in HopsAt(net, x, e)
    ensures forall link :: Hop.Remote(link) in HopsAt(net, x, e) ==> TowardsHost(sites, hosts, x, link)
    ensures DistinctListeners(HopsAt(net, x, e))
  {
    assert AnnouncedAt(sites, e, hosts, x);
    SiteFib(g, sites, net, x);
    if e in sites[x].routes {
      BroadcastHopsOf(g, sites, net, e, x);
      forall o | o in hosts && o != x && o in sites[x].tree.nextHop
        ensures Hop.Remote(sites[x].tree.nextHop[o]) in HopsAt(net, x, e)
      {
        NoNextHopToSelf(g, sites, net, x, o);
        var r :| r in sites[x].routes[e].routes && r.via == ToNode(o);
      }
      forall link | Hop.Remote(link) in HopsAt(net, x, e) ensures TowardsHost(sites, hosts, x, link) {
        var r :| r in sites[x].routes[e].routes && r.via.ToNode? && r.via.node in sites[x].tree.nextHop &&
                 sites[x].tree.nextHop[r.via.node] == link;
      }
    } else {
      forall o | o in hosts && o in sites[x].tree.nextHop ensures false {
        NoNextHopToSelf(g, sites, net, x, o);
      }
    }
  }

  lemma BroadcastHopsOf(g: Graph, sites: map<NodeId, Site>, net: Net, e: EndpointId, x: NodeId)
    requires Consistent(g, sites, net) && x in sites && e in sites[x].routes && sites[x].routes[e].kind == Broadcast
    ensures x in net.fibs
    ensures var routes := sites[x].routes[e].routes; var hops := HopsAt(net, x, e);
            && (forall l :: Local(l) in hops <==> exists r :: r in routes && r.via == ToListener(l))
            && (forall r :: r in routes && r.via.ToNode? && r.via.node in sites[x].tree.nextHop ==>
                  Hop.Remote(sites[x].tree.nextHop[r.via.node]) in hops)
            && (forall link :: Hop.Remote(link) in hops ==>
                  exists r :: r in routes && r.via.ToNode? && r.via.node in sites[x].tree.nextHop &&
                              sites[x].tree.nextHop[r.via.node] == link)
            && (DistinctListeners(LocalHops(routes)) ==> DistinctListeners(hops))
  {
    SiteEntry(g, sites, net, x, e);
    var s, hops := sites[x], HopsAt(net, x, e);
    var routes := s.routes[e].routes;
    assert BroadcastHops(s.tree, routes, hops);
    assert SiteOk(g, sites, net, x);
    BroadcastEntryExact(s.graph, x, s.links, s.tree, routes, hops);
    forall r | r in routes && r.via.ToNode? && r.via.node in s.tree.nextHop
      ensures Hop.Remote(s.tree.nextHop[r.via.node]) in hops
    {
      var link := s.tree.nextHop[r.via.node];
      TreeIsSound(s.graph, x, s.links, s.tree, r.via.node);
      assert link.peerId in FirstHops(s.tree, routes);
    }
    forall link | Hop.Remote(link) in hops
      ensures exists r ::
                r in routes && r.via.ToNode? && r.via.node in s.tree.nextHop && s.tree.nextHop[r.via.node] == link
    {
      var r :| r in routes && r.via.ToNode? && r.via.node in s.tree.nextHop &&
               s.tree.nextHop[r.via.node].peerId == link.peerId;
      TreeIsSound(s.graph, x, s.links, s.tree, r.via.node);
    }
    if DistinctListeners(LocalHops(routes)) {
      ListenersStayDistinct(s.tree, routes, hops);
    }
  }

  lemma {:induction false} RemoteHopsOnly(t: Tree, peers: seq<NodeId>)
    ensures forall i :: 0 <= i < |RemoteHops(t, peers)| ==> RemoteHops(t, peers)[i].Remote?
  {
    if peers != [] {
      RemoteHopsOnly(t, peers[1..]);
    }
  }

  lemma ListenersStayDistinct(t: Tree, routes: seq<Route>, hops: seq<Hop>)
    requires BroadcastHops(t, routes, hops) && DistinctListeners(LocalHops(routes))
    ensures DistinctListeners(hops)
  {
    var peers :| Distinct(peers) && Elements(peers) == FirstHops(t, routes) &&
                 hops == LocalHops(routes) + RemoteHops(t, peers);
    RemoteHopsOnly(t, peers);
  }

  // ------------------------------------------------------- who gets a broadcast

  /** x goes back to the sender by y, and y reaches some host by x without going back. */
  ghost predicate Relays(sites: map<NodeId, Site>, hosts: Hosts, from: NodeId, y: NodeId, x: NodeId) {
    && y in sites && x in sites
    && from in sites[x].tree.nextHop && sites[x].tree.nextHop[from].peerId == y
    && (exists o :: o in hosts && o != y && o in sites[y].tree.nextHop && sites[y].tree.nextHop[o].peerId == x)
    && (y != from ==> !(from in sites[y].tree.nextHop && sites[y].tree.nextHop[from].peerId == x))
  }

  ghost predicate RelayPath(sites: map<NodeId, Site>, hosts: Hosts, from: NodeId, path: seq<NodeId>) {
    && path != [] && path[0] == from
    && forall i: nat {:trigger RelaysAt(sites, hosts, from, path, i)} :: RelaysAt(sites, hosts, from, path, i)
  }

  ghost predicate RelaysAt(sites: map<NodeId, Site>, hosts: Hosts, from: NodeId, path: seq<NodeId>, i: nat) {
    i + 1 < |path| ==> Relays(sites, hosts, from, path[i], path[i + 1])
  }

  /** The sender's packet is relayed all the way to x. */
  ghost predicate RelayedTo(sites: map<NodeId, Site>, hosts: Hosts, from: NodeId, x: NodeId) {
    exists path :: RelayPath(sites, hosts, from, path) && path[|path| - 1] == x
  }

  /** What a node that has the packet does with its hops. */
  lemma OutHopsAre(net: Net, e: EndpointId, from: NodeId, y: NodeId)
    requires y in net.fibs && net.fibs[y].ourId == y
    ensures forall h :: h in OutHops(net, Address.Endpoint(e), from, y) <==>
              h in HopsAt(net, y, e) && (h.Remote? && y != from ==> !OnBackPath(net.fibs[y], from, h.link))
  {
    LocalsOnly(HopsAt(net, y, e));
    OnwardOnly(net.fibs[y], from, HopsAt(net, y, e));
  }

  lemma RelaysIffHands(g: Graph, sites: map<NodeId, Site>, net: Net, e: EndpointId, hosts: Hosts, from: NodeId,
                       y: NodeId, x: NodeId)
    requires Consistent(g, sites, net) && Announced(sites, e, hosts) && y in sites && x in sites
    ensures Hands(net, Address.Endpoint(e), from, y, x) <==> Relays(sites, hosts, from, y, x)
  {
    ConsistentIsPlaced(g, sites, net);
    SiteFib(g, sites, net, y);
    SiteFib(g, sites, net, x);
    HopsAreComplete(g, sites, net, e, hosts, y);
    OutHopsAre(net, e, from, y);
    SentOverWire(net, y, OutHops(net, Address.Endpoint(e), from, y));
    if Hands(net, Address.Endpoint(e), from, y, x) {
      HandsRelays(sites, net, e, hosts, from, y, x);
    } else if Relays(sites, hosts, from, y, x) {
      RelaysHands(sites, net, e, hosts, from, y, x);
    }
  }

  lemma HandsRelays(sites: map<NodeId, Site>, net: Net, e: EndpointId, hosts: Hosts, from: NodeId, y: NodeId, x: NodeId)
    requires Placed(sites, net) && y in sites && x in sites && x in net.fibs && y in net.fibs
    requires x != from && from in net.fibs[x].nextHop
    requires SentVia(net, y, OutHops(net, Address.Endpoint(e), from, y), BackEnd(net, from, x))
    requires forall h :: h in OutHops(net, Address.Endpoint(e), from, y) && h.Remote? ==>
               TowardsHost(sites, hosts, y, h.link) && (y != from ==> !OnBackPath(net.fibs[y], from, h.link))
    ensures Relays(sites, hosts, from, y, x)
  {
    var h :| h in OutHops(net, Address.Endpoint(e), from, y) && h.Remote? && End(y, h.link.connectionId) in net.wires &&
             net.wires[End(y, h.link.connectionId)] == BackEnd(net, from, x);
    assert PlacedAt(sites, net, y) && PlacedAt(sites, net, x);
    WireIsWayBack(sites, net, from, y, h.link);
  }

  lemma RelaysHands(sites: map<NodeId, Site>, net: Net, e: EndpointId, hosts: Hosts, from: NodeId, y: NodeId, x: NodeId)
    requires Placed(sites, net) && Relays(sites, hosts, from, y, x) && x in net.fibs && y in net.fibs
    requires forall o | o in hosts && o != y && o in sites[y].tree.nextHop ::
               y == from || !OnBackPath(net.fibs[y], from, sites[y].tree.nextHop[o]) ==>
                 Hop.Remote(sites[y].tree.nextHop[o]) in OutHops(net, Address.Endpoint(e), from, y)
    ensures x != from && from in net.fibs[x].nextHop
    ensures SentVia(net, y, OutHops(net, Address.Endpoint(e), from, y), BackEnd(net, from, x))
  {
    var o :| o in hosts && o != y && o in sites[y].tree.nextHop && sites[y].tree.nextHop[o].peerId == x;
    var link := sites[y].tree.nextHop[o];
    assert PlacedAt(sites, net, y) && PlacedAt(sites, net, x);
    WireIsWayBack(sites, net, from, y, link);
    assert Hop.Remote(link) in OutHops(net, Address.Endpoint(e), from, y);
  }

  lemma TrailsAreRelays(g: Graph, sites: map<NodeId, Site>, net: Net, e: EndpointId, hosts: Hosts, from: NodeId,
                        x: NodeId)
    requires Consistent(g, sites, net) && Announced(sites, e, hosts) && from in sites
    ensures Trailed(net, Address.Endpoint(e), from, x) <==> RelayedTo(sites, hosts, from, x)
  {
    forall y, z ensures Hands(net, Address.Endpoint(e), from, y, z) <==> Relays(sites, hosts, from, y, z) {
      if y in sites && z in sites {
        RelaysIffHands(g, sites, net, e, hosts, from, y, z);
      }
    }
    if path :| Trail(net, Address.Endpoint(e), from, path) && path[|path| - 1] == x {
      forall i: nat ensures RelaysAt(sites, hosts, from, path, i) {
        assert HandsAt(net, Address.Endpoint(e), from, path, i);
      }
      assert RelayPath(sites, hosts, from, path);
    }
    if path :| RelayPath(sites, hosts, from, path) && path[|path| - 1] == x {
      forall i: nat ensures HandsAt(net, Address.Endpoint(e), from, path, i) {
        assert RelaysAt(sites, hosts, from, path, i);
      }
      assert Trail(net, Address.Endpoint(e), from, path);
    }
  }

  /** Ties or not: when a broadcast has died down, a listener has exactly one copy
      if the packet is relayed to its node, and none otherwise. */
  lemma BroadcastExactly(g: Graph, sites: map<NodeId, Site>, net: Net, e: EndpointId, hosts: Hosts, from: NodeId,
                         run: seq<State>, k: nat, o: NodeId, l: Listener)
    requires Consistent(g, sites, net) && Announced(sites, e, hosts) && from in sites
    requires LosslessRun(net, Address.Endpoint(e), from, run) && k < |run| && run[k].inflight == multiset{}
    ensures o in run[k].accepted <==> o != from && RelayedTo(sites, hosts, from, o)
    ensures run[k].delivered[Receipt(o, l)] ==
            if o in hosts && l in hosts[o] && RelayedTo(sites, hosts, from, o) then 1 else 0
  {
    ConsistentNetOk(g, sites, net);
    TrailsAreRelays(g, sites, net, e, hosts, from, o);
    DeliveredExactly(net, Address.Endpoint(e), from, run, k, o, l);
    if o in sites {
      OwedOnce(g, sites, net, e, hosts, from, o, l);
    }
  }

  lemma OwedOnce(g: Graph, sites: map<NodeId, Site>, net: Net, e: EndpointId, hosts: Hosts, from: NodeId, o: NodeId,
                 l: Listener)
    requires Consistent(g, sites, net) && Announced(sites, e, hosts) && o in sites
    ensures Owed(net, Address.Endpoint(e), from, Receipt(o, l)) == if o in hosts && l in hosts[o] then 1 else 0
  {
    SiteFib(g, sites, net, o);
    HopsAreComplete(g, sites, net, e, hosts, o);
    OutHopsAre(net, e, from, o);
    OutListeners(net, e, from, o);
    ReceiptsOnce(o, OutHops(net, Address.Endpoint(e), from, o));
  }

  lemma OutListeners(net: Net, e: EndpointId, from: NodeId, o: NodeId)
    requires o in net.fibs && net.fibs[o].ourId == o && DistinctListeners(HopsAt(net, o, e))
    ensures DistinctListeners(OutHops(net, Address.Endpoint(e), from, o))
  {
    if o != from && e in net.fibs[o].table {
      LocalsThenOnward(net.fibs[o], from, HopsAt(net, o, e));
    }
  }

  /** A registered listener on a node the sender can reach. */
  ghost predicate Expects(sites: map<NodeId, Site>, hosts: Hosts, from: NodeId, o: NodeId, l: Listener) {
    from in sites && o in hosts && l in hosts[o] && Dist(sites, from, o) < MAX_COST
  }

  /** o lies beyond x on a shortest path from the sender. */
  ghost predicate Beyond(sites: map<NodeId, Site>, from: NodeId, x: NodeId, o: NodeId) {
    && from in sites && x in sites && o != x
    && Dist(sites, from, x) + Dist(sites, x, o) == Dist(sites, from, o) < MAX_COST
  }

  /** The link towards a host beyond x is a hop, off the back path, and leads to
      the one end at which the neighbour accepts. */
  lemma HopServes(g: Graph, sites: map<NodeId, Site>, net: Net, e: EndpointId, hosts: Hosts, from: NodeId, x: NodeId,
                  o: NodeId)
    requires Agreed(g, sites, net) && Announced(sites, e, hosts) && o in hosts && Beyond(sites, from, x, o)
    ensures x in net.fibs && o in sites[x].tree.nextHop
    ensures var link := sites[x].tree.nextHop[o]; var v := link.peerId;
            && Hop.Remote(link) in HopsAt(net, x, e) && !OnBackPath(net.fibs[x], from, link)
            && v in sites && v in net.fibs && v != from && from in net.fibs[v].nextHop
            && End(x, link.connectionId) in net.wires && net.wires[End(x, link.connectionId)] == BackEnd(net, from, v)
            && (v == o || Beyond(sites, from, v, o)) && Dist(sites, v, o) < Dist(sites, x, o)
  {
    var w := NextHopIsTight(g, sites, net, x, o);
    HopsAreComplete(g, sites, net, e, hosts, x);
    SiteFib(g, sites, net, x);
    var link := sites[x].tree.nextHop[o];
    var v := link.peerId;
    EdgeDist(g, sites, net, x, v, w);
    Triangle(g, sites, net, from, v, o);
    Triangle(g, sites, net, from, x, v);
    ReversePathHolds(g, sites, net, from, x, link, w);
    OffBackPath(g, sites, net, from, x, v, w);
  }

  lemma OffBackPath(g: Graph, sites: map<NodeId, Site>, net: Net, from: NodeId, x: NodeId, v: NodeId, w: Cost)
    requires Agreed(g, sites, net) && from in sites && x in sites && v in sites
    requires w > 0 && Dist(sites, from, v) == Dist(sites, from, x) + w
    ensures from in sites[x].tree.nextHop ==> sites[x].tree.nextHop[from].peerId != v
  {
    if from in sites[x].tree.nextHop {
      NoNextHopToSelf(g, sites, net, x, from);
      var w' := NextHopIsTight(g, sites, net, x, from);
      DistSymmetric(g, sites, net, from, x);
      DistSymmetric(g, sites, net, from, v);
    }
  }

  /** In an agreed network whatever lies beyond a node the packet reaches is reached. */
  lemma {:induction false} HostReached(g: Graph, sites: map<NodeId, Site>, net: Net, e: EndpointId, hosts: Hosts,
                                       from: NodeId, x: NodeId, o: NodeId)
    requires Agreed(g, sites, net) && Announced(sites, e, hosts) && o in hosts
    requires Trailed(net, Address.Endpoint(e), from, x) && (x == o || Beyond(sites, from, x, o))
    ensures Trailed(net, Address.Endpoint(e), from, o)
    decreases if x in sites then Dist(sites, x, o) else 0
  {
    if x != o {
      HopServes(g, sites, net, e, hosts, from, x, o);
      var v := sites[x].tree.nextHop[o].peerId;
      SiteFib(g, sites, net, x);
      OutHopsAre(net, e, from, x);
      SentOverWire(net, x, OutHops(net, Address.Endpoint(e), from, x));
      assert Hop.Remote(sites[x].tree.nextHop[o]) in OutHops(net, Address.Endpoint(e), from, x);
      TrailedOn(net, Address.Endpoint(e), from, x, v);
      HostReached(g, sites, net, e, hosts, from, v, o);
    }
  }

  /** Where shortest paths are unique every registered listener on every node the
      sender can reach has exactly one copy, and no one else has any. */
  lemma BroadcastExactlyOnce(g: Graph, sites: map<NodeId, Site>, net: Net, e: EndpointId, hosts: Hosts, from: NodeId,
                             run: seq<State>, k: nat, o: NodeId, l: Listener)
    requires Agreed(g, sites, net) && Announced(sites, e, hosts) && from in sites
    requires LosslessRun(net, Address.Endpoint(e), from, run) && k < |run| && run[k].inflight == multiset{}
    ensures run[k].delivered[Receipt(o, l)] == if Expects(sites, hosts, from, o, l) then 1 else 0
  {
    BroadcastExactly(g, sites, net, e, hosts, from, run, k, o, l);
    TrailsAreRelays(g, sites, net, e, hosts, from, o);
    if Expects(sites, hosts, from, o, l) {
      DistSelf(g, sites, net, from);
      SenderTrailed(net, Address.Endpoint(e), from);
      HostReached(g, sites, net, e, hosts, from, from, o);
    } else if o in hosts && l in hosts[o] && RelayedTo(sites, hosts, from, o) {
      RelayedIsReachable(g, sites, net, hosts, from, o);
    }
  }

  lemma RelayedIsReachable(g: Graph, sites: map<NodeId, Site>, net: Net, hosts: Hosts, from: NodeId, o: NodeId)
    requires Agreed(g, sites, net) && from in sites && RelayedTo(sites, hosts, from, o)
    ensures o in sites && Dist(sites, from, o) < MAX_COST
  {
    var path :| RelayPath(sites, hosts, from, path) && path[|path| - 1] == o;
    DistSelf(g, sites, net, from);
    if |path| > 1 {
      assert RelaysAt(sites, hosts, from, path, |path| - 2);
      NoNextHopToSelf(g, sites, net, o, from);
      DistSymmetric(g, sites, net, from, o);
    }
  }

  /** At every moment of every run, with whatever losses, a listener has had at most one copy. */
  lemma BroadcastAtMostOnce(g: Graph, sites: map<NodeId, Site>, net: Net, e: EndpointId, hosts: Hosts, from: NodeId,
                            run: seq<State>, k: nat)
    requires Consistent(g, sites, net) && Announced(sites, e, hosts)
    requires Run(net, Address.Endpoint(e), from, run) && k < |run|
    ensures DeliveredOnce(from, run[k])
  {
    ConsistentNetOk(g, sites, net);
    ListenersAreOk(g, sites, net, e, hosts);
    DeliveredAtMostOnce(net, Address.Endpoint(e), from, run, k);
  }

  lemma ListenersAreOk(g: Graph, sites: map<NodeId, Site>, net: Net, e: EndpointId, hosts: Hosts)
    requires Consistent(g, sites, net) && Announced(sites, e, hosts)
    ensures ListenersOk(net, Address.Endpoint(e))
  {
    forall x | x in net.fibs ensures DistinctListeners(SendHops(net.fibs[x], Address.Endpoint(e))) {
      HopsAreComplete(g, sites, net, e, hosts, x);
    }
  }
}
