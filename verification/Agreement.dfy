/** A network whose nodes hold the same advertisements: distances form a metric
    and next hops are the unique first steps of shortest paths. */
module Agreement {
  import opened Routing
  import opened Routes
  import opened Paths
  import opened Spf
  import opened SpfTheorems
  import opened Forwarding
  import opened PacketNet

  // One node's view: its copy of the topology, its links, its tree, its routes.
  datatype Site = Site(graph: Graph, links: map<ConnectionId, Link>, tree: Tree, routes: Table)

  /** One link per neighbour, each wired to the neighbour's link back. */
  ghost predicate LinksOk(sites: map<NodeId, Site>, net: Net) {
    && (forall x, c :: x in sites && c in sites[x].links ==> sites[x].links[c].connectionId == c)
    && (forall x, c, d | x in sites && c in sites[x].links && d in sites[x].links ::
          sites[x].links[c].peerId == sites[x].links[d].peerId ==> c == d)
    && (forall x, c {:trigger Wired(sites, net, x, c)} :: x in sites && c in sites[x].links ==> Wired(sites, net, x, c))
    && (forall a, b :: a in net.wires && b in net.wires && net.wires[a] == net.wires[b] ==> a == b)
  }

  ghost predicate Wired(sites: map<NodeId, Site>, net: Net, x: NodeId, c: ConnectionId)
    requires x in sites && c in sites[x].links
  {
    End(x, c) in net.wires &&
    var far := net.wires[End(x, c)];
    && far.node == sites[x].links[c].peerId
    && far.node in sites && far.conn in sites[far.node].links && sites[far.node].links[far.conn].peerId == x
  }

  /** Every router knows the same positive edges and has computed its tree and
      table from them. */
  ghost predicate Consistent(g: Graph, sites: map<NodeId, Site>, net: Net) {
    && Positive(g)
    && g.Keys <= sites.Keys && net.fibs.Keys == sites.Keys
    && LinksOk(sites, net)
    && forall x {:trigger SiteOk(g, sites, net, x)} :: x in sites ==> SiteOk(g, sites, net, x)
  }

  /** A consistent network whose edges are symmetric and whose shortest paths are unique. */
  ghost predicate Agreed(g: Graph, sites: map<NodeId, Site>, net: Net) {
    Consistent(g, sites, net) && Symmetric(g) && UniqueShortestPaths(g)
  }

  ghost predicate SiteOk(g: Graph, sites: map<NodeId, Site>, net: Net, x: NodeId)
    requires x in sites
  {
    var s := sites[x];
    && SameEdges(s.graph, g) && IsSpf(s.graph, x, s.links, s.tree)
    && TableOk(s.routes)
    && x in net.fibs && IsFib(x, s.links, s.tree, s.routes, net.fibs[x])
  }

  lemma SiteFib(g: Graph, sites: map<NodeId, Site>, net: Net, x: NodeId)
    requires Consistent(g, sites, net) && x in sites
    ensures x in net.fibs && net.fibs[x].ourId == x && net.fibs[x].nextHop == sites[x].tree.nextHop
    ensures net.fibs[x].table.Keys <= sites[x].routes.Keys && TableOk(sites[x].routes)
  {
    assert SiteOk(g, sites, net, x);
  }

  /** What a node's table holds for an endpoint follows from its tree and routes. */
  lemma SiteEntry(g: Graph, sites: map<NodeId, Site>, net: Net, x: NodeId, e: EndpointId)
    requires Consistent(g, sites, net) && x in sites && e in sites[x].routes
    ensures x in net.fibs
    ensures var entry := sites[x].routes[e]; var fe := Lookup(net.fibs[x], e);
            match entry.kind
            case Anycast => IsAnycastEntry(sites[x].tree, entry.routes, fe)
            case Broadcast => IsBroadcastEntry(sites[x].tree, entry.routes, fe)
            case Multicast => fe.None?
            case _ => IsSingleEntry(sites[x].tree, entry.routes, fe)
  {
    assert SiteOk(g, sites, net, x);
    assert IsFibEntry(sites[x].tree, sites[x].routes[e], Lookup(net.fibs[x], e));
  }

  lemma SiteAnycast(g: Graph, sites: map<NodeId, Site>, net: Net, x: NodeId, e: EndpointId, r: Route) returns (i: nat)
    requires Consistent(g, sites, net) && x in sites && e in sites[x].routes && sites[x].routes[e].kind == Anycast
    requires r in sites[x].routes[e].routes && AnycastTotal(sites[x].tree, r).Some?
    ensures x in net.fibs && Lookup(net.fibs[x], e).Some? && Lookup(net.fibs[x], e).value.Single?
    ensures BestAnycast(sites[x].tree, sites[x].routes[e].routes, i)
    ensures FibForward(sites[x].tree, sites[x].routes[e].routes[i]) == Some(Lookup(net.fibs[x], e).value.hop)
    ensures AnycastTotal(sites[x].tree, sites[x].routes[e].routes[i]).value <= AnycastTotal(sites[x].tree, r).value
  {
    SiteEntry(g, sites, net, x, e);
    i := AnycastEntry(sites[x].tree, sites[x].routes[e].routes, Lookup(net.fibs[x], e), r);
  }

  lemma SiteSingle(g: Graph, sites: map<NodeId, Site>, net: Net, x: NodeId, e: EndpointId)
    requires Consistent(g, sites, net) && x in sites && e in sites[x].routes && |sites[x].routes[e].routes| == 1
    requires sites[x].routes[e].kind == Unicast || sites[x].routes[e].kind == Node
    ensures x in net.fibs
    ensures Lookup(net.fibs[x], e) == match FibForward(sites[x].tree, sites[x].routes[e].routes[0])
              case None => None
              case Some(hop) => Some(Single(hop))
  {
    SiteEntry(g, sites, net, x, e);
    OneRouteEntry(sites[x].tree, sites[x].routes[e].routes, Lookup(net.fibs[x], e));
  }

  /** The distance a node has computed to another, 65535 when out of reach. */
  function Dist(sites: map<NodeId, Site>, a: NodeId, b: NodeId): Cost
    requires a in sites
  {
    CostOf(sites[a].tree.cost, b)
  }

  lemma DistExact(g: Graph, sites: map<NodeId, Site>, net: Net, a: NodeId)
    requires Consistent(g, sites, net) && a in sites
    ensures ExactCosts(g, a, sites[a].tree.cost)
  {
    assert SiteOk(g, sites, net, a);
    CostsAreExact(sites[a].graph, a, sites[a].links, sites[a].tree);
    SameEdgesExact(sites[a].graph, g, a, sites[a].tree.cost);
  }

  lemma DistSelf(g: Graph, sites: map<NodeId, Site>, net: Net, a: NodeId)
    requires Consistent(g, sites, net) && a in sites
    ensures Dist(sites, a, a) == 0
  {
    DistExact(g, sites, net, a);
    assert IsPath(g, Path.Start(a));
  }

  lemma DistSymmetric(g: Graph, sites: map<NodeId, Site>, net: Net, a: NodeId, b: NodeId)
    requires Agreed(g, sites, net) && a in sites && b in sites
    ensures Dist(sites, a, b) == Dist(sites, b, a)
  {
    DistNotLess(g, sites, net, a, b);
    DistNotLess(g, sites, net, b, a);
  }

  lemma DistNotLess(g: Graph, sites: map<NodeId, Site>, net: Net, a: NodeId, b: NodeId)
    requires Agreed(g, sites, net) && a in sites && b in sites
    ensures Dist(sites, b, a) <= Dist(sites, a, b)
  {
    DistExact(g, sites, net, a);
    DistExact(g, sites, net, b);
    if Dist(sites, a, b) < MAX_COST {
      var p :| PathBetween(g, a, b, p) && Length(p) == Dist(sites, a, b);
      ReversePath(g, p);
    }
  }

  lemma Triangle(g: Graph, sites: map<NodeId, Site>, net: Net, a: NodeId, b: NodeId, c: NodeId)
    requires Consistent(g, sites, net) && a in sites && b in sites
    ensures Dist(sites, a, c) <= Dist(sites, a, b) + Dist(sites, b, c)
  {
    DistExact(g, sites, net, a);
    DistExact(g, sites, net, b);
    if Dist(sites, a, b) < MAX_COST && Dist(sites, b, c) < MAX_COST {
      var p :| PathBetween(g, a, b, p) && Length(p) == Dist(sites, a, b);
      var q :| PathBetween(g, b, c, q) && Length(q) == Dist(sites, b, c);
      ConcatPath(g, p, q);
    }
  }

  lemma EdgeDist(g: Graph, sites: map<NodeId, Site>, net: Net, a: NodeId, b: NodeId, w: Cost)
    requires Consistent(g, sites, net) && a in sites && Edge(g, a, b, w)
    ensures w > 0 && Dist(sites, a, b) <= w
  {
    DistExact(g, sites, net, a);
    assert IsPath(g, Path.Start(a));
    assert PathBetween(g, a, b, Path.Hop(Path.Start(a), b, w));
  }

  /** The next hop is a neighbour on a shortest path, over a link of this node. */
  lemma NextHopIsTight(g: Graph, sites: map<NodeId, Site>, net: Net, a: NodeId, n: NodeId) returns (w: Cost)
    requires Consistent(g, sites, net) && a in sites && n != a && Dist(sites, a, n) < MAX_COST
    ensures n in sites[a].tree.nextHop
    ensures var link := sites[a].tree.nextHop[n];
            && link in sites[a].links.Values && link.peerId in sites
            && Edge(g, a, link.peerId, w) && w + Dist(sites, link.peerId, n) == Dist(sites, a, n)
  {
    assert SiteOk(g, sites, net, a);
    var s := sites[a];
    TreeIsSound(s.graph, a, s.links, s.tree, n);
    var q;
    w, q := NextHopSplits(s.graph, a, s.links, s.tree, n);
    var v := s.tree.nextHop[n].peerId;
    assert Edge(g, a, v, w);
    EdgeDist(g, sites, net, a, v, w);
    ArrivalEnd(g, sites, net, a, s.tree.nextHop[n]);
    SameEdgesPath(s.graph, g, q);
    DistExact(g, sites, net, v);
    Triangle(g, sites, net, a, v, n);
  }

  lemma NoNextHopToSelf(g: Graph, sites: map<NodeId, Site>, net: Net, a: NodeId, n: NodeId)
    requires Consistent(g, sites, net) && a in sites && n in sites[a].tree.nextHop
    ensures n != a && Dist(sites, a, n) < MAX_COST
  {
    assert SiteOk(g, sites, net, a);
    TreeIsSound(sites[a].graph, a, sites[a].links, sites[a].tree, n);
  }

  lemma ShortestThrough(g: Graph, sites: map<NodeId, Site>, net: Net, a: NodeId, v: NodeId, w: Cost, n: NodeId)
      returns (p: Path)
    requires Consistent(g, sites, net) && a in sites && n != a && Dist(sites, a, n) < MAX_COST
    requires Edge(g, a, v, w) && v in sites && w + Dist(sites, v, n) == Dist(sites, a, n)
    ensures Shortest(g, p) && First(p) == a && Last(p) == n && Length(p) == Dist(sites, a, n) && p.Hop?
    ensures Second(p) == v
  {
    DistExact(g, sites, net, a);
    DistExact(g, sites, net, v);
    var q :| PathBetween(g, v, n, q) && Length(q) == Dist(sites, v, n);
    PrependPath(g, a, w, q);
    p := Prepend(a, w, q);
  }

  /** Any neighbour on a shortest path is the next hop. */
  lemma NextHopUnique(g: Graph, sites: map<NodeId, Site>, net: Net, a: NodeId, v: NodeId, w: Cost, n: NodeId)
    requires Agreed(g, sites, net) && a in sites && n != a && Dist(sites, a, n) < MAX_COST
    requires Edge(g, a, v, w) && v in sites && w + Dist(sites, v, n) == Dist(sites, a, n)
    ensures n in sites[a].tree.nextHop && sites[a].tree.nextHop[n].peerId == v
  {
    var w' := NextHopIsTight(g, sites, net, a, n);
    var p := ShortestThrough(g, sites, net, a, v, w, n);
    var q := ShortestThrough(g, sites, net, a, sites[a].tree.nextHop[n].peerId, w', n);
  }

  /** Where a copy sent over a node's link to a neighbour arrives. */
  lemma ArrivalEnd(g: Graph, sites: map<NodeId, Site>, net: Net, y: NodeId, link: Link)
    requires Consistent(g, sites, net) && y in sites && link in sites[y].links.Values
    ensures End(y, link.connectionId) in net.wires
    ensures var far := net.wires[End(y, link.connectionId)];
            && far.node == link.peerId && far.node in sites
            && far.conn in sites[far.node].links && sites[far.node].links[far.conn].peerId == y
  {
    var c :| c in sites[y].links && sites[y].links[c] == link;
    assert Wired(sites, net, y, c);
  }

  /** The reverse-path check passes for a packet that moves away from its sender
      along a shortest path. */
  lemma ReversePathHolds(g: Graph, sites: map<NodeId, Site>, net: Net, from: NodeId, y: NodeId, link: Link, w: Cost)
    requires Agreed(g, sites, net) && from in sites && y in sites && link in sites[y].links.Values
    requires Edge(g, y, link.peerId, w) && link.peerId in sites
    requires Dist(sites, from, link.peerId) == Dist(sites, from, y) + w < MAX_COST
    ensures End(y, link.connectionId) in net.wires
    ensures var far := net.wires[End(y, link.connectionId)];
            && far.node == link.peerId && Accepts(net.fibs[far.node], from, far.conn)
            && net.fibs[far.node].nextHop[from].peerId == y
            && far == BackEnd(net, from, far.node)
  {
    var v := link.peerId;
    EdgeDist(g, sites, net, y, v, w);
    DistSelf(g, sites, net, from);
    DistSymmetric(g, sites, net, from, v);
    DistSymmetric(g, sites, net, from, y);
    NextHopUnique(g, sites, net, v, y, w, from);
    ArrivalEnd(g, sites, net, y, link);
    assert SiteOk(g, sites, net, v);
    var w' := NextHopIsTight(g, sites, net, v, from);
    var back := sites[v].tree.nextHop[from];
    var c :| c in sites[v].links && sites[v].links[c] == back;
  }

  // ------------------------------------------------ tables built from a tree

  /** First hops are their own next hops, so every first hop has exactly one link:
      the branch for a missing next hop is unreachable. */
  lemma {:induction false} RemoteHopsExact(t: Tree, peers: seq<NodeId>)
    requires forall p :: p in peers ==> p in t.nextHop && t.nextHop[p].peerId == p
    ensures |RemoteHops(t, peers)| == |peers|
    ensures forall i :: 0 <= i < |peers| ==> RemoteHops(t, peers)[i] == Hop.Remote(t.nextHop[peers[i]])
  {
    if peers != [] {
      RemoteHopsExact(t, peers[1..]);
    }
  }

  lemma {:induction false} LocalHopsAre(routes: seq<Route>)
    ensures forall h :: h in LocalHops(routes) <==>
              h.Local? && exists r :: r in routes && r.via == ToListener(h.listener)
  {
    if routes != [] {
      LocalHopsAre(routes[1..]);
      var all := LocalHops(routes);
      forall h ensures h in all <==> h.Local? && exists r :: r in routes && r.via == ToListener(h.listener) {
        if h.Local? && exists r :: r in routes && r.via == ToListener(h.listener) {
          var r :| r in routes && r.via == ToListener(h.listener);
          assert r == routes[0] || r in routes[1..];
        }
        if h in all && h in LocalHops(routes[1..]) {
          var r :| r in routes[1..] && r.via == ToListener(h.listener);
          assert r in routes;
        } else if h in all {
          assert routes[0] in routes;
        }
      }
    }
  }

  /** The next hop of a first hop is that neighbour itself. */
  lemma FirstHopsAreOwn(g: Graph, root: NodeId, links: map<ConnectionId, Link>, t: Tree, routes: seq<Route>)
    requires IsSpf(g, root, links, t)
    ensures forall p :: p in FirstHops(t, routes) ==> p in t.nextHop && t.nextHop[p].peerId == p
  {
    forall p | p in FirstHops(t, routes) ensures p in t.nextHop && t.nextHop[p].peerId == p {
      var r :| r in routes && r.via.ToNode? && r.via.node in t.nextHop && t.nextHop[r.via.node].peerId == p;
      TreeIsSound(g, root, links, t, r.via.node);
    }
  }

  /** The links of an entry are those of the first hops, each once. */
  lemma BroadcastLinks(g: Graph, root: NodeId, links: map<ConnectionId, Link>, t: Tree, routes: seq<Route>,
                       peers: seq<NodeId>, locals: seq<Hop>, hops: seq<Hop>)
    requires IsSpf(g, root, links, t) && forall c :: c in links ==> links[c].connectionId == c
    requires Distinct(peers) && Elements(peers) == FirstHops(t, routes)
    requires (forall h :: h in locals ==> h.Local?) && hops == locals + RemoteHops(t, peers)
    ensures forall l :: Local(l) in hops <==> Local(l) in locals
    ensures forall link :: Hop.Remote(link) in hops <==>
              link.peerId in FirstHops(t, routes) && link.peerId in t.nextHop && link == t.nextHop[link.peerId]
    ensures FirstHops(t, routes) <= t.nextHop.Keys
    ensures DistinctLinks(hops)
  {
    FirstHopsAreOwn(g, root, links, t, routes);
    BroadcastParts(t, peers, locals, hops);
    LinksApart(g, root, links, t, hops);
  }

  /** A broadcast entry holds every local listener and exactly one link per
      distinct first hop among the reachable origins. */
  lemma BroadcastEntryExact(g: Graph, root: NodeId, links: map<ConnectionId, Link>, t: Tree, routes: seq<Route>,
                            hops: seq<Hop>)
    requires IsSpf(g, root, links, t) && BroadcastHops(t, routes, hops)
    requires forall c :: c in links ==> links[c].connectionId == c
    ensures forall l :: Local(l) in hops <==> exists r :: r in routes && r.via == ToListener(l)
    ensures forall link :: Hop.Remote(link) in hops <==>
              link.peerId in FirstHops(t, routes) && link.peerId in t.nextHop && link == t.nextHop[link.peerId]
    ensures FirstHops(t, routes) <= t.nextHop.Keys
    ensures DistinctLinks(hops)
  {
    var peers :| Distinct(peers) && Elements(peers) == FirstHops(t, routes) &&
                 hops == LocalHops(routes) + RemoteHops(t, peers);
    var locals := LocalHops(routes);
    LocalHopsAre(routes);
    BroadcastLinks(g, root, links, t, routes, peers, locals, hops);
    forall l ensures Local(l) in hops <==> exists r :: r in routes && r.via == ToListener(l) {
      assert Local(l) in hops <==> Local(l) in locals;
    }
  }

  lemma BroadcastParts(t: Tree, peers: seq<NodeId>, locals: seq<Hop>, hops: seq<Hop>)
    requires Distinct(peers) && forall p :: p in Elements(peers) ==> p in t.nextHop && t.nextHop[p].peerId == p
    requires (forall h :: h in locals ==> h.Local?) && hops == locals + RemoteHops(t, peers)
    ensures forall link :: Hop.Remote(link) in hops <==>
              link.peerId in Elements(peers) && link == t.nextHop[link.peerId]
    ensures forall l :: Local(l) in hops <==> Local(l) in locals
    ensures forall i, j :: 0 <= i < j < |hops| && hops[i].Remote? && hops[j].Remote? ==>
              hops[i].link.peerId != hops[j].link.peerId
  {
    assert forall p :: p in peers <==> p in Elements(peers);
    RemoteHopsExact(t, peers);
    RemotePart(t, peers, locals, hops);
  }

  lemma LinksApart(g: Graph, root: NodeId, links: map<ConnectionId, Link>, t: Tree, hops: seq<Hop>)
    requires IsSpf(g, root, links, t) && forall c :: c in links ==> links[c].connectionId == c
    requires forall link :: Hop.Remote(link) in hops ==> link.peerId in t.nextHop && link == t.nextHop[link.peerId]
    requires forall i, j :: 0 <= i < j < |hops| && hops[i].Remote? && hops[j].Remote? ==>
               hops[i].link.peerId != hops[j].link.peerId
    ensures DistinctLinks(hops)
  {
    forall i, j | 0 <= i < j < |hops| && hops[i].Remote? && hops[j].Remote?
      ensures hops[i].link.connectionId != hops[j].link.connectionId
    {
      var a, b := hops[i].link, hops[j].link;
      assert Hop.Remote(a) in hops && Hop.Remote(b) in hops;
      TreeIsSound(g, root, links, t, a.peerId);
      TreeIsSound(g, root, links, t, b.peerId);
    }
  }

  lemma RemotePart(t: Tree, peers: seq<NodeId>, locals: seq<Hop>, hops: seq<Hop>)
    requires Distinct(peers) && forall p :: p in peers ==> p in t.nextHop && t.nextHop[p].peerId == p
    requires |RemoteHops(t, peers)| == |peers|
    requires forall i :: 0 <= i < |peers| ==> RemoteHops(t, peers)[i] == Hop.Remote(t.nextHop[peers[i]])
    requires (forall h :: h in locals ==> h.Local?) && hops == locals + RemoteHops(t, peers)
    ensures forall link :: Hop.Remote(link) in hops <==> link.peerId in peers && link == t.nextHop[link.peerId]
    ensures forall l :: Local(l) in hops <==> Local(l) in locals
    ensures forall i, j :: 0 <= i < j < |hops| && hops[i].Remote? && hops[j].Remote? ==>
              hops[i].link.peerId != hops[j].link.peerId
  {
    var remotes := RemoteHops(t, peers);
    forall h ensures h in hops <==> h in locals || h in remotes {
    }
    forall link ensures Hop.Remote(link) in remotes <==> link.peerId in peers && link == t.nextHop[link.peerId] {
      if Hop.Remote(link) in remotes {
        var i :| 0 <= i < |remotes| && remotes[i] == Hop.Remote(link);
        assert peers[i] in peers;
      }
      if link.peerId in peers && link == t.nextHop[link.peerId] {
        var i :| 0 <= i < |peers| && peers[i] == link.peerId;
        assert remotes[i] == Hop.Remote(link);
      }
    }
    forall i | 0 <= i < |hops| ensures hops[i].Remote? <==> i >= |locals| {
      if i < |locals| {
        assert locals[i] in locals;
      } else {
        assert hops[i] == remotes[i - |locals|];
      }
    }
    forall l ensures Local(l) !in remotes {
    }
  }

  ghost predicate AllBuilt(net: Net) {
    && (forall x {:trigger Built(x, net.fibs[x])} :: x in net.fibs ==> Built(x, net.fibs[x]))
    && (forall a, b :: a in net.wires && b in net.wires && net.wires[a] == net.wires[b] ==> a == b)
  }

  /** Built tables name no link twice, however little their nodes agree. */
  lemma BuiltNetOk(net: Net)
    requires AllBuilt(net)
    ensures NetOk(net)
  {
    forall x, e | x in net.fibs && e in net.fibs[x].table ensures DistinctLinks(Hops(net.fibs[x].table[e])) {
      assert Built(x, net.fibs[x]);
      var g, links: map<ConnectionId, Link>, t, routes: Table :|
        && IsSpf(g, x, links, t) && IsFib(x, links, t, routes, net.fibs[x]) && TableOk(routes)
        && forall c :: c in links ==> links[c].connectionId == c;
      assert e in routes && IsFibEntry(t, routes[e], Lookup(net.fibs[x], e));
      if routes[e].kind == Broadcast {
        BroadcastEntryExact(g, x, links, t, routes[e].routes, net.fibs[x].table[e].hops);
      }
    }
    forall x | x in net.fibs ensures net.fibs[x].ourId == x {
      assert Built(x, net.fibs[x]);
    }
  }

  /** No duplicates and no storms, even while the databases disagree: over any
      built tables and in every interleaving, each node accepts a packet at most
      once, and the run is no longer than the hops of the sender and of all nodes. */
  lemma NoDuplicatesNoStorms(net: Net, to: Address, from: NodeId, run: seq<State>, k: nat)
    requires AllBuilt(net) && Run(net, to, from, run) && k < |run|
    ensures Distinct(run[k].accepted) && from !in run[k].accepted
    ensures ListenersOk(net, to) ==> DeliveredOnce(from, run[k])
    ensures k <= FanOut(net, to, from) + SumFanOut(net, to, net.fibs.Keys)
  {
    BuiltNetOk(net);
    AcceptedAtMostOnce(net, to, from, run, k);
    ForwardingTerminates(net, to, from, run, k);
    if ListenersOk(net, to) {
      DeliveredAtMostOnce(net, to, from, run, k);
    }
  }

  lemma ConsistentNetOk(g: Graph, sites: map<NodeId, Site>, net: Net)
    requires Consistent(g, sites, net)
    ensures NetOk(net)
  {
    forall x | x in net.fibs ensures Built(x, net.fibs[x]) {
      assert SiteOk(g, sites, net, x);
    }
    BuiltNetOk(net);
  }
}
