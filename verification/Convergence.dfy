/** From databases that agree to networks that deliver: listening routers whose
    databases hold the same advertisements form a consistent network, in which
    everyone has the routes that delivery relies on. */
module Convergence {
  import opened Routing
  import opened Routes
  import opened Paths
  import opened Spf
  import opened SpfTheorems
  import opened LinkState
  import opened Forwarding
  import opened PacketNet
  import opened Trails
  import opened Agreement
  import opened Delivery
  import opened Broadcasting
  import opened Routers
  import opened Index

  // What a router that listens has: its database, links, route table and published table.
  datatype Member = Member(db: Db, links: Links, table: Table, fib: ForwardingTable)

  /** The router is listening, no route has outlived its record, no record was refused. */
  ghost predicate Listening(x: NodeId, n: Member) {
    && StateOk(n.db, n.links, n.table, x, {}) && FreshFib(n.db, x, n.links, n.table, n.fib)
    && CompleteOk(n.db, n.table, x, {})
  }

  /** One router advertisement per origin. */
  ghost predicate OneRouter(db: Db) {
    forall k1, k2 | k1 in db && k2 in db && db[k1].lsa.body.Router? && db[k2].lsa.body.Router? ::
      k1.origin == k2.origin ==> k1 == k2
  }

  /** Everyone listens and holds the router advertisements that make up `g`. */
  ghost predicate Converged(g: Graph, nodes: map<NodeId, Member>) {
    forall x {:trigger ConvergedAt(g, nodes, x)} :: x in nodes ==> ConvergedAt(g, nodes, x)
  }

  ghost predicate ConvergedAt(g: Graph, nodes: map<NodeId, Member>, x: NodeId)
    requires x in nodes
  {
    Listening(x, nodes[x]) && OneRouter(nodes[x].db) && IsTopology(nodes[x].db, g)
  }

  /** A node as its neighbours' proofs see it: with the tree behind its published table. */
  ghost function SiteOf(x: NodeId, n: Member): Site
    requires FreshFib(n.db, x, n.links, n.table, n.fib)
  {
    var g, t :| IsTopology(n.db, g) && IsSpf(g, x, n.links, t) && IsFib(x, n.links, t, n.table, n.fib);
    Site(g, n.links, t, n.table)
  }

  ghost predicate SitesOf(nodes: map<NodeId, Member>, sites: map<NodeId, Site>, net: Net) {
    && sites.Keys == nodes.Keys && net.fibs.Keys == nodes.Keys
    && forall x {:trigger IsSiteOf(nodes, sites, net, x)} :: x in nodes ==> IsSiteOf(nodes, sites, net, x)
  }

  ghost predicate IsSiteOf(nodes: map<NodeId, Member>, sites: map<NodeId, Site>, net: Net, x: NodeId)
    requires x in nodes && x in sites && x in net.fibs
  {
    var n := nodes[x];
    FreshFib(n.db, x, n.links, n.table, n.fib) && sites[x] == SiteOf(x, n) && net.fibs[x] == n.fib
  }

  lemma SiteRoutes(nodes: map<NodeId, Member>, sites: map<NodeId, Site>, net: Net, x: NodeId)
    requires SitesOf(nodes, sites, net) && x in nodes
    ensures x in sites && sites[x].routes == nodes[x].table
  {
    assert IsSiteOf(nodes, sites, net, x);
  }

  /** Routers that listen and agree form a consistent network. */
  lemma ConvergedIsConsistent(g: Graph, nodes: map<NodeId, Member>, sites: map<NodeId, Site>, net: Net)
    requires Converged(g, nodes) && SitesOf(nodes, sites, net)
    requires Positive(g) && g.Keys <= nodes.Keys && LinksOk(sites, net)
    ensures Consistent(g, sites, net)
  {
    forall x | x in sites ensures SiteOk(g, sites, net, x) {
      assert ConvergedAt(g, nodes, x) && IsSiteOf(nodes, sites, net, x);
      TopologyUnique(nodes[x].db, sites[x].graph, g);
    }
  }

  // ------------------------------------------------------------- one endpoint

  /** Everyone holds exactly these advertisements of an endpoint, origins advertise
      only what they have listeners for, and no entry is empty. */
  ghost predicate SameEndpoint(nodes: map<NodeId, Member>, e: EndpointId, infos: map<NodeId, EndpointInfo>) {
    && infos.Keys <= nodes.Keys
    && forall x {:trigger SameAt(nodes[x], x, e, infos)} :: x in nodes ==> SameAt(nodes[x], x, e, infos)
  }

  ghost predicate SameAt(n: Member, x: NodeId, e: EndpointId, infos: map<NodeId, EndpointInfo>) {
    && (forall o {:trigger LsaKey(o, e)} :: LsaKey(o, e) in n.db <==> o in infos)
    && (forall o {:trigger infos[o]} :: o in infos ==> n.db[LsaKey(o, e)].lsa.body == EndpointBody(infos[o]))
    && (x in infos ==> e in n.table && HasLocal(n.table[e].routes))
    && (e in n.table ==> n.table[e].routes != [])
  }

  ghost predicate OneKind(infos: map<NodeId, EndpointInfo>, kind: RouteKind) {
    kind != RouteKind.Node && forall o :: o in infos ==> infos[o].kind == kind
  }

  /** What a node then has in its table: its listeners if it is an origin, and one
      route to each other origin, at the advertised cost. */
  ghost predicate Known(n: Member, x: NodeId, e: EndpointId, infos: map<NodeId, EndpointInfo>, kind: RouteKind) {
    if e in n.table then
      && n.table[e].kind == kind && EntryOk(n.table[e])
      && (HasLocal(n.table[e].routes) <==> x in infos)
      && (x in infos && kind == Anycast ==> MinLocalCost(n.table[e].routes) == Some(infos[x].cost))
      && (forall r :: r in n.table[e].routes && r.via.ToNode? ==> KnownRoute(x, infos, r))
      && (forall o {:trigger HasRoute(n.table, e, o)} :: o in infos && o != x ==> HasRoute(n.table, e, o))
    else infos == map[]
  }

  ghost predicate KnownRoute(x: NodeId, infos: map<NodeId, EndpointInfo>, r: Route)
    requires r.via.ToNode?
  {
    r.via.node != x && r.via.node in infos && r.cost == infos[r.via.node].cost
  }

  lemma RoutesAreKnown(g: Graph, nodes: map<NodeId, Member>, e: EndpointId, infos: map<NodeId, EndpointInfo>, x: NodeId,
                       kind: RouteKind)
    requires Converged(g, nodes) && SameEndpoint(nodes, e, infos) && x in nodes && OneKind(infos, kind)
    ensures Known(nodes[x], x, e, infos, kind)
  {
    assert ConvergedAt(g, nodes, x) && SameAt(nodes[x], x, e, infos);
    KnownAt(nodes[x], x, e, infos, kind);
  }

  lemma KnownAt(n: Member, x: NodeId, e: EndpointId, infos: map<NodeId, EndpointInfo>, kind: RouteKind)
    requires StateOk(n.db, n.links, n.table, x, {}) && CompleteOk(n.db, n.table, x, {})
    requires SameAt(n, x, e, infos) && OneKind(infos, kind)
    ensures Known(n, x, e, infos, kind)
  {
    forall o | o in infos && o != x ensures HasRoute(n.table, e, o) && n.table[e].kind == kind {
      assert LsaKey(o, e) in n.db && RouteFor(n.db, n.table, LsaKey(o, e));
    }
    if e in n.table {
      assert EntryOk(n.table[e]);
      MinLocalIsLeast(n.table[e].routes);
      assert HasLocal(n.table[e].routes) ==> Advertises(n.db, x, e, n.table[e]);
      assert HasLocal(n.table[e].routes) ==> LsaKey(x, e) in n.db;
      OriginsKnown(n, x, e, infos);
      KindIsKnown(n, x, e, infos, kind);
      CostsKnown(n, x, e, infos, kind);
    } else {
      assert forall o :: o !in infos;
    }
  }

  lemma OriginsKnown(n: Member, x: NodeId, e: EndpointId, infos: map<NodeId, EndpointInfo>)
    requires IndexOk(n.db, n.table, x, {}) && SameAt(n, x, e, infos) && e in n.table
    ensures forall r :: r in n.table[e].routes && r.via.ToNode? ==> r.via.node != x && r.via.node in infos
  {
    forall r | r in n.table[e].routes && r.via.ToNode? ensures r.via.node != x && r.via.node in infos {
      assert Indexed(n.db, x, {}, e, n.table[e].kind, r);
      assert LsaKey(r.via.node, e) in n.db;
    }
  }

  lemma KindIsKnown(n: Member, x: NodeId, e: EndpointId, infos: map<NodeId, EndpointInfo>, kind: RouteKind)
    requires e in n.table && SameAt(n, x, e, infos) && OneKind(infos, kind)
    requires HasLocal(n.table[e].routes) ==> Advertises(n.db, x, e, n.table[e]) && x in infos
    requires forall r :: r in n.table[e].routes && r.via.ToNode? ==> r.via.node != x && r.via.node in infos
    requires forall o :: o in infos && o != x ==> n.table[e].kind == kind
    ensures n.table[e].kind == kind
  {
    var r := n.table[e].routes[0];
    assert r in n.table[e].routes;
    if r.via.ToListener? {
      assert HasLocal(n.table[e].routes) && infos[x].kind == kind;
    }
  }

  lemma CostsKnown(n: Member, x: NodeId, e: EndpointId, infos: map<NodeId, EndpointInfo>, kind: RouteKind)
    requires IndexOk(n.db, n.table, x, {}) && SameAt(n, x, e, infos) && e in n.table && OneKind(infos, kind)
    requires n.table[e].kind == kind
    requires forall r :: r in n.table[e].routes && r.via.ToNode? ==> r.via.node != x && r.via.node in infos
    ensures forall r :: r in n.table[e].routes && r.via.ToNode? ==> KnownRoute(x, infos, r)
  {
    forall r | r in n.table[e].routes && r.via.ToNode? ensures KnownRoute(x, infos, r) {
      assert Indexed(n.db, x, {}, e, n.table[e].kind, r);
      assert LsaKey(r.via.node, e) in n.db && infos[r.via.node].kind == kind;
    }
  }

  function Costs(infos: map<NodeId, EndpointInfo>): map<NodeId, Cost> {
    map o | o in infos :: infos[o].cost
  }

  /** An anycast endpoint that everyone knows is hosted: delivery goes to the best. */
  lemma AnycastIsHosted(g: Graph, nodes: map<NodeId, Member>, sites: map<NodeId, Site>, net: Net, e: EndpointId,
                        infos: map<NodeId, EndpointInfo>)
    requires Converged(g, nodes) && SitesOf(nodes, sites, net) && SameEndpoint(nodes, e, infos)
    requires OneKind(infos, Anycast)
    ensures Hosted(sites, e, Costs(infos))
  {
    forall x | x in sites ensures HostedAt(sites, e, Costs(infos), x) {
      RoutesAreKnown(g, nodes, e, infos, x, Anycast);
      SiteRoutes(nodes, sites, net, x);
      KnownIsHosted(nodes[x], x, sites, e, infos);
    }
  }

  lemma KnownIsHosted(n: Member, x: NodeId, sites: map<NodeId, Site>, e: EndpointId, infos: map<NodeId, EndpointInfo>)
    requires Known(n, x, e, infos, Anycast) && x in sites && sites[x].routes == n.table
    ensures HostedAt(sites, e, Costs(infos), x)
  {
    if e in n.table {
      MinLocalIsLeast(n.table[e].routes);
      forall o | o in infos && o != x ensures exists r :: r in n.table[e].routes && r.via == ToNode(o) {
        assert HasRoute(n.table, e, o);
      }
    }
  }

  /** A broadcast endpoint that everyone knows is announced. */
  lemma BroadcastIsAnnounced(g: Graph, nodes: map<NodeId, Member>, sites: map<NodeId, Site>, net: Net, e: EndpointId,
                             infos: map<NodeId, EndpointInfo>, hosts: Hosts)
    requires Converged(g, nodes) && SitesOf(nodes, sites, net) && SameEndpoint(nodes, e, infos)
    requires OneKind(infos, Broadcast)
    requires hosts.Keys == infos.Keys && forall x :: x in nodes ==> HostsOf(nodes[x], x, e, hosts)
    ensures Broadcasting.Announced(sites, e, hosts)
  {
    forall x | x in sites ensures AnnouncedAt(sites, e, hosts, x) {
      RoutesAreKnown(g, nodes, e, infos, x, Broadcast);
      SiteRoutes(nodes, sites, net, x);
      KnownIsAnnounced(nodes[x], x, sites, e, infos, hosts);
    }
  }

  /** `hosts` names a node's listeners, which are distinct. */
  ghost predicate HostsOf(n: Member, x: NodeId, e: EndpointId, hosts: Hosts) {
    e in n.table ==>
      && DistinctListeners(LocalHops(n.table[e].routes))
      && forall l {:trigger Listens(n.table[e].routes, l)} :: Listens(n.table[e].routes, l) <==>
        x in hosts && l in hosts[x]
  }

  lemma KnownIsAnnounced(n: Member, x: NodeId, sites: map<NodeId, Site>, e: EndpointId,
                         infos: map<NodeId, EndpointInfo>, hosts: Hosts)
    requires Known(n, x, e, infos, Broadcast) && HostsOf(n, x, e, hosts) && hosts.Keys == infos.Keys
    requires x in sites && sites[x].routes == n.table
    ensures AnnouncedAt(sites, e, hosts, x)
  {
    if e in n.table {
      forall l ensures (exists r :: r in n.table[e].routes && r.via == ToListener(l)) <==> x in hosts && l in hosts[x] {
        assert Listens(n.table[e].routes, l) <==> x in hosts && l in hosts[x];
      }
      forall o | o in hosts && o != x ensures exists r :: r in n.table[e].routes && r.via == ToNode(o) {
        assert HasRoute(n.table, e, o);
      }
    } else {
      assert forall o :: o !in hosts;
    }
  }

  /** A unicast endpoint that everyone knows is owned. */
  lemma UnicastIsOwned(g: Graph, nodes: map<NodeId, Member>, sites: map<NodeId, Site>, net: Net, e: EndpointId,
                       owner: NodeId, info: EndpointInfo, l: Listener)
    requires Converged(g, nodes) && SitesOf(nodes, sites, net) && owner in nodes && info.kind == Unicast
    requires SameEndpoint(nodes, e, map[owner := info])
    requires e in nodes[owner].table && Listens(nodes[owner].table[e].routes, l)
    ensures OwnedBy(sites, Address.Endpoint(e), owner, l)
  {
    forall x | x in sites ensures RoutesTo(sites, Address.Endpoint(e), owner, l, x) {
      assert OneKind(map[owner := info], Unicast);
      RoutesAreKnown(g, nodes, e, map[owner := info], x, Unicast);
      SiteRoutes(nodes, sites, net, x);
      KnownIsOwned(nodes[x], x, e, owner, info, if x == owner then ToListener(l) else ToNode(owner));
    }
  }

  lemma KnownIsOwned(n: Member, x: NodeId, e: EndpointId, owner: NodeId, info: EndpointInfo, via: ForwardTo)
    requires Known(n, x, e, map[owner := info], Unicast)
    requires if x == owner then
               via.ToListener? && e in n.table && Listens(n.table[e].routes, via.listener)
             else via == ToNode(owner)
    ensures e in n.table && n.table[e].kind == Unicast && |n.table[e].routes| == 1 && n.table[e].routes[0].via == via
  {
    assert owner in map[owner := info];
    if x != owner {
      assert HasRoute(n.table, e, owner);
    }
    SingleRoute(n.table[e].routes, via);
  }

  lemma SingleRoute(routes: seq<Route>, via: ForwardTo)
    requires |routes| <= 1 && exists r :: r in routes && r.via == via
    ensures |routes| == 1 && routes[0].via == via
  {
  }

  /** A node's address is owned by the node, for whichever endpoint of it is meant. */
  lemma NodeIsOwned(g: Graph, nodes: map<NodeId, Member>, sites: map<NodeId, Site>, net: Net, e: EndpointId,
                    owner: NodeId, l: Listener)
    requires Converged(g, nodes) && SitesOf(nodes, sites, net) && owner in nodes
    requires e in nodes[owner].table && nodes[owner].table[e].kind == Unicast
    requires Listens(nodes[owner].table[e].routes, l)
    requires forall x :: x in nodes ==> OnlyRouterRecord(nodes[x].db, owner)
    ensures OwnedBy(sites, Address.Remote(e, owner), owner, l)
  {
    forall x | x in sites ensures RoutesTo(sites, Address.Remote(e, owner), owner, l, x) {
      assert ConvergedAt(g, nodes, x);
      SiteRoutes(nodes, sites, net, x);
      if x == owner {
        assert EntryOk(nodes[x].table[e]);
        SingleRoute(nodes[x].table[e].routes, ToListener(l));
      } else {
        OnlyOwner(nodes[x], x, owner);
      }
    }
  }

  /** The one record under a node's id is its router advertisement. */
  ghost predicate OnlyRouterRecord(db: Db, owner: NodeId) {
    && (forall o {:trigger LsaKey(o, owner)} :: LsaKey(o, owner) in db <==> o == owner)
    && db[LsaKey(owner, owner)].lsa.body.Router?
  }

  lemma OnlyOwner(n: Member, x: NodeId, owner: NodeId)
    requires TableOk(n.table) && CompleteOk(n.db, n.table, x, {}) && IndexOk(n.db, n.table, x, {})
    requires x != owner && OnlyRouterRecord(n.db, owner)
    ensures owner in n.table && n.table[owner].kind == RouteKind.Node
    ensures |n.table[owner].routes| == 1 && n.table[owner].routes[0].via == ToNode(owner)
  {
    assert LsaKey(owner, owner) in n.db && RouteFor(n.db, n.table, LsaKey(owner, owner));
    assert HasRoute(n.table, owner, owner) && EntryOk(n.table[owner]);
    ViaOwner(n, x, owner, 0);
    if |n.table[owner].routes| > 1 {
      ViaOwner(n, x, owner, 1);
    }
  }

  lemma ViaOwner(n: Member, x: NodeId, owner: NodeId, i: nat)
    requires IndexOk(n.db, n.table, x, {}) && OnlyRouterRecord(n.db, owner) && owner in n.table
    requires EntryOk(n.table[owner]) && n.table[owner].kind == RouteKind.Node && i < |n.table[owner].routes|
    ensures n.table[owner].routes[i].via == ToNode(owner)
  {
    var r := n.table[owner].routes[i];
    assert r in n.table[owner].routes && r.via.ToNode?;
    assert Indexed(n.db, x, {}, owner, RouteKind.Node, r);
    assert LsaKey(r.via.node, owner) in n.db;
  }

  /** From agreeing databases to delivery: a packet for a unicast endpoint that
      everyone knows is delivered exactly if its way is retraced. */
  lemma ConvergedDelivers(g: Graph, nodes: map<NodeId, Member>, sites: map<NodeId, Site>, net: Net, e: EndpointId,
                          owner: NodeId, info: EndpointInfo, l: Listener, chain: seq<NodeId>,
                          run: seq<PacketNet.State>, k: nat)
    requires Converged(g, nodes) && SitesOf(nodes, sites, net) && owner in nodes && info.kind == Unicast
    requires Positive(g) && g.Keys <= nodes.Keys && LinksOk(sites, net)
    requires SameEndpoint(nodes, e, map[owner := info])
    requires e in nodes[owner].table && Listens(nodes[owner].table[e].routes, l)
    requires LeadsTo(sites, owner, chain)
    requires LosslessRun(net, Address.Endpoint(e), chain[0], run) && k < |run| && run[k].inflight == multiset{}
    ensures run[k].delivered == if Retraced(sites, chain, |chain|) then multiset{Receipt(owner, l)} else multiset{}
  {
    ConvergedIsConsistent(g, nodes, sites, net);
    UnicastIsOwned(g, nodes, sites, net, e, owner, info, l);
    UnicastExactly(g, sites, net, Address.Endpoint(e), owner, l, chain, run, k);
  }
}
