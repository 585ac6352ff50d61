/** Ties between shortest paths: on a ring of six nodes with equal costs the two
    directions may go different ways around, and the packet is lost; on a ring of
    four they always go the same way, and it arrives. */
module EqualCosts {
  import opened Routing
  import opened Routes
  import opened Paths
  import opened Spf
  import opened SpfTheorems
  import opened LinkState
  import opened Forwarding
  import opened PacketNet
  import opened Trails
  import opened Agreement
  import opened Delivery
  import opened Existence

  // The nodes in ring order: a - x - y - d - v - u - a.
  datatype Ring = Ring(a: NodeId, x: NodeId, y: NodeId, d: NodeId, v: NodeId, u: NodeId) {
    predicate Adjacent(m: NodeId, n: NodeId) {
      || (m == a && (n == x || n == u)) || (m == x && (n == a || n == y))
      || (m == y && (n == x || n == d)) || (m == d && (n == y || n == v))
      || (m == v && (n == d || n == u)) || (m == u && (n == v || n == a))
    }

    predicate Proper() {
      a !in {x, y, d, v, u} && x !in {y, d, v, u} && y !in {d, v, u} && d !in {v, u} && v != u
    }

    function Nodes(): set<NodeId> {
      {a, x, y, d, v, u}
    }

    /** The neighbours in the order of their links: back along the ring first, but for a. */
    function Peer(n: NodeId, c: ConnectionId): NodeId {
      if c == 1 then
        if n == a then x else if n == x then a else if n == y then x else if n == d then y else if n == v then d else v
      else
        if n == a then u else if n == x then y else if n == y then d else if n == d then v else if n == v then u else a
    }

    /** The other end of a link. */
    function Far(e: End): End {
      End(Peer(e.node, e.conn),
          if e.node == a then e.conn else if Peer(e.node, e.conn) == a then e.conn else if e.conn == 1 then 2 else 1)
    }
  }

  /** Hops from a, counted the shorter way around. */
  function RingAway(r: Ring): NodeId -> nat {
    n => if n == r.a then 0 else if n == r.x || n == r.u then 1 else if n == r.y || n == r.v then 2 else 3
  }

  /** All edges of the topology are the ring's, each of cost 1. */
  ghost predicate IsRing(g: Graph, r: Ring) {
    r.Proper() && forall m, n, w :: Edge(g, m, n, w) <==> w == 1 && r.Adjacent(m, n)
  }

  // ------------------------------------------------------ topologies in layers

  /** Unit costs, and edges that lead at most one layer further from the root. */
  ghost predicate Layered(g: Graph, root: NodeId, away: NodeId -> nat) {
    away(root) == 0 && forall m, n, w :: Edge(g, m, n, w) ==> w == 1 && away(n) <= away(m) + 1
  }

  lemma {:induction false} NoShortcut(g: Graph, root: NodeId, away: NodeId -> nat, p: Path)
    requires Layered(g, root, away) && IsPath(g, p) && First(p) == root
    ensures away(Last(p)) <= Length(p)
    ensures Length(p) == 0 ==> p.Start?
  {
    if p.Hop? {
      NoShortcut(g, root, away, p.prev);
      assert Edge(g, Last(p.prev), p.to, p.cost);
    }
  }

  /** A path that goes one layer further with every hop is a shortest one. */
  lemma LayerIsCost(g: Graph, root: NodeId, away: NodeId -> nat, links: map<ConnectionId, Link>, t: Tree, p: Path)
    requires Layered(g, root, away) && IsSpf(g, root, links, t)
    requires IsPath(g, p) && First(p) == root && Length(p) == away(Last(p)) < MAX_COST
    ensures CostOf(t.cost, Last(p)) == away(Last(p)) && Reached(t, Last(p))
  {
    CostsAreExact(g, root, links, t);
    assert CostOf(t.cost, Last(p)) <= Length(p);
    var q :| PathBetween(g, root, Last(p), q) && Length(q) == CostOf(t.cost, Last(p));
    NoShortcut(g, root, away, q);
  }

  lemma Onwards(g: Graph, root: NodeId, away: NodeId -> nat, p: Path, n: NodeId) returns (q: Path)
    requires Layered(g, root, away) && IsPath(g, p) && First(p) == root && Length(p) == away(Last(p))
    requires Edge(g, Last(p), n, 1) && away(n) == away(Last(p)) + 1
    ensures IsPath(g, q) && First(q) == root && Last(q) == n && Length(q) == away(n)
  {
    q := Path.Hop(p, n, 1);
  }

  /** The branch of a reached node: a shortest path whose second node is the next hop. */
  lemma Branch(g: Graph, root: NodeId, links: map<ConnectionId, Link>, t: Tree, n: NodeId) returns (p: Path)
    requires IsSpf(g, root, links, t) && Reached(t, n) && n != root
    ensures n in t.nextHop && IsPath(g, p) && First(p) == root && Last(p) == n && Length(p) == CostOf(t.cost, n)
    ensures p.Hop? && t.nextHop[n].peerId == Second(p) && n in t.parent && t.parent[n] == Last(p.prev)
  {
    TreeIsSound(g, root, links, t, n);
    p :| IsBranch(g, t, p) && First(p) == root && Last(p) == n && Length(p) == CostOf(t.cost, n) &&
         p.Hop? && t.nextHop[n].peerId == Second(p);
    BranchIsPath(g, t, p);
  }

  /** Paths of one and two hops, seen from their ends. */
  lemma ShortPath(g: Graph, root: NodeId, away: NodeId -> nat, p: Path)
    requires Layered(g, root, away) && IsPath(g, p) && First(p) == root && p.Hop?
    ensures Edge(g, Last(p.prev), Last(p), 1) && Length(p.prev) == Length(p) - 1
    ensures Length(p) == 1 ==> Second(p) == Last(p)
    ensures Length(p) == 2 ==> p.prev.Hop? && Second(p) == Last(p.prev) && Edge(g, root, Second(p), 1)
  {
    assert Edge(g, Last(p.prev), p.to, p.cost);
    NoShortcut(g, root, away, p.prev);
    if p.prev.Hop? {
      assert Edge(g, Last(p.prev.prev), p.prev.to, p.prev.cost);
      NoShortcut(g, root, away, p.prev.prev);
    }
  }

  // ------------------------------------------------------------- a ring of six

  lemma ArmCosts(g: Graph, r: Ring, links: map<ConnectionId, Link>, t: Tree)
    requires IsRing(g, r) && IsSpf(g, r.a, links, t)
    ensures CostOf(t.cost, r.x) == 1 && CostOf(t.cost, r.y) == 2 && CostOf(t.cost, r.d) == 3
  {
    assert Edge(g, r.a, r.x, 1) && Edge(g, r.x, r.y, 1) && Edge(g, r.y, r.d, 1);
    var x := Onwards(g, r.a, RingAway(r), Path.Start(r.a), r.x);
    var y := Onwards(g, r.a, RingAway(r), x, r.y);
    var d := Onwards(g, r.a, RingAway(r), y, r.d);
    LayerIsCost(g, r.a, RingAway(r), links, t, x);
    LayerIsCost(g, r.a, RingAway(r), links, t, y);
    LayerIsCost(g, r.a, RingAway(r), links, t, d);
  }

  /** From a every node of the ring is as far away as the shorter way around. */
  lemma RingCosts(g: Graph, r: Ring, links: map<ConnectionId, Link>, t: Tree)
    requires IsRing(g, r) && IsSpf(g, r.a, links, t)
    ensures forall n :: n in [r.x, r.y, r.d, r.v, r.u] ==> Reached(t, n) && CostOf(t.cost, n) == RingAway(r)(n)
  {
    ArmCosts(g, r, links, t);
    assert IsRing(g, Ring(r.a, r.u, r.v, r.d, r.y, r.x));
    ArmCosts(g, Ring(r.a, r.u, r.v, r.d, r.y, r.x), links, t);
  }

  lemma NearHops(g: Graph, r: Ring, links: map<ConnectionId, Link>, t: Tree)
    requires IsRing(g, r) && IsSpf(g, r.a, links, t)
    ensures r.u in t.nextHop && t.nextHop[r.u].peerId == r.u
    ensures r.v in t.nextHop && t.nextHop[r.v].peerId == r.u
  {
    RingCosts(g, r, links, t);
    assert r.u in [r.x, r.y, r.d, r.v, r.u] && r.v in [r.x, r.y, r.d, r.v, r.u];
    NearHop(g, r, links, t, r.u);
    NearHop(g, r, links, t, r.v);
  }

  lemma NearHop(g: Graph, r: Ring, links: map<ConnectionId, Link>, t: Tree, n: NodeId)
    requires IsRing(g, r) && IsSpf(g, r.a, links, t) && (n == r.u || n == r.v)
    requires Reached(t, n) && CostOf(t.cost, n) == RingAway(r)(n)
    ensures n in t.nextHop && t.nextHop[n].peerId == r.u
  {
    var p := Branch(g, r.a, links, t, n);
    ShortPath(g, r.a, RingAway(r), p);
  }

  /** Across the ring the far neighbour of smaller id is the parent. */
  lemma FarParent(g: Graph, r: Ring, links: map<ConnectionId, Link>, t: Tree)
    requires IsRing(g, r) && IsSpf(g, r.a, links, t) && r.v < r.y
    ensures r.d in t.parent && t.parent[r.d] == r.v
  {
    RingCosts(g, r, links, t);
    assert r.v in [r.x, r.y, r.d, r.v, r.u] && r.d in [r.x, r.y, r.d, r.v, r.u];
    assert Edge(g, r.v, r.d, 1);
    assert Tight(g, t.cost, r.v, r.d);
    TreeIsSound(g, r.a, links, t, r.d);
    ParentIsLeastTight(g, r.a, links, t, r.d, r.v);
    var w := t.parent[r.d];
    var a :| a in Adj(g, w) && a.peerId == r.d && t.cost[w] + a.cost == t.cost[r.d];
    assert Edge(g, w, r.d, a.cost);
    assert w == r.y || w == r.v;
  }

  lemma FarHop(g: Graph, r: Ring, links: map<ConnectionId, Link>, t: Tree)
    requires IsRing(g, r) && IsSpf(g, r.a, links, t) && r.v < r.y
    ensures r.d in t.nextHop && t.nextHop[r.d].peerId == r.u
  {
    RingCosts(g, r, links, t);
    FarParent(g, r, links, t);
    assert r.d in [r.x, r.y, r.d, r.v, r.u];
    var p := Branch(g, r.a, links, t, r.d);
    ShortPath(g, r.a, RingAway(r), p);
    ShortPath(g, r.a, RingAway(r), p.prev);
  }

  /** The ring may be read from any node and in either direction. */
  lemma Rotations(g: Graph, r: Ring)
    requires IsRing(g, r)
    ensures IsRing(g, Ring(r.u, r.a, r.x, r.y, r.d, r.v))
    ensures IsRing(g, Ring(r.v, r.u, r.a, r.x, r.y, r.d))
    ensures IsRing(g, Ring(r.d, r.v, r.u, r.a, r.x, r.y))
    ensures Symmetric(g) && Positive(g)
  {
  }

  /** The sites of a ring, each with its own view of it. */
  ghost predicate RingSites(g: Graph, sites: map<NodeId, Site>, net: Net, r: Ring) {
    && IsRing(g, r) && Consistent(g, sites, net)
    && forall n :: n in [r.a, r.x, r.y, r.d, r.v, r.u] ==> n in sites
  }

  lemma RingView(g: Graph, sites: map<NodeId, Site>, net: Net, r: Ring, n: NodeId)
    requires RingSites(g, sites, net, r) && n in sites
    ensures IsRing(sites[n].graph, r) && IsSpf(sites[n].graph, n, sites[n].links, sites[n].tree)
  {
    assert SiteOk(g, sites, net, n);
  }

  lemma WaysOut(g: Graph, sites: map<NodeId, Site>, net: Net, r: Ring)
    requires RingSites(g, sites, net, r) && r.v < r.y
    ensures r.a in sites && r.d in sites[r.a].tree.nextHop && sites[r.a].tree.nextHop[r.d].peerId == r.u
    ensures r.u in sites && r.d in sites[r.u].tree.nextHop && sites[r.u].tree.nextHop[r.d].peerId == r.v
    ensures r.v in sites && r.d in sites[r.v].tree.nextHop && sites[r.v].tree.nextHop[r.d].peerId == r.d
  {
    assert r.a in [r.a, r.x, r.y, r.d, r.v, r.u] && r.u in [r.a, r.x, r.y, r.d, r.v, r.u];
    assert r.v in [r.a, r.x, r.y, r.d, r.v, r.u];
    RingView(g, sites, net, r, r.a);
    RingView(g, sites, net, r, r.u);
    RingView(g, sites, net, r, r.v);
    Rotations(sites[r.u].graph, r);
    Rotations(sites[r.v].graph, r);
    FarHop(sites[r.a].graph, r, sites[r.a].links, sites[r.a].tree);
    NearHops(sites[r.u].graph, Ring(r.u, r.a, r.x, r.y, r.d, r.v), sites[r.u].links, sites[r.u].tree);
    NearHops(sites[r.v].graph, Ring(r.v, r.u, r.a, r.x, r.y, r.d), sites[r.v].links, sites[r.v].tree);
  }

  lemma WayBack(g: Graph, sites: map<NodeId, Site>, net: Net, r: Ring)
    requires RingSites(g, sites, net, r) && r.x < r.u
    ensures r.d in sites && r.a in sites[r.d].tree.nextHop && sites[r.d].tree.nextHop[r.a].peerId == r.y
  {
    assert r.d in [r.a, r.x, r.y, r.d, r.v, r.u];
    RingView(g, sites, net, r, r.d);
    Rotations(sites[r.d].graph, r);
    FarHop(sites[r.d].graph, Ring(r.d, r.v, r.u, r.a, r.x, r.y), sites[r.d].links, sites[r.d].tree);
  }

  /** Costs are positive, symmetric and far from saturation, and yet the way from
      a to d is over u and v, while d goes back to a over y. */
  lemma WaysDiffer(g: Graph, sites: map<NodeId, Site>, net: Net, r: Ring)
    requires RingSites(g, sites, net, r) && r.v < r.y && r.x < r.u
    ensures Symmetric(g) && Positive(g)
    ensures LeadsTo(sites, r.d, [r.a, r.u, r.v, r.d])
    ensures !BackAt(sites, [r.a, r.u, r.v, r.d], 3)
  {
    Rotations(g, r);
    WaysOut(g, sites, net, r);
    WayBack(g, sites, net, r);
    forall i: nat ensures HopsOn(sites, r.d, [r.a, r.u, r.v, r.d], i) {
    }
  }

  /** Every lossless run from a to d ends with nothing delivered. */
  lemma EqualCostsDropPackets(g: Graph, sites: map<NodeId, Site>, net: Net, r: Ring, to: Address, l: Listener,
                              run: seq<State>, k: nat)
    requires RingSites(g, sites, net, r) && r.v < r.y && r.x < r.u && OwnedBy(sites, to, r.d, l)
    requires LosslessRun(net, to, r.a, run) && k < |run| && run[k].inflight == multiset{}
    ensures run[k].delivered == multiset{}
  {
    WaysDiffer(g, sites, net, r);
    var chain := [r.a, r.u, r.v, r.d];
    UnicastExactly(g, sites, net, to, r.d, l, chain, run, k);
    assert !BackAt(sites, chain, 3);
  }

  /** And there is such a run. */
  lemma DroppingRun(g: Graph, sites: map<NodeId, Site>, net: Net, r: Ring, to: Address, l: Listener)
      returns (run: seq<State>)
    requires RingSites(g, sites, net, r) && r.v < r.y && r.x < r.u && OwnedBy(sites, to, r.d, l)
    requires forall a :: a in net.wires ==> net.wires[a].node in net.fibs
    ensures LosslessRun(net, to, r.a, run)
    ensures run[|run| - 1].inflight == multiset{} && run[|run| - 1].delivered == multiset{}
  {
    assert r.a in [r.a, r.x, r.y, r.d, r.v, r.u];
    ConsistentNetOk(g, sites, net);
    run := RunToEnd(net, to, r.a);
    EqualCostsDropPackets(g, sites, net, r, to, l, run, |run| - 1);
  }

  function RingGraph(r: Ring): Graph {
    map n | n in r.Nodes() :: Both(r.Peer(n, 1), r.Peer(n, 2))
  }

  function Both(m: NodeId, n: NodeId): seq<Adjacency> {
    [Adjacency(1, m, 1, {Global}), Adjacency(2, n, 1, {Global})]
  }

  /** Such a topology exists: six nodes with two links each. */
  lemma RingExists(r: Ring)
    requires r.Proper()
    ensures IsRing(RingGraph(r), r)
  {
    forall m, n, w ensures Edge(RingGraph(r), m, n, w) <==> w == 1 && r.Adjacent(m, n) {
      RingEdge(r, m, n, w);
      if m in r.Nodes() {
        RingPeers(r, m, n);
      }
    }
  }

  lemma RingEdge(r: Ring, m: NodeId, n: NodeId, w: Cost)
    ensures Edge(RingGraph(r), m, n, w) <==> m in r.Nodes() && w == 1 && (n == r.Peer(m, 1) || n == r.Peer(m, 2))
  {
    if m in r.Nodes() {
      var all := Adj(RingGraph(r), m);
      assert all == Both(r.Peer(m, 1), r.Peer(m, 2)) && all[0] in all && all[1] in all;
    }
  }

  lemma RingPeers(r: Ring, m: NodeId, n: NodeId)
    requires r.Proper() && m in r.Nodes()
    ensures r.Adjacent(m, n) <==> n == r.Peer(m, 1) || n == r.Peer(m, 2)
  {
  }

  function RingWires(r: Ring): map<End, End> {
    map n, c: ConnectionId | n in r.Nodes() && c in {1, 2} :: End(n, c) := r.Far(End(n, c))
  }

  /** A node of the ring before it has computed its tree: its two links, and the one
      unicast endpoint, which has its listener at d. */
  function RingPlan(r: Ring, e: EndpointId, l: Listener, n: NodeId): Site {
    Site(RingGraph(r),
         map[1 := Link(r.Peer(n, 1), 1, {Global}, 1), 2 := Link(r.Peer(n, 2), 2, {Global}, 1)],
         Tree(map[], map[], map[]),
         map[e := RouteEntry([Route(if n == r.d then ToListener(l) else ToNode(r.d), 1, Global, Unicast)], Unicast)])
  }

  function RingPlans(r: Ring, e: EndpointId, l: Listener): map<NodeId, Site> {
    map n | n in r.Nodes() :: RingPlan(r, e, l, n)
  }

  lemma FarAndBack(r: Ring, n: NodeId, c: ConnectionId)
    requires r.Proper() && n in r.Nodes() && c in {1, 2}
    ensures var far := r.Far(End(n, c));
            far.node in r.Nodes() && far.conn in {1, 2} && r.Far(far) == End(n, c) && r.Peer(far.node, far.conn) == n
    ensures r.Peer(n, 1) != r.Peer(n, 2)
  {
  }

  lemma RingWired(r: Ring, e: EndpointId, l: Listener)
    requires r.Proper()
    ensures LinksOk(RingPlans(r, e, l), Net(map[], RingWires(r)))
  {
    RingLinksApart(r, e, l);
    RingEndsWired(r, e, l);
    RingWiresApart(r);
  }

  lemma RingLinksApart(r: Ring, e: EndpointId, l: Listener)
    requires r.Proper()
    ensures var plans := RingPlans(r, e, l);
            forall x, c, d | x in plans && c in plans[x].links && d in plans[x].links ::
              plans[x].links[c].peerId == plans[x].links[d].peerId ==> c == d
  {
    var plans := RingPlans(r, e, l);
    forall x, c, d | x in plans && c in plans[x].links && d in plans[x].links
      ensures plans[x].links[c].peerId == plans[x].links[d].peerId ==> c == d
    {
      FarAndBack(r, x, c);
    }
  }

  lemma RingEndsWired(r: Ring, e: EndpointId, l: Listener)
    requires r.Proper()
    ensures var plans, net := RingPlans(r, e, l), Net(map[], RingWires(r));
            forall x, c {:trigger Wired(plans, net, x, c)} ::
              x in plans && c in plans[x].links ==> Wired(plans, net, x, c)
  {
    var plans, net := RingPlans(r, e, l), Net(map[], RingWires(r));
    forall x, c | x in plans && c in plans[x].links ensures Wired(plans, net, x, c) {
      FarAndBack(r, x, c);
    }
  }

  lemma RingWiresApart(r: Ring)
    requires r.Proper()
    ensures var wires := RingWires(r); forall p, q :: p in wires && q in wires && wires[p] == wires[q] ==> p == q
  {
    var wires := RingWires(r);
    forall p, q | p in wires && q in wires && wires[p] == wires[q] ensures p == q {
      FarAndBack(r, p.node, p.conn);
      FarAndBack(r, q.node, q.conn);
    }
  }

  lemma RingCovered(r: Ring, e: EndpointId, l: Listener)
    requires r.Proper()
    ensures PlansOk(RingGraph(r), RingPlans(r, e, l))
  {
    var g, plans := RingGraph(r), RingPlans(r, e, l);
    forall x | x in plans ensures PlanOk(g, x, plans[x]) {
      RingLinksCover(r, e, l, x);
    }
  }

  lemma RingLinksCover(r: Ring, e: EndpointId, l: Listener, x: NodeId)
    requires x in r.Nodes()
    ensures LinksCover(RingGraph(r), x, RingPlan(r, e, l, x).links)
  {
    var links := RingPlan(r, e, l, x).links;
    assert links[1] in links.Values && links[2] in links.Values;
  }

  lemma RingOwned(r: Ring, e: EndpointId, l: Listener, sites: map<NodeId, Site>)
    requires sites.Keys == r.Nodes() && forall x :: x in sites ==> sites[x].routes == RingPlan(r, e, l, x).routes
    ensures OwnedBy(sites, Address.Endpoint(e), r.d, l)
  {
    assert r.d in r.Nodes();
    forall x | x in sites ensures RoutesTo(sites, Address.Endpoint(e), r.d, l, x) {
    }
  }

  /** Nodes on a ring, with one unicast endpoint at d, form such a network. */
  lemma RingNetworkExists(r: Ring, e: EndpointId, l: Listener) returns (sites: map<NodeId, Site>, net: Net)
    requires r.Proper()
    ensures RingSites(RingGraph(r), sites, net, r) && OwnedBy(sites, Address.Endpoint(e), r.d, l)
    ensures net.wires == RingWires(r) && sites.Keys == r.Nodes()
  {
    assert Positive(RingGraph(r)) && IsRing(RingGraph(r), r) by {
      RingExists(r);
      Rotations(RingGraph(r), r);
    }
    assert LinksOk(RingPlans(r, e, l), Net(map[], RingWires(r))) by {
      RingWired(r, e, l);
    }
    RingCovered(r, e, l);
    sites, net := NetworkExists(RingGraph(r), RingPlans(r, e, l), RingWires(r));
    RingOwned(r, e, l, sites);
  }

  /** A packet that is lost: on the ring 0 - 1 - 4 - 5 - 2 - 3 - 0, from 0 to 5, with
      nothing refused by any queue and no link down. */
  lemma LostPacket(e: EndpointId, l: Listener)
      returns (sites: map<NodeId, Site>, net: Net, run: seq<State>)
    ensures var r := Ring(0, 1, 4, 5, 2, 3);
            && RingSites(RingGraph(r), sites, net, r) && OwnedBy(sites, Address.Endpoint(e), r.d, l)
            && LosslessRun(net, Address.Endpoint(e), r.a, run)
            && run[|run| - 1].inflight == multiset{} && run[|run| - 1].delivered == multiset{}
  {
    var r := Ring(0, 1, 4, 5, 2, 3);
    sites, net := RingNetworkExists(r, e, l);
    forall p | p in net.wires ensures net.wires[p].node in net.fibs {
      FarAndBack(r, p.node, p.conn);
    }
    run := DroppingRun(RingGraph(r), sites, net, r, Address.Endpoint(e), l);
  }

  // ----------------------------------------------------------- a ring of four

  // The nodes in ring order: a - x - d - y - a.
  datatype Square = Square(a: NodeId, x: NodeId, d: NodeId, y: NodeId) {
    predicate Adjacent(m: NodeId, n: NodeId) {
      ((m == a || m == d) && (n == x || n == y)) || ((m == x || m == y) && (n == a || n == d))
    }

    predicate Proper() {
      a !in {x, d, y} && x !in {d, y} && d != y
    }
  }

  ghost predicate IsSquare(g: Graph, q: Square) {
    q.Proper() && forall m, n, w :: Edge(g, m, n, w) <==> w == 1 && q.Adjacent(m, n)
  }

  function SquareAway(q: Square): NodeId -> nat {
    n => if n == q.a then 0 else if n == q.x || n == q.y then 1 else 2
  }

  /** From a the neighbours are reached directly and d over the one of smaller id. */
  lemma SquareHops(g: Graph, q: Square, links: map<ConnectionId, Link>, t: Tree)
    requires IsSquare(g, q) && IsSpf(g, q.a, links, t)
    ensures q.x in t.nextHop && t.nextHop[q.x].peerId == q.x
    ensures q.y in t.nextHop && t.nextHop[q.y].peerId == q.y
    ensures q.x < q.y ==> q.d in t.nextHop && t.nextHop[q.d].peerId == q.x
  {
    SquareCosts(g, q, links, t);
    var p := Branch(g, q.a, links, t, q.x);
    ShortPath(g, q.a, SquareAway(q), p);
    p := Branch(g, q.a, links, t, q.y);
    ShortPath(g, q.a, SquareAway(q), p);
    if q.x < q.y {
      p := Branch(g, q.a, links, t, q.d);
      ShortPath(g, q.a, SquareAway(q), p);
      SquareParent(g, q, links, t);
    }
  }

  lemma SquareCosts(g: Graph, q: Square, links: map<ConnectionId, Link>, t: Tree)
    requires IsSquare(g, q) && IsSpf(g, q.a, links, t)
    ensures Layered(g, q.a, SquareAway(q))
    ensures CostOf(t.cost, q.x) == 1 && CostOf(t.cost, q.y) == 1 && CostOf(t.cost, q.d) == 2
  {
    var away := SquareAway(q);
    assert Layered(g, q.a, away);
    assert Edge(g, q.a, q.x, 1) && Edge(g, q.a, q.y, 1) && Edge(g, q.x, q.d, 1);
    var x := Onwards(g, q.a, away, Path.Start(q.a), q.x);
    var y := Onwards(g, q.a, away, Path.Start(q.a), q.y);
    var d := Onwards(g, q.a, away, x, q.d);
    LayerIsCost(g, q.a, away, links, t, x);
    LayerIsCost(g, q.a, away, links, t, y);
    LayerIsCost(g, q.a, away, links, t, d);
  }

  lemma SquareParent(g: Graph, q: Square, links: map<ConnectionId, Link>, t: Tree)
    requires IsSquare(g, q) && IsSpf(g, q.a, links, t) && q.x < q.y
    requires CostOf(t.cost, q.x) == 1 && CostOf(t.cost, q.y) == 1 && CostOf(t.cost, q.d) == 2
    ensures q.d in t.parent && t.parent[q.d] == q.x
  {
    assert Edge(g, q.x, q.d, 1) && Reached(t, q.d);
    assert Tight(g, t.cost, q.x, q.d);
    TreeIsSound(g, q.a, links, t, q.d);
    ParentIsLeastTight(g, q.a, links, t, q.d, q.x);
    var w := t.parent[q.d];
    var a :| a in Adj(g, w) && a.peerId == q.d && t.cost[w] + a.cost == t.cost[q.d];
    assert Edge(g, w, q.d, a.cost);
    assert w == q.x || w == q.y;
  }

  lemma SquareView(g: Graph, sites: map<NodeId, Site>, net: Net, q: Square, n: NodeId)
    requires IsSquare(g, q) && Consistent(g, sites, net) && n in sites
    ensures IsSquare(sites[n].graph, q) && IsSpf(sites[n].graph, n, sites[n].links, sites[n].tree)
  {
    assert SiteOk(g, sites, net, n);
  }

  lemma SquareWays(g: Graph, sites: map<NodeId, Site>, net: Net, q: Square)
    requires IsSquare(g, q) && Consistent(g, sites, net) && q.x < q.y && q.a in sites && q.x in sites && q.d in sites
    ensures LeadsTo(sites, q.d, [q.a, q.x, q.d]) && Retraced(sites, [q.a, q.x, q.d], 3)
  {
    SquareWaysOut(g, sites, net, q);
    SquareWaysBack(g, sites, net, q);
    var chain := [q.a, q.x, q.d];
    forall i: nat ensures HopsOn(sites, q.d, chain, i) {
    }
    forall i: nat | 0 < i < 3 ensures BackAt(sites, chain, i) {
    }
  }

  lemma SquareWaysOut(g: Graph, sites: map<NodeId, Site>, net: Net, q: Square)
    requires IsSquare(g, q) && Consistent(g, sites, net) && q.x < q.y && q.a in sites && q.d in sites
    ensures q.d in sites[q.a].tree.nextHop && sites[q.a].tree.nextHop[q.d].peerId == q.x
    ensures q.a in sites[q.d].tree.nextHop && sites[q.d].tree.nextHop[q.a].peerId == q.x
  {
    SquareView(g, sites, net, q, q.a);
    SquareView(g, sites, net, q, q.d);
    SquareHops(sites[q.a].graph, q, sites[q.a].links, sites[q.a].tree);
    SquareHops(sites[q.d].graph, Square(q.d, q.x, q.a, q.y), sites[q.d].links, sites[q.d].tree);
  }

  lemma SquareWaysBack(g: Graph, sites: map<NodeId, Site>, net: Net, q: Square)
    requires IsSquare(g, q) && Consistent(g, sites, net) && q.x in sites
    ensures q.a in sites[q.x].tree.nextHop && sites[q.x].tree.nextHop[q.a].peerId == q.a
    ensures q.d in sites[q.x].tree.nextHop && sites[q.x].tree.nextHop[q.d].peerId == q.d
  {
    SquareView(g, sites, net, q, q.x);
    SquareHops(sites[q.x].graph, Square(q.x, q.a, q.y, q.d), sites[q.x].links, sites[q.x].tree);
  }

  /** On a ring of four the ties are broken the same way in both directions, and
      the packet always arrives: unique shortest paths are not needed. */
  lemma TiesCanDeliver(g: Graph, sites: map<NodeId, Site>, net: Net, q: Square, to: Address, l: Listener,
                       run: seq<State>, k: nat)
    requires IsSquare(g, q) && Consistent(g, sites, net) && q.x < q.y && q.a in sites && q.x in sites && q.d in sites
    requires OwnedBy(sites, to, q.d, l)
    requires LosslessRun(net, to, q.a, run) && k < |run| && run[k].inflight == multiset{}
    ensures run[k].delivered == multiset{Receipt(q.d, l)}
  {
    SquareWays(g, sites, net, q);
    UnicastExactly(g, sites, net, to, q.d, l, [q.a, q.x, q.d], run, k);
  }
}
