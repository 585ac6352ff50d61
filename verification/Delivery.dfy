/** Unicast, remote and anycast packets: exactly when they arrive, for whatever
    tables, and that they always do where shortest paths are unique. */
module Delivery {
  import opened Routing
  import opened Routes
  import opened Paths
  import opened Spf
  import opened SpfTheorems
  import opened Forwarding
  import opened PacketNet
  import opened Trails
  import opened Agreement

  // ------------------------------------------------------------ forward routes

  /** One link per neighbour, and every next hop is an own link to another node.
      The tables need not agree. */
  ghost predicate Placed(sites: map<NodeId, Site>, net: Net) {
    && LinksOk(sites, net) && net.fibs.Keys == sites.Keys
    && forall x {:trigger PlacedAt(sites, net, x)} :: x in sites ==> PlacedAt(sites, net, x)
  }

  ghost predicate PlacedAt(sites: map<NodeId, Site>, net: Net, x: NodeId)
    requires x in sites
  {
    && x in net.fibs && net.fibs[x].ourId == x && net.fibs[x].nextHop == sites[x].tree.nextHop
    && forall n :: n in sites[x].tree.nextHop ==> n != x && sites[x].tree.nextHop[n] in sites[x].links.Values
  }

  lemma ConsistentIsPlaced(g: Graph, sites: map<NodeId, Site>, net: Net)
    requires Consistent(g, sites, net)
    ensures Placed(sites, net)
  {
    forall x | x in sites ensures PlacedAt(sites, net, x) {
      assert SiteOk(g, sites, net, x);
      forall n | n in sites[x].tree.nextHop ensures n != x && sites[x].tree.nextHop[n] in sites[x].links.Values {
        TreeIsSound(sites[x].graph, x, sites[x].links, sites[x].tree, n);
      }
    }
  }

  /** The only hop of a node's entry. */
  function EntryHop(net: Net, to: Address, x: NodeId): Option<Hop> {
    if x !in net.fibs then None
    else
      match Lookup(net.fibs[x], to.GetEndpoint(x))
      case Some(Single(hop)) => Some(hop)
      case _ => None
  }

  /** x's entry is a link to y. */
  ghost predicate PointsTo(sites: map<NodeId, Site>, net: Net, to: Address, x: NodeId, y: NodeId) {
    && x in sites && y in sites
    && EntryHop(net, to, x).Some? && EntryHop(net, to, x).value.Remote?
    && EntryHop(net, to, x).value.link in sites[x].links.Values
    && EntryHop(net, to, x).value.link.peerId == y
  }

  /** The way the tables lead: from link to link, and at the end to a listener. */
  ghost predicate ForwardRoute(sites: map<NodeId, Site>, net: Net, to: Address, chain: seq<NodeId>, l: Listener) {
    && chain != [] && chain[|chain| - 1] in sites
    && EntryHop(net, to, chain[|chain| - 1]) == Some(Local(l))
    && forall i: nat {:trigger PointsAt(sites, net, to, chain, i)} :: PointsAt(sites, net, to, chain, i)
  }

  ghost predicate PointsAt(sites: map<NodeId, Site>, net: Net, to: Address, chain: seq<NodeId>, i: nat) {
    i + 1 < |chain| ==> PointsTo(sites, net, to, chain[i], chain[i + 1])
  }

  /** A route that ends never comes back to a node. */
  lemma {:induction false} RouteIsDistinct(sites: map<NodeId, Site>, net: Net, to: Address, chain: seq<NodeId>,
      l: Listener, i: nat, j: nat)
    requires ForwardRoute(sites, net, to, chain, l) && i < j < |chain|
    ensures chain[i] != chain[j]
    decreases |chain| - j
  {
    assert PointsAt(sites, net, to, chain, i) && PointsAt(sites, net, to, chain, j);
    if j + 1 < |chain| {
      RouteIsDistinct(sites, net, to, chain, l, i + 1, j + 1);
    }
  }

  lemma RouteFits(sites: map<NodeId, Site>, net: Net, to: Address, chain: seq<NodeId>, l: Listener)
    requires ForwardRoute(sites, net, to, chain, l)
    ensures |chain| <= |sites|
  {
    forall i, j | 0 <= i < j < |chain| ensures chain[i] != chain[j] {
      RouteIsDistinct(sites, net, to, chain, l, i, j);
    }
    forall x | x in chain ensures x in sites.Keys {
      var i: nat :| i < |chain| && chain[i] == x;
      assert PointsAt(sites, net, to, chain, i);
    }
    CountDistinct(chain);
    SubsetSize(Elements(chain), sites.Keys);
  }

  lemma {:induction false} SubsetSize(a: set<NodeId>, b: set<NodeId>)
    requires a <= b
    ensures |a| <= |b|
  {
    if a != {} {
      var x :| x in a;
      SubsetSize(a - {x}, b - {x});
    }
  }

  /** The first n nodes of a route would each go back to its start by the node before. */
  ghost predicate Retraced(sites: map<NodeId, Site>, chain: seq<NodeId>, n: nat) {
    forall i: nat {:trigger BackAt(sites, chain, i)} :: 0 < i < n && i < |chain| ==> BackAt(sites, chain, i)
  }

  ghost predicate BackAt(sites: map<NodeId, Site>, chain: seq<NodeId>, i: nat)
    requires 0 < i < |chain|
  {
    && chain[i] in sites && chain[0] in sites[chain[i]].tree.nextHop
    && sites[chain[i]].tree.nextHop[chain[0]].peerId == chain[i - 1]
  }

  // ------------------------------------------------- the state at every step

  function FarEnd(net: Net, to: Address, x: NodeId): Option<End> {
    match EntryHop(net, to, x)
    case Some(hop) =>
      if hop.Remote? && End(x, hop.link.connectionId) in net.wires then
        Some(net.wires[End(x, hop.link.connectionId)])
      else None
    case None => None
  }

  /** The packet has been accepted up to the j-th node and is on its way to the next. */
  ghost predicate OnWay(sites: map<NodeId, Site>, net: Net, to: Address, chain: seq<NodeId>, st: State, j: nat) {
    && j + 1 < |chain| && Retraced(sites, chain, j + 1) && FarEnd(net, to, chain[j]).Some?
    && st == State(multiset{FarEnd(net, to, chain[j]).value}, chain[1..j + 1], multiset{})
  }

  ghost predicate Arrived(sites: map<NodeId, Site>, chain: seq<NodeId>, l: Listener, st: State) {
    && chain != [] && Retraced(sites, chain, |chain|)
    && st == State(multiset{}, chain[1..], multiset{Receipt(chain[|chain| - 1], l)})
  }

  /** The node after the j-th goes back another way, and has refused the packet. */
  ghost predicate Refused(sites: map<NodeId, Site>, chain: seq<NodeId>, st: State, j: nat) {
    && j + 1 < |chain| && Retraced(sites, chain, j + 1) && !BackAt(sites, chain, j + 1)
    && st == State(multiset{}, chain[1..j + 1], multiset{})
  }

  ghost predicate StateAt(sites: map<NodeId, Site>, net: Net, to: Address, chain: seq<NodeId>, l: Listener, st: State,
                          k: nat) {
    || OnWay(sites, net, to, chain, st, k)
    || (Arrived(sites, chain, l, st) && k == |chain| - 1)
    || (k > 0 && Refused(sites, chain, st, k - 1))
  }

  lemma CopiesOne(net: Net, x: NodeId, hop: Hop)
    ensures Copies(net, x, [hop]) ==
            if hop.Remote? && End(x, hop.link.connectionId) in net.wires
            then multiset{net.wires[End(x, hop.link.connectionId)]} else multiset{}
    ensures Receipts(x, [hop]) == if hop.Local? then multiset{Receipt(x, hop.listener)} else multiset{}
  {
    assert [hop][1..] == [];
    assert Copies(net, x, [hop][1..]) == multiset{};
    assert Receipts(x, [hop][1..]) == multiset{};
  }

  lemma SingleForward(fib: ForwardingTable, to: Address, from: NodeId, conn: ConnectionId, hop: Hop)
    requires Accepts(fib, from, conn) && Lookup(fib, to.GetEndpoint(fib.ourId)) == Some(Single(hop))
    requires hop.Remote? ==> !OnBackPath(fib, from, hop.link)
    ensures ForwardHops(fib, to, from, conn) == [hop]
  {
    assert [hop][1..] == [];
    assert Locals([hop]) == if hop.Local? then [hop] else [];
    assert Onward(fib, from, [hop]) == if hop.Remote? then [hop] else [];
  }

  /** A link leads to the one end at which its neighbour accepts exactly if the
      neighbour goes back to the sender over it. */
  lemma WireIsWayBack(sites: map<NodeId, Site>, net: Net, from: NodeId, y: NodeId, link: Link)
    requires Placed(sites, net) && y in sites && link in sites[y].links.Values
    ensures End(y, link.connectionId) in net.wires && link.peerId in sites && link.peerId in net.fibs
    ensures var far := net.wires[End(y, link.connectionId)];
            && far.node == link.peerId
            && (Accepts(net.fibs[far.node], from, far.conn) <==>
                  from in sites[far.node].tree.nextHop && sites[far.node].tree.nextHop[from].peerId == y)
  {
    var c :| c in sites[y].links && sites[y].links[c] == link;
    assert Wired(sites, net, y, c);
    var x := link.peerId;
    assert PlacedAt(sites, net, x);
    if from in sites[x].tree.nextHop {
      var d :| d in sites[x].links && sites[x].links[d] == sites[x].tree.nextHop[from];
    }
  }

  /** The next node accepts the packet exactly if it goes back by the node before. */
  lemma AcceptsIffBack(sites: map<NodeId, Site>, net: Net, to: Address, chain: seq<NodeId>, l: Listener, j: nat)
    requires Placed(sites, net) && ForwardRoute(sites, net, to, chain, l) && j + 1 < |chain|
    ensures FarEnd(net, to, chain[j]).Some?
    ensures var far := FarEnd(net, to, chain[j]).value;
            && far.node == chain[j + 1] && far.node in net.fibs && net.fibs[far.node].ourId == far.node
            && (Accepts(net.fibs[far.node], chain[0], far.conn) <==> BackAt(sites, chain, j + 1))
  {
    assert PointsAt(sites, net, to, chain, j);
    WireIsWayBack(sites, net, chain[0], chain[j], EntryHop(net, to, chain[j]).value.link);
    assert PlacedAt(sites, net, chain[j + 1]);
  }

  /** A node that has accepted the packet hands it to its one hop. */
  lemma HandsToHop(sites: map<NodeId, Site>, net: Net, to: Address, chain: seq<NodeId>, l: Listener, j: nat,
                   conn: ConnectionId)
    requires Placed(sites, net) && ForwardRoute(sites, net, to, chain, l) && 0 < j < |chain|
    requires BackAt(sites, chain, j) && chain[j] in net.fibs && Accepts(net.fibs[chain[j]], chain[0], conn)
    ensures EntryHop(net, to, chain[j]).Some?
    ensures ForwardHops(net.fibs[chain[j]], to, chain[0], conn) == [EntryHop(net, to, chain[j]).value]
  {
    assert PointsAt(sites, net, to, chain, j);
    assert PlacedAt(sites, net, chain[j]);
    if j + 1 < |chain| {
      RouteIsDistinct(sites, net, to, chain, l, j - 1, j + 1);
    }
    SingleForward(net.fibs[chain[j]], to, chain[0], conn, EntryHop(net, to, chain[j]).value);
  }

  lemma InjectAt(sites: map<NodeId, Site>, net: Net, to: Address, chain: seq<NodeId>, l: Listener)
    requires Placed(sites, net) && ForwardRoute(sites, net, to, chain, l) && chain[0] in net.fibs
    ensures StateAt(sites, net, to, chain, l, Inject(net, to, chain[0], AllOpen), 0)
  {
    assert PlacedAt(sites, net, chain[0]) by {
      assert PointsAt(sites, net, to, chain, 0);
    }
    SentFrom(sites, net, to, chain, l, 0);
    AllTaken([EntryHop(net, to, chain[0]).value]);
    assert SendHops(net.fibs[chain[0]], to) == [EntryHop(net, to, chain[0]).value];
  }

  lemma ArriveFrom(sites: map<NodeId, Site>, net: Net, to: Address, chain: seq<NodeId>, l: Listener, st: State, j: nat,
                   at: End)
    requires Placed(sites, net) && ForwardRoute(sites, net, to, chain, l) && OnWay(sites, net, to, chain, st, j)
    requires at in st.inflight && at.node in net.fibs
    ensures StateAt(sites, net, to, chain, l, Arrive(net, to, chain[0], st, at, AllOpen), j + 1)
  {
    AcceptsIffBack(sites, net, to, chain, l, j);
    var st' := Arrive(net, to, chain[0], st, at, AllOpen);
    AllTaken(ForwardHops(net.fibs[at.node], to, chain[0], at.conn));
    if BackAt(sites, chain, j + 1) {
      AcceptFrom(sites, net, to, chain, l, st, j, at);
    } else {
      assert ForwardHops(net.fibs[at.node], to, chain[0], at.conn) == [];
      assert st'.inflight == multiset{};
      assert Refused(sites, chain, st', j);
    }
  }

  lemma AcceptFrom(sites: map<NodeId, Site>, net: Net, to: Address, chain: seq<NodeId>, l: Listener, st: State, j: nat,
                   at: End)
    requires Placed(sites, net) && ForwardRoute(sites, net, to, chain, l) && OnWay(sites, net, to, chain, st, j)
    requires at == FarEnd(net, to, chain[j]).value && at.node == chain[j + 1] && at.node in net.fibs
    requires BackAt(sites, chain, j + 1) && Accepts(net.fibs[at.node], chain[0], at.conn)
    ensures StateAt(sites, net, to, chain, l, Arrive(net, to, chain[0], st, at, AllOpen), j + 1)
  {
    HandsToHop(sites, net, to, chain, l, j + 1, at.conn);
    SentFrom(sites, net, to, chain, l, j + 1);
    ArriveAndHand(net, to, chain[0], st, at, EntryHop(net, to, at.node).value);
    NowAt(sites, net, to, chain, l, Arrive(net, to, chain[0], st, at, AllOpen), j + 1);
  }

  lemma ArriveAndHand(net: Net, to: Address, from: NodeId, st: State, at: End, hop: Hop)
    requires at.node in net.fibs && Accepts(net.fibs[at.node], from, at.conn)
    requires ForwardHops(net.fibs[at.node], to, from, at.conn) == [hop]
    ensures Arrive(net, to, from, st, at, AllOpen) ==
            State(st.inflight - multiset{at} + Copies(net, at.node, [hop]), st.accepted + [at.node],
                  st.delivered + Receipts(at.node, [hop]))
  {
    AllTaken([hop]);
  }

  lemma NowAt(sites: map<NodeId, Site>, net: Net, to: Address, chain: seq<NodeId>, l: Listener, st: State, j: nat)
    requires 0 < j < |chain| && Retraced(sites, chain, j) && BackAt(sites, chain, j)
    requires st.accepted == chain[1..j] + [chain[j]]
    requires if j + 1 < |chain| then
               FarEnd(net, to, chain[j]).Some? && st.inflight == multiset{FarEnd(net, to, chain[j]).value}
             else st.inflight == multiset{}
    requires st.delivered == if j + 1 < |chain| then multiset{} else multiset{Receipt(chain[j], l)}
    ensures StateAt(sites, net, to, chain, l, st, j)
  {
    assert st.accepted == chain[1..j + 1];
    assert Retraced(sites, chain, j + 1);
    if j + 1 == |chain| {
      assert chain[1..j + 1] == chain[1..];
    }
  }

  /** What a node on the route sends or delivers. */
  lemma SentFrom(sites: map<NodeId, Site>, net: Net, to: Address, chain: seq<NodeId>, l: Listener, j: nat)
    requires Placed(sites, net) && ForwardRoute(sites, net, to, chain, l) && j < |chain|
    ensures EntryHop(net, to, chain[j]).Some? && (j + 1 < |chain| ==> FarEnd(net, to, chain[j]).Some?)
    ensures Copies(net, chain[j], [EntryHop(net, to, chain[j]).value]) ==
            if j + 1 < |chain| then multiset{FarEnd(net, to, chain[j]).value} else multiset{}
    ensures Receipts(chain[j], [EntryHop(net, to, chain[j]).value]) ==
            if j + 1 < |chain| then multiset{} else multiset{Receipt(chain[j], l)}
  {
    assert PointsAt(sites, net, to, chain, j);
    CopiesOne(net, chain[j], EntryHop(net, to, chain[j]).value);
    if j + 1 < |chain| {
      AcceptsIffBack(sites, net, to, chain, l, j);
    }
  }

  lemma {:induction false} StateAlongRoute(sites: map<NodeId, Site>, net: Net, to: Address, chain: seq<NodeId>,
                                           l: Listener, run: seq<State>, k: nat)
    requires Placed(sites, net) && ForwardRoute(sites, net, to, chain, l)
    requires LosslessRun(net, to, chain[0], run) && k < |run|
    ensures StateAt(sites, net, to, chain, l, run[k], k)
  {
    if k == 0 {
      InjectAt(sites, net, to, chain, l);
    } else {
      StateAlongRoute(sites, net, to, chain, l, run, k - 1);
      var at := ArrivalAt(net, to, chain[0], run, k - 1);
      ArriveFrom(sites, net, to, chain, l, run[k - 1], k - 1, at);
    }
  }

  /** Over any tables that lead to a listener, a lossless run is over after fewer
      steps than the route has nodes, and the packet has been delivered, once and
      to nobody else, if and only if every node on the route goes back to the
      sender by the node before. */
  lemma RouteDecides(sites: map<NodeId, Site>, net: Net, to: Address, chain: seq<NodeId>, l: Listener, run: seq<State>,
                     k: nat)
    requires Placed(sites, net) && ForwardRoute(sites, net, to, chain, l)
    requires LosslessRun(net, to, chain[0], run) && k < |run|
    ensures k < |chain| <= |sites|
    ensures run[k].inflight == multiset{} ==>
              run[k].delivered ==
              if Retraced(sites, chain, |chain|) then multiset{Receipt(chain[|chain| - 1], l)} else multiset{}
    ensures run[k].inflight != multiset{} ==> OnWay(sites, net, to, chain, run[k], k)
  {
    StateAlongRoute(sites, net, to, chain, l, run, k);
    RouteFits(sites, net, to, chain, l);
  }

  // ---------------------------------------------------- descending a potential

  /** A cost-to-go that every node's entry descends: the entry is either the one
      listener to deliver to, or a link over which the cost drops by exactly the
      link's cost. Between any two nodes it differs by at most their distance. */
  ghost predicate Descends(g: Graph, sites: map<NodeId, Site>, net: Net, to: Address, total: NodeId -> Cost) {
    && (forall x {:trigger EntryDescends(g, sites, net, to, total, x)} ::
          x in sites && total(x) < MAX_COST ==> EntryDescends(g, sites, net, to, total, x))
    && (forall a, b {:trigger Lipschitz(sites, total, a, b)} :: Lipschitz(sites, total, a, b))
  }

  ghost predicate Lipschitz(sites: map<NodeId, Site>, total: NodeId -> Cost, a: NodeId, b: NodeId) {
    a in sites && b in sites ==> total(a) <= Dist(sites, a, b) + total(b)
  }

  ghost predicate EntryDescends(g: Graph, sites: map<NodeId, Site>, net: Net, to: Address, total: NodeId -> Cost,
                                x: NodeId)
    requires x in sites
  {
    && x in net.fibs && to.GetEndpoint(x) in net.fibs[x].table && net.fibs[x].table[to.GetEndpoint(x)].Single?
    && match net.fibs[x].table[to.GetEndpoint(x)].hop
       case Local(_) => true
       case Remote(link) =>
         && link in sites[x].links.Values && link.peerId in sites
         && exists w: Cost :: Edge(g, x, link.peerId, w) && total(x) == w + total(link.peerId)
  }

  /** The packet sits at x, having travelled a shortest path from the sender, with
      exactly the rest of the sender's total still to go. */
  ghost predicate OnCourse(sites: map<NodeId, Site>, from: NodeId, total: NodeId -> Cost, x: NodeId) {
    x in sites && from in sites && Dist(sites, from, x) + total(x) == total(from) < MAX_COST
  }

  /** One copy is in flight to v, and v will accept it. */
  ghost predicate InFlight(g: Graph, sites: map<NodeId, Site>, net: Net, from: NodeId, total: NodeId -> Cost, st: State,
                           v: NodeId) {
    && OnCourse(sites, from, total, v) && v in net.fibs && from in net.fibs[v].nextHop
    && st.inflight == multiset{BackEnd(net, from, v)} && st.delivered == multiset{}
    && Accepts(net.fibs[v], from, BackEnd(net, from, v).conn)
    && net.fibs[v].nextHop[from].peerId in sites && total(net.fibs[v].nextHop[from].peerId) > total(v)
  }

  /** Along a route that descends a potential every node is on course. */
  lemma {:induction false} CourseAlong(g: Graph, sites: map<NodeId, Site>, net: Net, to: Address, total: NodeId -> Cost,
                                       chain: seq<NodeId>, l: Listener, i: nat)
    requires Consistent(g, sites, net) && Descends(g, sites, net, to, total) && ForwardRoute(sites, net, to, chain, l)
    requires total(chain[0]) < MAX_COST && i < |chain|
    ensures OnCourse(sites, chain[0], total, chain[i])
  {
    assert PointsAt(sites, net, to, chain, 0);
    DistSelf(g, sites, net, chain[0]);
    if i > 0 {
      CourseAlong(g, sites, net, to, total, chain, l, i - 1);
      assert PointsAt(sites, net, to, chain, i - 1);
      CourseStep(g, sites, net, to, chain[0], total, chain[i - 1], EntryHop(net, to, chain[i - 1]).value.link);
    }
  }

  lemma CourseStep(g: Graph, sites: map<NodeId, Site>, net: Net, to: Address, from: NodeId, total: NodeId -> Cost,
                   x: NodeId, link: Link)
    requires Consistent(g, sites, net) && Descends(g, sites, net, to, total) && OnCourse(sites, from, total, x)
    requires EntryHop(net, to, x) == Some(Hop.Remote(link))
    ensures OnCourse(sites, from, total, link.peerId) && total(link.peerId) < total(x)
  {
    assert EntryDescends(g, sites, net, to, total, x);
    var v := link.peerId;
    var w: Cost :| Edge(g, x, v, w) && total(x) == w + total(v);
    EdgeDist(g, sites, net, x, v, w);
    Triangle(g, sites, net, from, x, v);
    assert Lipschitz(sites, total, from, v);
  }

  /** In an agreed network a node on course sends the packet to the one end at
      which the next node accepts. */
  lemma HopStaysOnCourse(g: Graph, sites: map<NodeId, Site>, net: Net, to: Address, from: NodeId, total: NodeId -> Cost,
                         x: NodeId, link: Link)
    requires Agreed(g, sites, net) && Descends(g, sites, net, to, total) && OnCourse(sites, from, total, x)
    requires EntryHop(net, to, x) == Some(Hop.Remote(link))
    ensures OnCourse(sites, from, total, link.peerId) && total(link.peerId) < total(x)
    ensures End(x, link.connectionId) in net.wires
    ensures var far := net.wires[End(x, link.connectionId)];
            && far.node == link.peerId && Accepts(net.fibs[far.node], from, far.conn)
            && net.fibs[far.node].nextHop[from].peerId == x && far == BackEnd(net, from, far.node)
  {
    assert EntryDescends(g, sites, net, to, total, x);
    var v := link.peerId;
    var w: Cost :| Edge(g, x, v, w) && total(x) == w + total(v);
    CourseStep(g, sites, net, to, from, total, x, link);
    EdgeDist(g, sites, net, x, v, w);
    Triangle(g, sites, net, from, x, v);
    assert Lipschitz(sites, total, from, v);
    ReversePathHolds(g, sites, net, from, x, link, w);
  }

  /** From every node with a finite total the tables lead to a listener. */
  lemma {:induction false} RouteExists(g: Graph, sites: map<NodeId, Site>, net: Net, to: Address, total: NodeId -> Cost,
                                       x: NodeId)
      returns (chain: seq<NodeId>, l: Listener)
    requires Consistent(g, sites, net) && Descends(g, sites, net, to, total) && x in sites && total(x) < MAX_COST
    ensures ForwardRoute(sites, net, to, chain, l) && chain[0] == x
    decreases total(x)
  {
    assert EntryDescends(g, sites, net, to, total, x);
    match EntryHop(net, to, x).value
    case Local(m) =>
      chain, l := [x], m;
      forall i: nat ensures PointsAt(sites, net, to, chain, i) {
      }
    case Remote(link) =>
      var w: Cost :| Edge(g, x, link.peerId, w) && total(x) == w + total(link.peerId);
      var rest;
      rest, l := RouteExists(g, sites, net, to, total, link.peerId);
      chain := [x] + rest;
      forall i: nat ensures PointsAt(sites, net, to, chain, i) {
        if i > 0 {
          assert PointsAt(sites, net, to, rest, i - 1);
        }
      }
  }

  /** Where shortest paths are unique and symmetric, every route is retraced. */
  lemma AgreedRetraces(g: Graph, sites: map<NodeId, Site>, net: Net, to: Address, total: NodeId -> Cost,
                       chain: seq<NodeId>, l: Listener)
    requires Agreed(g, sites, net) && Descends(g, sites, net, to, total) && ForwardRoute(sites, net, to, chain, l)
    requires total(chain[0]) < MAX_COST
    ensures Retraced(sites, chain, |chain|)
  {
    forall i: nat | 0 < i < |chain| ensures BackAt(sites, chain, i) {
      CourseAlong(g, sites, net, to, total, chain, l, i - 1);
      assert PointsAt(sites, net, to, chain, i - 1);
      HopStaysOnCourse(g, sites, net, to, chain[0], total, chain[i - 1], EntryHop(net, to, chain[i - 1]).value.link);
      SiteFib(g, sites, net, chain[i]);
    }
  }

  /** Throughout a lossless run over a route of an agreed network the packet is in
      one place, on course and about to be accepted, or has been delivered. */
  lemma StaysOnCourse(g: Graph, sites: map<NodeId, Site>, net: Net, to: Address, total: NodeId -> Cost,
                      chain: seq<NodeId>, l: Listener,
                      run: seq<State>, k: nat)
    requires Agreed(g, sites, net) && Descends(g, sites, net, to, total) && ForwardRoute(sites, net, to, chain, l)
    requires LosslessRun(net, to, chain[0], run) && k < |run| && total(chain[0]) < MAX_COST
    ensures k < |chain| <= |sites| && Retraced(sites, chain, |chain|)
    ensures run[k].inflight == multiset{} ==> run[k].delivered == multiset{Receipt(chain[|chain| - 1], l)}
    ensures run[k].inflight != multiset{} ==>
              k + 1 < |chain| && InFlight(g, sites, net, chain[0], total, run[k], chain[k + 1])
  {
    ConsistentIsPlaced(g, sites, net);
    AgreedRetraces(g, sites, net, to, total, chain, l);
    RouteDecides(sites, net, to, chain, l, run, k);
    if run[k].inflight != multiset{} {
      CourseAlong(g, sites, net, to, total, chain, l, k);
      assert PointsAt(sites, net, to, chain, k);
      HopStaysOnCourse(g, sites, net, to, chain[0], total, chain[k], EntryHop(net, to, chain[k]).value.link);
    }
  }

  // --------------------------------------------------------- unicast and remote

  /** A unicast endpoint, or an address at a given node: one owner with one
      listener; everyone who can reach the owner has exactly that route. */
  ghost predicate OwnedBy(sites: map<NodeId, Site>, to: Address, owner: NodeId, l: Listener) {
    && owner in sites
    && forall x {:trigger RoutesTo(sites, to, owner, l, x)} ::
         x in sites && Dist(sites, x, owner) < MAX_COST ==> RoutesTo(sites, to, owner, l, x)
  }

  ghost predicate RoutesTo(sites: map<NodeId, Site>, to: Address, owner: NodeId, l: Listener, x: NodeId)
    requires x in sites
  {
    var e := to.GetEndpoint(x);
    && e in sites[x].routes
    && (sites[x].routes[e].kind == Unicast || sites[x].routes[e].kind == Node)
    && |sites[x].routes[e].routes| == 1
    && sites[x].routes[e].routes[0].via == if x == owner then ToListener(l) else ToNode(owner)
  }

  function DistanceTo(sites: map<NodeId, Site>, owner: NodeId): NodeId -> Cost {
    x => if x in sites then Dist(sites, x, owner) else MAX_COST
  }

  lemma OwnedEntry(g: Graph, sites: map<NodeId, Site>, net: Net, to: Address, owner: NodeId, l: Listener, x: NodeId)
    requires Consistent(g, sites, net) && OwnedBy(sites, to, owner, l) && x in sites && Dist(sites, x, owner) < MAX_COST
    ensures x in net.fibs
    ensures x == owner ==> Lookup(net.fibs[x], to.GetEndpoint(x)) == Some(Single(Local(l)))
    ensures x != owner ==> owner in sites[x].tree.nextHop
    ensures x != owner ==>
              Lookup(net.fibs[x], to.GetEndpoint(x)) == Some(Single(Hop.Remote(sites[x].tree.nextHop[owner])))
  {
    assert RoutesTo(sites, to, owner, l, x);
    SiteSingle(g, sites, net, x, to.GetEndpoint(x));
    if x != owner {
      var w := NextHopIsTight(g, sites, net, x, owner);
    }
  }

  lemma OwnedDescends(g: Graph, sites: map<NodeId, Site>, net: Net, to: Address, owner: NodeId, l: Listener)
    requires Consistent(g, sites, net) && OwnedBy(sites, to, owner, l)
    ensures Descends(g, sites, net, to, DistanceTo(sites, owner))
  {
    var total := DistanceTo(sites, owner);
    forall x | x in sites && total(x) < MAX_COST ensures EntryDescends(g, sites, net, to, total, x) {
      OwnedEntry(g, sites, net, to, owner, l, x);
      if x != owner {
        var w := NextHopIsTight(g, sites, net, x, owner);
        var v := sites[x].tree.nextHop[owner].peerId;
        assert Edge(g, x, v, w) && total(x) == w + total(v);
      }
    }
    forall a, b ensures Lipschitz(sites, total, a, b) {
      if a in sites && b in sites {
        Triangle(g, sites, net, a, b, owner);
      }
    }
  }

  /** The nodes from a sender to the owner, each the next hop of the one before. */
  ghost predicate LeadsTo(sites: map<NodeId, Site>, owner: NodeId, chain: seq<NodeId>) {
    && chain != [] && chain[|chain| - 1] == owner
    && forall i: nat {:trigger HopsOn(sites, owner, chain, i)} :: HopsOn(sites, owner, chain, i)
  }

  ghost predicate HopsOn(sites: map<NodeId, Site>, owner: NodeId, chain: seq<NodeId>, i: nat) {
    i + 1 < |chain| ==>
      && chain[i] in sites && owner in sites[chain[i]].tree.nextHop
      && sites[chain[i]].tree.nextHop[owner].peerId == chain[i + 1]
  }

  lemma {:induction false} LeadingNode(g: Graph, sites: map<NodeId, Site>, net: Net, owner: NodeId, chain: seq<NodeId>,
                                       i: nat)
    requires Consistent(g, sites, net) && owner in sites && LeadsTo(sites, owner, chain) && i < |chain|
    ensures chain[i] in sites && Dist(sites, chain[i], owner) < MAX_COST
    ensures i + 1 < |chain| ==>
              && chain[i] != owner && owner in sites[chain[i]].tree.nextHop
              && sites[chain[i]].tree.nextHop[owner] in sites[chain[i]].links.Values
  {
    assert HopsOn(sites, owner, chain, i);
    DistSelf(g, sites, net, owner);
    if i + 1 < |chain| {
      NoNextHopToSelf(g, sites, net, chain[i], owner);
      var w := NextHopIsTight(g, sites, net, chain[i], owner);
    }
  }

  /** The tables lead a packet for the owner along its next hops. */
  lemma LeadsForward(g: Graph, sites: map<NodeId, Site>, net: Net, to: Address, owner: NodeId, l: Listener,
                     chain: seq<NodeId>)
    requires Consistent(g, sites, net) && OwnedBy(sites, to, owner, l) && LeadsTo(sites, owner, chain)
    ensures ForwardRoute(sites, net, to, chain, l)
  {
    forall i: nat ensures PointsAt(sites, net, to, chain, i) {
      if i + 1 < |chain| {
        assert HopsOn(sites, owner, chain, i);
        LeadingNode(g, sites, net, owner, chain, i);
        LeadingNode(g, sites, net, owner, chain, i + 1);
        OwnedEntry(g, sites, net, to, owner, l, chain[i]);
      }
    }
    DistSelf(g, sites, net, owner);
    OwnedEntry(g, sites, net, to, owner, l, owner);
  }

  lemma {:induction false} LeadExists(g: Graph, sites: map<NodeId, Site>, net: Net, owner: NodeId, x: NodeId)
      returns (chain: seq<NodeId>)
    requires Consistent(g, sites, net) && owner in sites && x in sites && Dist(sites, x, owner) < MAX_COST
    ensures LeadsTo(sites, owner, chain) && chain[0] == x
    decreases Dist(sites, x, owner)
  {
    if x == owner {
      chain := [x];
      forall i: nat ensures HopsOn(sites, owner, chain, i) {
      }
    } else {
      var w := NextHopIsTight(g, sites, net, x, owner);
      EdgeDist(g, sites, net, x, sites[x].tree.nextHop[owner].peerId, w);
      var rest := LeadExists(g, sites, net, owner, sites[x].tree.nextHop[owner].peerId);
      chain := [x] + rest;
      forall i: nat ensures HopsOn(sites, owner, chain, i) {
        if i > 0 {
          assert HopsOn(sites, owner, rest, i - 1);
        }
      }
    }
  }

  /** Ties or not, a packet to a unicast endpoint or to an address at a node is
      delivered, once and to the owner only, if and only if every node on the way
      to the owner goes back to the sender by the node before. */
  lemma UnicastExactly(g: Graph, sites: map<NodeId, Site>, net: Net, to: Address, owner: NodeId, l: Listener,
                       chain: seq<NodeId>, run: seq<State>, k: nat)
    requires Consistent(g, sites, net) && OwnedBy(sites, to, owner, l) && LeadsTo(sites, owner, chain)
    requires LosslessRun(net, to, chain[0], run) && k < |run|
    ensures k < |chain| <= |sites|
    ensures run[k].inflight == multiset{} ==>
              run[k].delivered == if Retraced(sites, chain, |chain|) then multiset{Receipt(owner, l)} else multiset{}
  {
    ConsistentIsPlaced(g, sites, net);
    LeadsForward(g, sites, net, to, owner, l, chain);
    RouteDecides(sites, net, to, chain, l, run, k);
  }

  /** Where shortest paths are unique it reaches the owner from everywhere, passes
      every reverse-path check, and takes fewer steps than there are nodes. */
  lemma UnicastDelivered(g: Graph, sites: map<NodeId, Site>, net: Net, to: Address, owner: NodeId, l: Listener,
                         from: NodeId, run: seq<State>, k: nat)
    requires Agreed(g, sites, net) && OwnedBy(sites, to, owner, l)
    requires from in sites && Dist(sites, from, owner) < MAX_COST
    requires LosslessRun(net, to, from, run) && k < |run|
    ensures k < |sites|
    ensures run[k].inflight == multiset{} ==> run[k].delivered == multiset{Receipt(owner, l)}
    ensures run[k].inflight != multiset{} ==>
              exists v :: InFlight(g, sites, net, from, DistanceTo(sites, owner), run[k], v)
  {
    var chain := LeadExists(g, sites, net, owner, from);
    LeadsForward(g, sites, net, to, owner, l, chain);
    OwnedDescends(g, sites, net, to, owner, l);
    StaysOnCourse(g, sites, net, to, DistanceTo(sites, owner), chain, l, run, k);
  }

  // -------------------------------------------------------------------- anycast

  /** Every node knows the least listener cost of every origin it can reach, and
      an origin advertises the least cost of its own listeners. */
  ghost predicate Hosted(sites: map<NodeId, Site>, e: EndpointId, adv: map<NodeId, Cost>) {
    && adv.Keys <= sites.Keys
    && forall x {:trigger HostedAt(sites, e, adv, x)} :: x in sites ==> HostedAt(sites, e, adv, x)
  }

  ghost predicate HostedAt(sites: map<NodeId, Site>, e: EndpointId, adv: map<NodeId, Cost>, x: NodeId)
    requires x in sites
  {
    if e in sites[x].routes then
      var entry := sites[x].routes[e];
      && entry.kind == Anycast
      && MinLocalCost(entry.routes) == (if x in adv then Some(adv[x]) else None)
      && (forall r :: r in entry.routes && r.via.ToNode? ==>
        r.via.node != x && r.via.node in adv && r.cost == adv[r.via.node])
      && (forall o :: o in adv && o != x && Dist(sites, x, o) < MAX_COST ==>
        exists r :: r in entry.routes && r.via == ToNode(o))
    else
      forall o :: o in adv ==> o != x && Dist(sites, x, o) == MAX_COST
  }

  /** The least cost plus distance over the origins in `keys`. */
  ghost function LeastTotal(sites: map<NodeId, Site>, adv: map<NodeId, Cost>, keys: set<NodeId>, x: NodeId): Cost
    requires x in sites && keys <= adv.Keys
  {
    if keys == {} then MAX_COST
    else
      var o :| o in keys;
      var rest := LeastTotal(sites, adv, keys - {o}, x);
      var here := Plus(adv[o], Dist(sites, x, o));
      if here < rest then here else rest
  }

  ghost function BestTotal(sites: map<NodeId, Site>, adv: map<NodeId, Cost>): NodeId -> Cost {
    x => if x in sites then LeastTotal(sites, adv, adv.Keys, x) else MAX_COST
  }

  lemma {:induction false} LeastTotalIsLeast(sites: map<NodeId, Site>, adv: map<NodeId, Cost>, keys: set<NodeId>,
      x: NodeId)
    requires x in sites && keys <= adv.Keys
    ensures forall o :: o in keys ==> LeastTotal(sites, adv, keys, x) <= Plus(adv[o], Dist(sites, x, o))
    ensures LeastTotal(sites, adv, keys, x) == MAX_COST ||
            exists o :: o in keys && LeastTotal(sites, adv, keys, x) == adv[o] + Dist(sites, x, o)
  {
    if keys != {} {
      var o :| o in keys && LeastTotal(sites, adv, keys, x) ==
                            (var rest := LeastTotal(sites, adv, keys - {o}, x);
                             var here := Plus(adv[o], Dist(sites, x, o));
                             if here < rest then here else rest);
      LeastTotalIsLeast(sites, adv, keys - {o}, x);
    }
  }

  lemma BestTotalLipschitz(g: Graph, sites: map<NodeId, Site>, net: Net, adv: map<NodeId, Cost>, a: NodeId, b: NodeId)
    requires Consistent(g, sites, net) && a in sites && b in sites && adv.Keys <= sites.Keys
    ensures Lipschitz(sites, BestTotal(sites, adv), a, b)
  {
    LeastTotalIsLeast(sites, adv, adv.Keys, a);
    LeastTotalIsLeast(sites, adv, adv.Keys, b);
    var t := BestTotal(sites, adv);
    if t(b) < MAX_COST {
      var o :| o in adv && t(b) == adv[o] + Dist(sites, b, o);
      Triangle(g, sites, net, a, b, o);
    }
  }

  /** A reachable host has a route, worth its cost and the way there. */
  lemma HostHasRoute(g: Graph, sites: map<NodeId, Site>, net: Net, e: EndpointId, adv: map<NodeId, Cost>, x: NodeId,
                     o: NodeId)
      returns (r: Route)
    requires Consistent(g, sites, net) && Hosted(sites, e, adv) && x in sites && o in adv && o != x
    requires Dist(sites, x, o) < MAX_COST
    ensures e in sites[x].routes && sites[x].routes[e].kind == Anycast && r in sites[x].routes[e].routes
    ensures AnycastTotal(sites[x].tree, r) == Some(Plus(adv[o], Dist(sites, x, o)))
  {
    assert HostedAt(sites, e, adv, x);
    r :| r in sites[x].routes[e].routes && r.via == ToNode(o);
    var w := NextHopIsTight(g, sites, net, x, o);
  }

  /** Some usable route of a node is worth its best total. */
  lemma BestRouteExists(g: Graph, sites: map<NodeId, Site>, net: Net, e: EndpointId, adv: map<NodeId, Cost>, x: NodeId)
      returns (r: Route)
    requires Consistent(g, sites, net) && Hosted(sites, e, adv) && x in sites
    requires LeastTotal(sites, adv, adv.Keys, x) < MAX_COST
    ensures e in sites[x].routes && sites[x].routes[e].kind == Anycast && r in sites[x].routes[e].routes
    ensures AnycastTotal(sites[x].tree, r) == Some(LeastTotal(sites, adv, adv.Keys, x))
  {
    assert HostedAt(sites, e, adv, x);
    LeastTotalIsLeast(sites, adv, adv.Keys, x);
    var o :| o in adv && LeastTotal(sites, adv, adv.Keys, x) == adv[o] + Dist(sites, x, o);
    if o == x {
      DistSelf(g, sites, net, x);
      MinLocalIsLeast(sites[x].routes[e].routes);
      r :| r in sites[x].routes[e].routes && r.via.ToListener? && r.cost == adv[x];
    } else {
      r := HostHasRoute(g, sites, net, e, adv, x, o);
    }
  }

  /** The route a table picks is worth exactly the best total. */
  lemma ChosenIsBest(g: Graph, sites: map<NodeId, Site>, net: Net, e: EndpointId, adv: map<NodeId, Cost>, x: NodeId)
      returns (i: nat)
    requires Consistent(g, sites, net) && Hosted(sites, e, adv) && x in sites
    requires LeastTotal(sites, adv, adv.Keys, x) < MAX_COST
    ensures e in sites[x].routes && BestAnycast(sites[x].tree, sites[x].routes[e].routes, i)
    ensures AnycastTotal(sites[x].tree, sites[x].routes[e].routes[i]) == Some(LeastTotal(sites, adv, adv.Keys, x))
    ensures x in net.fibs && Lookup(net.fibs[x], e).Some? && Lookup(net.fibs[x], e).value.Single?
    ensures FibForward(sites[x].tree, sites[x].routes[e].routes[i]) == Some(Lookup(net.fibs[x], e).value.hop)
  {
    var r := BestRouteExists(g, sites, net, e, adv, x);
    i := SiteAnycast(g, sites, net, x, e, r);
    NoRouteIsBetter(g, sites, net, e, adv, x, sites[x].routes[e].routes[i]);
  }

  lemma NoRouteIsBetter(g: Graph, sites: map<NodeId, Site>, net: Net, e: EndpointId, adv: map<NodeId, Cost>, x: NodeId,
                        r: Route)
    requires Consistent(g, sites, net) && Hosted(sites, e, adv) && x in sites && e in sites[x].routes
    requires r in sites[x].routes[e].routes && AnycastTotal(sites[x].tree, r).Some?
    ensures LeastTotal(sites, adv, adv.Keys, x) <= AnycastTotal(sites[x].tree, r).value
  {
    assert HostedAt(sites, e, adv, x);
    DistSelf(g, sites, net, x);
    LeastTotalIsLeast(sites, adv, adv.Keys, x);
    MinLocalIsLeast(sites[x].routes[e].routes);
  }

  lemma AnycastDescends(g: Graph, sites: map<NodeId, Site>, net: Net, e: EndpointId, adv: map<NodeId, Cost>)
    requires Consistent(g, sites, net) && Hosted(sites, e, adv)
    ensures Descends(g, sites, net, Address.Endpoint(e), BestTotal(sites, adv))
  {
    var total := BestTotal(sites, adv);
    forall a, b ensures Lipschitz(sites, total, a, b) {
      if a in sites && b in sites {
        BestTotalLipschitz(g, sites, net, adv, a, b);
      }
    }
    forall x | x in sites && total(x) < MAX_COST ensures EntryDescends(g, sites, net, Address.Endpoint(e), total, x) {
      AnycastEntryDescends(g, sites, net, e, adv, x);
    }
  }

  lemma AnycastEntryDescends(g: Graph, sites: map<NodeId, Site>, net: Net, e: EndpointId, adv: map<NodeId, Cost>,
                             x: NodeId)
    requires Consistent(g, sites, net) && Hosted(sites, e, adv) && x in sites && BestTotal(sites, adv)(x) < MAX_COST
    ensures EntryDescends(g, sites, net, Address.Endpoint(e), BestTotal(sites, adv), x)
  {
    var total := BestTotal(sites, adv);
    var i := ChosenIsBest(g, sites, net, e, adv, x);
    var r := sites[x].routes[e].routes[i];
    assert HostedAt(sites, e, adv, x) && r in sites[x].routes[e].routes;
    match r.via
    case ToListener(_) =>
    case ToNode(o) =>
      var w := NextHopIsTight(g, sites, net, x, o);
      var v := sites[x].tree.nextHop[o].peerId;
      EdgeDist(g, sites, net, x, v, w);
      LeastTotalIsLeast(sites, adv, adv.Keys, v);
      BestTotalLipschitz(g, sites, net, adv, x, v);
      assert Lipschitz(sites, total, x, v);
      assert Edge(g, x, v, w) && total(x) == w + total(v);
  }

  /** Ties or not, although every hop chooses afresh: the tables lead to a listener
      whose cost plus distance is the sender's minimum, and the packet is
      delivered there, once, if and only if every node on the way goes back to the
      sender by the node before; otherwise nowhere. */
  lemma AnycastExactly(g: Graph, sites: map<NodeId, Site>, net: Net, e: EndpointId, adv: map<NodeId, Cost>,
                       chain: seq<NodeId>, l: Listener, run: seq<State>, k: nat)
    requires Consistent(g, sites, net) && Hosted(sites, e, adv)
    requires ForwardRoute(sites, net, Address.Endpoint(e), chain, l)
    requires LosslessRun(net, Address.Endpoint(e), chain[0], run) && k < |run|
    ensures k < |chain| <= |sites|
    ensures BestTotal(sites, adv)(chain[0]) < MAX_COST ==> ServesBest(sites, e, adv, chain[0], chain[|chain| - 1], l)
    ensures run[k].inflight == multiset{} ==>
              run[k].delivered ==
              if Retraced(sites, chain, |chain|) then multiset{Receipt(chain[|chain| - 1], l)} else multiset{}
  {
    ConsistentIsPlaced(g, sites, net);
    AnycastDescends(g, sites, net, e, adv);
    RouteDecides(sites, net, Address.Endpoint(e), chain, l, run, k);
    if BestTotal(sites, adv)(chain[0]) < MAX_COST {
      CourseAlong(g, sites, net, Address.Endpoint(e), BestTotal(sites, adv), chain, l, |chain| - 1);
      var r := LastHopIsBest(g, sites, net, e, adv, chain[0], chain[|chain| - 1], l);
    }
  }

  /** Where shortest paths are unique it always arrives. */
  lemma AnycastDelivered(g: Graph, sites: map<NodeId, Site>, net: Net, e: EndpointId, adv: map<NodeId, Cost>,
                         from: NodeId, run: seq<State>, k: nat)
    requires Agreed(g, sites, net) && Hosted(sites, e, adv)
    requires from in sites && BestTotal(sites, adv)(from) < MAX_COST
    requires LosslessRun(net, Address.Endpoint(e), from, run) && k < |run|
    ensures k < |sites|
    ensures run[k].inflight == multiset{} ==>
              exists o, l :: ServesBest(sites, e, adv, from, o, l) && run[k].delivered == multiset{Receipt(o, l)}
    ensures run[k].inflight != multiset{} ==>
              exists v :: InFlight(g, sites, net, from, BestTotal(sites, adv), run[k], v)
  {
    var to, total := Address.Endpoint(e), BestTotal(sites, adv);
    AnycastDescends(g, sites, net, e, adv);
    var chain, l := RouteExists(g, sites, net, to, total, from);
    AnycastExactly(g, sites, net, e, adv, chain, l, run, k);
    StaysOnCourse(g, sites, net, to, total, chain, l, run, k);
  }

  /** The listener a node on course delivers to completes the sender's minimum. */
  lemma LastHopIsBest(g: Graph, sites: map<NodeId, Site>, net: Net, e: EndpointId, adv: map<NodeId, Cost>,
                      from: NodeId, o: NodeId, l: Listener) returns (r: Route)
    requires Consistent(g, sites, net) && Hosted(sites, e, adv)
    requires OnCourse(sites, from, BestTotal(sites, adv), o) && o in net.fibs
    requires Lookup(net.fibs[o], e) == Some(Single(Local(l)))
    ensures BestListener(sites, e, adv, from, o, l, r)
  {
    var i := ChosenIsBest(g, sites, net, e, adv, o);
    LeastTotalIsLeast(sites, adv, adv.Keys, from);
    r := sites[o].routes[e].routes[i];
    assert r in sites[o].routes[e].routes;
  }

  /** A registered listener whose cost plus distance no advertised origin beats. */
  ghost predicate BestListener(sites: map<NodeId, Site>, e: EndpointId, adv: map<NodeId, Cost>, from: NodeId, o: NodeId,
                               l: Listener, r: Route) {
    && o in sites && from in sites && e in sites[o].routes
    && r in sites[o].routes[e].routes && r.via == ToListener(l)
    && forall other :: other in adv ==> r.cost + Dist(sites, from, o) <= adv[other] + Dist(sites, from, other)
  }

  ghost predicate ServesBest(sites: map<NodeId, Site>, e: EndpointId, adv: map<NodeId, Cost>, from: NodeId, o: NodeId,
                             l: Listener) {
    exists r :: BestListener(sites, e, adv, from, o, l, r)
  }
}
