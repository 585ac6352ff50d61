/** Why the links back have to stay: one node in a ring of three turns to its other
    neighbour for the way back while a packet is under way, and the packet goes
    round and round, delivered anew each time. All tables are built ones, and after
    that one change none changes any more. */
module Storms {
  import opened Routing
  import opened Routes
  import opened Paths
  import opened Spf
  import opened SpfTheorems
  import opened LinkState
  import opened Forwarding
  import opened PacketNet
  import opened Agreement
  import opened Existence
  import opened Republishing

  // ------------------------------------------------------------- what trees say

  /** A way to n by the neighbour m, over links of cost 1. */
  lemma WayBy(g: Graph, root: NodeId, m: NodeId, n: NodeId) returns (p: Path)
    requires Edge(g, root, m, 1) && (m == n || Edge(g, m, n, 1))
    ensures PathBetween(g, root, n, p) && Length(p) == if m == n then 1 else 2
  {
    var one := Path.Hop(Path.Start(root), m, 1);
    assert IsPath(g, Path.Start(root)) && IsPath(g, one) && First(one) == root && Length(one) == 1;
    if m == n {
      p := one;
    } else {
      p := Path.Hop(one, n, 1);
      assert IsPath(g, p) && First(p) == First(one) && Length(p) == Length(one) + 1;
    }
  }

  /** A path of at most one hop from a node other than m into n, where only m leads into n. */
  lemma OnlyBy(g: Graph, q: Path, m: NodeId, n: NodeId)
    requires Positive(g) && IsPath(g, q) && Last(q) == n && forall v, w :: Edge(g, v, n, w) ==> v == m
    ensures Length(q) <= 1 && q.Hop? ==> First(q) == m
  {
    if q.Hop? && Length(q) <= 1 {
      assert Edge(g, Last(q.prev), n, q.cost);
      assert IsPath(g, q.prev) && Length(q.prev) == 0;
      NoCost(g, q.prev);
    }
  }

  lemma NoCost(g: Graph, q: Path)
    requires Positive(g) && IsPath(g, q) && Length(q) == 0
    ensures q.Start?
  {
    if q.Hop? {
      assert Edge(g, Last(q.prev), q.to, q.cost);
    }
  }

  /** The next hop to a neighbour over a unit cost is that neighbour; a node with one
      way in, from a neighbour, is reached over that neighbour. */
  lemma HopOver(g: Graph, root: NodeId, links: map<ConnectionId, Link>, t: Tree, n: NodeId, m: NodeId)
    requires Positive(g) && IsSpf(g, root, links, t) && n != root && m != root && Edge(g, root, m, 1)
    requires m == n || (Edge(g, m, n, 1) && forall v, w :: Edge(g, v, n, w) ==> v == m)
    ensures n in t.nextHop && t.nextHop[n].peerId == m && t.nextHop[n] in links.Values
  {
    assert CostOf(t.cost, n) <= (if m == n then 1 else 2) by {
      var p := WayBy(g, root, m, n);
      CostsAreExact(g, root, links, t);
    }
    assert n in t.nextHop && t.nextHop[n] in links.Values by {
      TreeIsSound(g, root, links, t, n);
    }
    var w, q := NextHopSplits(g, root, links, t, n);
    assert w > 0 by {
      assert Edge(g, root, t.nextHop[n].peerId, w);
    }
    if m == n {
      NoCost(g, q);
    } else {
      OnlyBy(g, q, m, n);
    }
  }

  // ------------------------------------------------------------------ the tables

  const ENDPOINT: EndpointId := 9
  const LISTENER: Listener := 7

  function LinkTo(peer: NodeId, conn: ConnectionId): Link {
    Link(peer, conn, {Global}, 1)
  }

  function LocalRoutes(local: Option<Listener>): seq<Route> {
    match local
    case None => []
    case Some(l) => [Route(ToListener(l), 1, Global, Broadcast)]
  }

  function LocalPart(local: Option<Listener>): seq<Hop> {
    match local
    case None => []
    case Some(l) => [Local(l)]
  }

  /** What a node knows of the endpoint: perhaps a listener of its own, and a host at `onto`. */
  function Known(local: Option<Listener>, onto: NodeId): Table {
    map[ENDPOINT := RouteEntry(LocalRoutes(local) + [Route(ToNode(onto), 1, Global, Broadcast)], Broadcast)]
  }

  lemma OnlyOne(peers: seq<NodeId>, n: NodeId)
    requires Distinct(peers) && Elements(peers) == {n}
    ensures peers == [n]
  {
    CountDistinct(peers);
    assert peers[0] in Elements(peers);
  }

  /** A table with one way onwards names just that link and its listener. */
  lemma EntryOnto(t: Tree, local: Option<Listener>, onto: NodeId, fe: Option<FibEntry>)
    requires onto in t.nextHop && t.nextHop[onto].peerId == onto
    requires IsBroadcastEntry(t, Known(local, onto)[ENDPOINT].routes, fe)
    ensures fe == Some(MultiCast(LocalPart(local) + [Hop.Remote(t.nextHop[onto])]))
  {
    var routes := Known(local, onto)[ENDPOINT].routes;
    HopsOnto(t, local, onto, routes, if fe.None? then [] else fe.value.hops);
  }

  lemma HopsOnto(t: Tree, local: Option<Listener>, onto: NodeId, routes: seq<Route>, hops: seq<Hop>)
    requires onto in t.nextHop && t.nextHop[onto].peerId == onto
    requires routes == Known(local, onto)[ENDPOINT].routes && BroadcastHops(t, routes, hops)
    ensures hops == LocalPart(local) + [Hop.Remote(t.nextHop[onto])]
  {
    assert FirstHops(t, routes) == {onto} by {
      assert routes[|routes| - 1] in routes;
    }
    var peers :| Distinct(peers) && Elements(peers) == FirstHops(t, routes) &&
                 hops == LocalHops(routes) + RemoteHops(t, peers);
    OnlyOne(peers, onto);
    assert RemoteHops(t, [onto]) == [Hop.Remote(t.nextHop[onto])];
    LocalHopsAppend(LocalRoutes(local), Route(ToNode(onto), 1, Global, Broadcast));
    assert LocalHops(LocalRoutes(local)) == LocalPart(local);
  }

  /** The tree and the table of a node that knows of a host next to it. */
  lemma TableOnto(self: NodeId, g: Graph, links: map<ConnectionId, Link>, local: Option<Listener>, onto: NodeId)
      returns (t: Tree, fib: ForwardingTable)
    requires LinksCover(g, self, links) && forall c :: c in links ==> links[c].connectionId == c
    requires Positive(g) && Edge(g, self, onto, 1) && onto != self
    ensures IsSpf(g, self, links, t) && fib.nextHop == t.nextHop && Built(self, fib) && fib.ourId == self
    ensures onto in t.nextHop && t.nextHop[onto] in links.Values && t.nextHop[onto].peerId == onto
    ensures Lookup(fib, ENDPOINT) == Some(MultiCast(LocalPart(local) + [Hop.Remote(t.nextHop[onto])]))
  {
    t := TreeExists(g, self, links);
    HopOver(g, self, links, t, onto, onto);
    fib := FibOnto(self, g, links, t, local, onto);
  }

  lemma FibOnto(self: NodeId, g: Graph, links: map<ConnectionId, Link>, t: Tree, local: Option<Listener>, onto: NodeId)
      returns (fib: ForwardingTable)
    requires IsSpf(g, self, links, t) && forall c :: c in links ==> links[c].connectionId == c
    requires onto in t.nextHop && t.nextHop[onto].peerId == onto
    ensures fib.nextHop == t.nextHop && Built(self, fib) && fib.ourId == self
    ensures Lookup(fib, ENDPOINT) == Some(MultiCast(LocalPart(local) + [Hop.Remote(t.nextHop[onto])]))
  {
    var routes := Known(local, onto);
    KnownOk(local, onto);
    fib := FibExists(self, links, t, routes);
    assert ENDPOINT in routes && IsFibEntry(t, routes[ENDPOINT], Lookup(fib, ENDPOINT));
    EntryOnto(t, local, onto, Lookup(fib, ENDPOINT));
  }

  lemma KnownOk(local: Option<Listener>, onto: NodeId)
    ensures TableOk(Known(local, onto))
  {
  }

  /** A node on the ring as it knows things: its way back to 0 is by `back`, which is a
      neighbour of 0 or 0 itself, and the endpoint is at its other neighbour, `onto`. */
  datatype Relay = Relay(self: NodeId, back: NodeId, backConn: ConnectionId, onto: NodeId, ontoConn: ConnectionId,
                         local: Option<Listener>) {
    predicate Proper() {
      self !in {0, back, onto} && onto !in {0, back} && backConn != ontoConn
    }

    function Graph(): Graph {
      var own := [Adjacency(backConn, back, 1, {Global}), Adjacency(ontoConn, onto, 1, {Global})];
      if back == 0 then map[self := own] else map[self := own, back := [Adjacency(1, 0, 1, {Global})]]
    }

    function Links(): map<ConnectionId, Link> {
      map[backConn := LinkTo(back, backConn), ontoConn := LinkTo(onto, ontoConn)]
    }

    function Hops(): seq<Hop> {
      LocalPart(local) + [Hop.Remote(LinkTo(onto, ontoConn))]
    }

    /** What is in the table such a node builds. */
    predicate Holds(fib: ForwardingTable) {
      && fib.ourId == self && 0 in fib.nextHop && fib.nextHop[0] == LinkTo(back, backConn)
      && ENDPOINT in fib.table && fib.table[ENDPOINT] == MultiCast(Hops())
    }

    /** Whom it delivers to when it takes the packet. */
    function Served(): multiset<Receipt> {
      match local
      case None => multiset{}
      case Some(l) => multiset{Receipt(self, l)}
    }
  }

  lemma RelayEdges(r: Relay)
    requires r.Proper()
    ensures forall u, v, w :: Edge(r.Graph(), u, v, w) <==>
              w == 1 && ((u == r.self && v in {r.back, r.onto}) || (u == r.back && v == 0 && r.back != 0))
  {
    var g := r.Graph();
    forall u, v, w
      ensures Edge(g, u, v, w) <==>
                w == 1 && ((u == r.self && v in {r.back, r.onto}) || (u == r.back && v == 0 && r.back != 0))
    {
      if w == 1 && u == r.self && v in {r.back, r.onto} {
        assert Adj(g, u)[0] in Adj(g, u) && Adj(g, u)[1] in Adj(g, u);
      }
      if w == 1 && u == r.back && v == 0 && r.back != 0 {
        assert Adj(g, u)[0] in Adj(g, u);
      }
    }
  }

  lemma RelayCovered(r: Relay)
    requires r.Proper()
    ensures LinksCover(r.Graph(), r.self, r.Links())
    ensures forall l :: l in r.Links().Values ==> l == LinkTo(r.back, r.backConn) || l == LinkTo(r.onto, r.ontoConn)
  {
    assert r.Links()[r.backConn] in r.Links().Values && r.Links()[r.ontoConn] in r.Links().Values;
  }

  lemma RelayTable(r: Relay) returns (fib: ForwardingTable)
    requires r.Proper()
    ensures Built(r.self, fib) && r.Holds(fib)
  {
    RelayEdges(r);
    RelayCovered(r);
    var t;
    t, fib := TableOnto(r.self, r.Graph(), r.Links(), r.local, r.onto);
    HopOver(r.Graph(), r.self, r.Links(), t, 0, r.back);
  }

  function SenderGraph(): Graph {
    map[0 := [Adjacency(1, 1, 1, {Global})]]
  }

  lemma SenderCovered()
    ensures Positive(SenderGraph()) && Edge(SenderGraph(), 0, 1, 1)
    ensures LinksCover(SenderGraph(), 0, map[1 := LinkTo(1, 1)])
  {
    var links: map<ConnectionId, Link> := map[1 := LinkTo(1, 1)];
    assert links[1] in links.Values && Adj(SenderGraph(), 0)[0] in Adj(SenderGraph(), 0);
  }

  /** The sender knows one neighbour. */
  lemma SenderTable() returns (fib: ForwardingTable)
    ensures Built(0, fib) && fib.ourId == 0 && Lookup(fib, ENDPOINT) == Some(MultiCast([Hop.Remote(LinkTo(1, 1))]))
  {
    SenderCovered();
    var t;
    t, fib := TableOnto(0, SenderGraph(), map[1 := LinkTo(1, 1)], None, 1);
    assert LocalPart(None) + [Hop.Remote(LinkTo(1, 1))] == [Hop.Remote(LinkTo(1, 1))];
  }

  // --------------------------------------------------------------------- the run

  /** Queues that refuse nothing. */
  const FREE: Queues := Queues({}, {})

  lemma {:induction false} AllTaken(hops: seq<Hop>)
    ensures Taken(hops, FREE) == hops
  {
    if hops != [] {
      AllTaken(hops[1..]);
    }
  }

  lemma RelayHops(fib: ForwardingTable, r: Relay)
    requires r.Proper() && r.Holds(fib)
    ensures ForwardHops(fib, Address.Endpoint(ENDPOINT), 0, r.backConn) == r.Hops()
  {
    var hop := Hop.Remote(LinkTo(r.onto, r.ontoConn));
    assert Locals([hop]) == [] && Onward(fib, 0, [hop]) == [hop];
    if r.local.Some? {
      assert r.Hops()[1..] == [hop];
    } else {
      assert r.Hops() == [hop];
    }
  }

  lemma RelaySends(net: Net, r: Relay, next: End)
    requires End(r.self, r.ontoConn) in net.wires && net.wires[End(r.self, r.ontoConn)] == next
    ensures Copies(net, r.self, r.Hops()) == multiset{next} && Receipts(r.self, r.Hops()) == r.Served()
  {
    var hop := Hop.Remote(LinkTo(r.onto, r.ontoConn));
    assert Copies(net, r.self, [hop]) == multiset{next} && Receipts(r.self, [hop]) == multiset{};
    if r.local.Some? {
      assert r.Hops()[1..] == [hop];
    } else {
      assert r.Hops() == [hop];
    }
  }

  /** A relay that gets the packet over its link back hands it on over its other link. */
  lemma RelayStep(net: Net, r: Relay, st: State, next: End)
    requires r.Proper() && r.self in net.fibs && r.Holds(net.fibs[r.self])
    requires End(r.self, r.ontoConn) in net.wires && net.wires[End(r.self, r.ontoConn)] == next
    ensures Arrive(net, Address.Endpoint(ENDPOINT), 0, st, End(r.self, r.backConn), FREE) ==
            State(st.inflight - multiset{End(r.self, r.backConn)} + multiset{next}, st.accepted + [r.self],
                  st.delivered + r.Served())
  {
    RelayHops(net.fibs[r.self], r);
    AllTaken(r.Hops());
    RelaySends(net, r, next);
  }

  // Node 1 goes back to 0 directly at first and by 3 later on.
  const FIRST := Relay(1, 0, 1, 2, 2, Some(LISTENER))
  const LATER := Relay(1, 3, 3, 2, 2, Some(LISTENER))
  const SECOND := Relay(2, 1, 1, 3, 2, None)
  const THIRD := Relay(3, 2, 1, 1, 2, None)

  function RingWires(): map<End, End> {
    map[End(0, 1) := End(1, 1), End(1, 1) := End(0, 1), End(1, 2) := End(2, 1), End(2, 1) := End(1, 2),
        End(2, 2) := End(3, 1), End(3, 1) := End(2, 2), End(3, 2) := End(1, 3), End(1, 3) := End(3, 2)]
  }

  lemma RingIsWired()
    ensures End(0, 1) in RingWires() && RingWires()[End(0, 1)] == End(1, 1)
    ensures End(1, 2) in RingWires() && RingWires()[End(1, 2)] == End(2, 1)
    ensures End(2, 2) in RingWires() && RingWires()[End(2, 2)] == End(3, 1)
    ensures End(3, 2) in RingWires() && RingWires()[End(3, 2)] == End(1, 3)
  {
  }

  // The tables of the four nodes, those of node 1 before and after it has turned round.
  datatype Tables = Tables(sender: ForwardingTable, first: ForwardingTable, later: ForwardingTable,
                           second: ForwardingTable, third: ForwardingTable) {
    function Before(): Net {
      Net(map[0 := sender, 1 := first, 2 := second, 3 := third], RingWires())
    }

    function After(): Net {
      Net(map[0 := sender, 1 := later, 2 := second, 3 := third], RingWires())
    }

    predicate Ok() {
      && sender.ourId == 0 && ENDPOINT in sender.table
      && sender.table[ENDPOINT] == MultiCast([Hop.Remote(LinkTo(1, 1))])
      && FIRST.Holds(first) && LATER.Holds(later) && SECOND.Holds(second) && THIRD.Holds(third)
    }
  }

  ghost predicate TablesBuilt(fibs: map<NodeId, ForwardingTable>) {
    forall x {:trigger Built(x, fibs[x])} :: x in fibs ==> Built(x, fibs[x])
  }

  lemma OneMoreBuilt(fibs: map<NodeId, ForwardingTable>, x: NodeId, fib: ForwardingTable)
    requires TablesBuilt(fibs) && Built(x, fib)
    ensures TablesBuilt(fibs[x := fib])
  {
    var fibs' := fibs[x := fib];
    forall y | y in fibs' ensures Built(y, fibs'[y]) {
      assert y != x ==> Built(y, fibs[y]);
    }
  }

  lemma RelayJoins(fibs: map<NodeId, ForwardingTable>, r: Relay) returns (fib: ForwardingTable)
    requires TablesBuilt(fibs) && r.Proper()
    ensures TablesBuilt(fibs[r.self := fib]) && r.Holds(fib)
  {
    fib := RelayTable(r);
    OneMoreBuilt(fibs, r.self, fib);
  }

  lemma StormyTables() returns (ts: Tables)
    ensures ts.Ok() && TablesBuilt(ts.Before().fibs) && TablesBuilt(ts.After().fibs)
  {
    var f0 := SenderTable();
    OneMoreBuilt(map[], 0, f0);
    var f2 := RelayJoins(map[0 := f0], SECOND);
    var f3 := RelayJoins(map[0 := f0, 2 := f2], THIRD);
    var f1 := RelayJoins(map[0 := f0, 2 := f2, 3 := f3], FIRST);
    var later := RelayJoins(map[0 := f0, 2 := f2, 3 := f3], LATER);
    ts := Tables(f0, f1, later, f2, f3);
    assert ts.Before().fibs == map[0 := f0, 2 := f2, 3 := f3][1 := f1];
    assert ts.After().fibs == map[0 := f0, 2 := f2, 3 := f3][1 := later];
  }

  lemma StormyBuilt(net: Net)
    requires TablesBuilt(net.fibs) && net.wires == RingWires()
    ensures AllBuilt(net)
  {
    forall a, b | a in net.wires && b in net.wires && net.wires[a] == net.wires[b] ensures a == b {
    }
  }

  lemma StormyListeners(ts: Tables)
    requires ts.Ok()
    ensures ListenersOk(ts.Before(), Address.Endpoint(ENDPOINT)) && ListenersOk(ts.After(), Address.Endpoint(ENDPOINT))
  {
  }

  /** Goes on with a run by one step over the tables of `net`. */
  lemma OneMore(nets: seq<Net>, run: seq<State>, net: Net, st: State)
    requires MovingRun(nets, Address.Endpoint(ENDPOINT), 0, run) && net.wires == nets[|nets| - 1].wires
    requires Step(net, Address.Endpoint(ENDPOINT), 0, run[|run| - 1], st)
    ensures MovingRun(nets + [net], Address.Endpoint(ENDPOINT), 0, run + [st])
  {
    var nets', run' := nets + [net], run + [st];
    assert nets'[0] == nets[0] && run'[0] == run[0];
    forall i: nat ensures MovesAt(nets', Address.Endpoint(ENDPOINT), 0, run', i) {
      if i + 1 < |run| {
        assert MovesAt(nets, Address.Endpoint(ENDPOINT), 0, run, i);
      }
    }
  }

  /** One more relay takes the packet. */
  lemma Relayed(nets: seq<Net>, run: seq<State>, net: Net, r: Relay, next: End) returns (st: State)
    requires MovingRun(nets, Address.Endpoint(ENDPOINT), 0, run) && net.wires == nets[|nets| - 1].wires
    requires r.Proper() && r.self in net.fibs && r.Holds(net.fibs[r.self])
    requires End(r.self, r.ontoConn) in net.wires && net.wires[End(r.self, r.ontoConn)] == next
    requires run[|run| - 1].inflight == multiset{End(r.self, r.backConn)}
    ensures MovingRun(nets + [net], Address.Endpoint(ENDPOINT), 0, run + [st])
    ensures st == State(multiset{next}, run[|run| - 1].accepted + [r.self], run[|run| - 1].delivered + r.Served())
  {
    var last := run[|run| - 1];
    RelayStep(net, r, last, next);
    st := Arrive(net, Address.Endpoint(ENDPOINT), 0, last, End(r.self, r.backConn), FREE);
    assert StepAt(net, Address.Endpoint(ENDPOINT), 0, last, End(r.self, r.backConn), st);
    OneMore(nets, run, net, st);
  }

  lemma Sent(ts: Tables) returns (run: seq<State>)
    requires ts.Ok()
    ensures MovingRun([ts.Before()], Address.Endpoint(ENDPOINT), 0, run) && |run| == 1
    ensures run[0] == State(multiset{End(1, 1)}, [], multiset{})
  {
    var net := ts.Before();
    var hops := [Hop.Remote(LinkTo(1, 1))];
    AllTaken(hops);
    RingIsWired();
    SentCopies(net, hops);
    run := [Inject(net, Address.Endpoint(ENDPOINT), 0, FREE)];
  }

  lemma SentCopies(net: Net, hops: seq<Hop>)
    requires hops == [Hop.Remote(LinkTo(1, 1))] && End(0, 1) in net.wires && net.wires[End(0, 1)] == End(1, 1)
    ensures Copies(net, 0, hops) == multiset{End(1, 1)} && Receipts(0, hops) == multiset{}
  {
    assert hops[1..] == [];
  }

  /** Node 1 turns round once, after its first acceptance; the packet has then gone
      `rounds` times round the ring. */
  ghost predicate Goes(nets: seq<Net>, run: seq<State>, ts: Tables, rounds: nat) {
    && MovingRun(nets, Address.Endpoint(ENDPOINT), 0, run) && |run| == 2 + 3 * rounds
    && (forall i :: 0 <= i < |nets| ==> nets[i] == if i < 2 then ts.Before() else ts.After())
    && run[|run| - 1].inflight == multiset{End(2, 1)}
    && run[|run| - 1].delivered[Receipt(1, LISTENER)] == 1 + rounds
  }

  lemma {:induction false} GoesRound(ts: Tables, rounds: nat) returns (nets: seq<Net>, run: seq<State>)
    requires ts.Ok()
    ensures Goes(nets, run, ts, rounds)
  {
    if rounds == 0 {
      run := Sent(ts);
      RingIsWired();
      var st := Relayed([ts.Before()], run, ts.Before(), FIRST, End(2, 1));
      nets, run := [ts.Before()] + [ts.Before()], run + [st];
    } else {
      nets, run := GoesRound(ts, rounds - 1);
      nets, run := OneRound(nets, run, ts, rounds - 1);
    }
  }

  lemma OneRound(nets: seq<Net>, run: seq<State>, ts: Tables, rounds: nat) returns (nets': seq<Net>, run': seq<State>)
    requires ts.Ok() && Goes(nets, run, ts, rounds)
    ensures Goes(nets', run', ts, rounds + 1)
  {
    var net := ts.After();
    RingIsWired();
    var second := Relayed(nets, run, net, SECOND, End(3, 1));
    var third := Relayed(nets + [net], run + [second], net, THIRD, End(1, 3));
    var first := Relayed(nets + [net] + [net], run + [second] + [third], net, LATER, End(2, 1));
    nets', run' := nets + [net] + [net] + [net], run + [second] + [third] + [first];
  }

  /** One change of one link back is enough: over tables that are built ones at every
      step, and stay as they are after that change, a listener gets the same packet as
      often as one likes, and the packet never stops. */
  lemma StormAfterOneChange(rounds: nat) returns (nets: seq<Net>, run: seq<State>)
    ensures MovingRun(nets, Address.Endpoint(ENDPOINT), 0, run) && |run| == 2 + 3 * rounds
    ensures forall i :: 0 <= i < |nets| ==> AllBuilt(nets[i]) && ListenersOk(nets[i], Address.Endpoint(ENDPOINT))
    ensures Steady(nets, 0, AllNodes() - iset{1})
    ensures forall i :: 2 <= i < |nets| ==> nets[i] == nets[2]
    ensures run[|run| - 1].delivered[Receipt(1, LISTENER)] == 1 + rounds && run[|run| - 1].inflight != multiset{}
  {
    var ts := StormyTables();
    nets, run := GoesRound(ts, rounds);
    StormyBuilt(ts.Before());
    StormyBuilt(ts.After());
    StormyListeners(ts);
    OnlyOneTurns(ts, nets);
  }

  lemma OnlyOneTurns(ts: Tables, nets: seq<Net>)
    requires forall i :: 0 <= i < |nets| ==> nets[i] == if i < 2 then ts.Before() else ts.After()
    ensures Steady(nets, 0, AllNodes() - iset{1})
  {
    forall i: nat ensures SteadyAt(nets, 0, AllNodes() - iset{1}, i) {
    }
  }
}
