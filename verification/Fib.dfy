/** The forwarding table: how it is built from a database snapshot and how it
    handles packets from local clients and from peers. */
module Forwarding {
  import opened Routing
  import opened Routes
  import opened Paths
  import opened Spf
  import opened SpfTheorems

  type Payload = seq<bv8>

  datatype Packet = Packet(to: Address, replyTo: Option<Address>, from: NodeId, payload: Payload)

  datatype Hop = Local(listener: Listener) | Remote(link: Link)
  datatype FibEntry = Single(hop: Hop) | MultiCast(hops: seq<Hop>)

  datatype ForwardingTable = ForwardingTable(
    ourId: NodeId,
    table: map<EndpointId, FibEntry>,
    links: map<ConnectionId, Link>,
    nextHop: map<NodeId, Link>)

  // ------------------------------------------------------------ choosing hops

  /** The cost of reaching a listener through a route, if there is a way. */
  function AnycastTotal(t: Tree, route: Route): Option<Cost> {
    match route.via
    case ToListener(_) => Some(route.cost)
    case ToNode(n) =>
      if n !in t.cost || t.cost[n] == MAX_COST || n !in t.nextHop then None
      else Some(Plus(route.cost, t.cost[n]))
  }

  function FibForward(t: Tree, route: Route): Option<Hop> {
    match route.via
    case ToListener(s) => Some(Local(s))
    case ToNode(n) => if n in t.nextHop then Some(Hop.Remote(t.nextHop[n])) else None
  }

  /** i is the first route of least total cost. */
  ghost predicate BestAnycast(t: Tree, routes: seq<Route>, i: nat) {
    && i < |routes|
    && AnycastTotal(t, routes[i]).Some?
    && forall j :: 0 <= j < |routes| && AnycastTotal(t, routes[j]).Some? ==>
         && AnycastTotal(t, routes[i]).value <= AnycastTotal(t, routes[j]).value
         && (j < i ==> AnycastTotal(t, routes[i]).value < AnycastTotal(t, routes[j]).value)
  }

  /** i is the first route of least registered cost. */
  ghost predicate Cheapest(routes: seq<Route>, i: nat) {
    && i < |routes|
    && forall j :: 0 <= j < |routes| ==> routes[i].cost <= routes[j].cost && (j < i ==> routes[i].cost < routes[j].cost)
  }

  function LocalHops(routes: seq<Route>): seq<Hop> {
    if routes == [] then []
    else (if routes[0].via.ToListener? then [Local(routes[0].via.listener)] else []) + LocalHops(routes[1..])
  }

  /** The first hops towards the reachable origins of a broadcast endpoint. */
  function FirstHops(t: Tree, routes: seq<Route>): set<NodeId> {
    set r | r in routes && r.via.ToNode? && r.via.node in t.nextHop :: t.nextHop[r.via.node].peerId
  }

  function RemoteHops(t: Tree, peers: seq<NodeId>): seq<Hop> {
    if peers == [] then []
    else (if peers[0] in t.nextHop then [Hop.Remote(t.nextHop[peers[0]])] else []) + RemoteHops(t, peers[1..])
  }

  /** All local listeners in order, then one link per distinct first hop in some order. */
  ghost predicate BroadcastHops(t: Tree, routes: seq<Route>, hops: seq<Hop>) {
    exists peers :: Distinct(peers) && Elements(peers) == FirstHops(t, routes) &&
                    hops == LocalHops(routes) + RemoteHops(t, peers)
  }

  ghost predicate IsAnycastEntry(t: Tree, routes: seq<Route>, fe: Option<FibEntry>) {
    if fe.None? then forall r :: r in routes ==> AnycastTotal(t, r).None?
    else fe.value.Single? && exists i: nat ::
      BestAnycast(t, routes, i) && FibForward(t, routes[i]) == Some(fe.value.hop)
  }

  ghost predicate IsSingleEntry(t: Tree, routes: seq<Route>, fe: Option<FibEntry>) {
    if routes == [] then fe.None?
    else exists i: nat :: Cheapest(routes, i) && fe == FibForward(t, routes[i]).Map(hop => Single(hop))
  }

  ghost predicate IsBroadcastEntry(t: Tree, routes: seq<Route>, fe: Option<FibEntry>) {
    if fe.None? then BroadcastHops(t, routes, [])
    else fe.value.MultiCast? && fe.value.hops != [] && BroadcastHops(t, routes, fe.value.hops)
  }

  /** What a table may hold for an endpoint, given its routes. */
  ghost predicate IsFibEntry(t: Tree, entry: RouteEntry, fe: Option<FibEntry>) {
    match entry.kind
    case Anycast => IsAnycastEntry(t, entry.routes, fe)
    case Broadcast => IsBroadcastEntry(t, entry.routes, fe)
    case Multicast => fe.None?
    case _ => IsSingleEntry(t, entry.routes, fe)
  }

  function Lookup(fib: ForwardingTable, e: EndpointId): Option<FibEntry> {
    if e in fib.table then Some(fib.table[e]) else None
  }

  /** A unicast or node endpoint with one route has that route's hop, if any. */
  lemma OneRouteEntry(t: Tree, routes: seq<Route>, fe: Option<FibEntry>)
    requires IsSingleEntry(t, routes, fe) && |routes| == 1
    ensures fe == match FibForward(t, routes[0])
              case None => None
              case Some(hop) => Some(Single(hop))
  {
  }

  /** An anycast endpoint with a usable route has the hop of the first best one. */
  lemma AnycastEntry(t: Tree, routes: seq<Route>, fe: Option<FibEntry>, r: Route) returns (i: nat)
    requires IsAnycastEntry(t, routes, fe) && r in routes && AnycastTotal(t, r).Some?
    ensures BestAnycast(t, routes, i)
    ensures fe.Some? && fe.value.Single? && FibForward(t, routes[i]) == Some(fe.value.hop)
    ensures AnycastTotal(t, routes[i]).value <= AnycastTotal(t, r).value
  {
    i :| BestAnycast(t, routes, i) && FibForward(t, routes[i]) == Some(fe.value.hop);
    var j :| 0 <= j < |routes| && routes[j] == r;
    assert AnycastTotal(t, routes[j]).Some?;
  }

  /** A table freshly built from a database snapshot. */
  ghost predicate IsFib(self: NodeId, links: map<ConnectionId, Link>, t: Tree, routes: Table, fib: ForwardingTable) {
    && fib.ourId == self && fib.links == links && fib.nextHop == t.nextHop
    && fib.table.Keys <= routes.Keys
    && forall e {:trigger IsFibEntry(t, routes[e], Lookup(fib, e))} :: e in routes ==>
      IsFibEntry(t, routes[e], Lookup(fib, e))
  }

  /** A table that was fresh for some database of its node: nothing is said
      about what other nodes know, or how old it is. */
  ghost predicate Built(self: NodeId, fib: ForwardingTable) {
    exists g, links: map<ConnectionId, Link>, t, routes: Table ::
      && IsSpf(g, self, links, t) && IsFib(self, links, t, routes, fib) && TableOk(routes)
      && forall c :: c in links ==> links[c].connectionId == c
  }

  // ------------------------------------------------------------ building it

  method BestAnycastRoute(t: Tree, routes: seq<Route>) returns (best: Option<nat>)
    ensures best.None? ==> forall r :: r in routes ==> AnycastTotal(t, r).None?
    ensures best.Some? ==> BestAnycast(t, routes, best.value)
  {
    best := None;
    for j := 0 to |routes|
      invariant best.None? ==> forall k :: 0 <= k < j ==> AnycastTotal(t, routes[k]).None?
      invariant best.Some? ==> best.value < j && BestAnycast(t, routes[..j], best.value)
    {
      match AnycastTotal(t, routes[j])
      case Some(total) =>
        if best.None? || total < AnycastTotal(t, routes[best.value]).value {
          best := Some(j);
        }
      case None =>
    }
    assert routes[..|routes|] == routes;
  }

  method CheapestRoute(routes: seq<Route>) returns (best: nat)
    requires routes != []
    ensures Cheapest(routes, best)
  {
    best := 0;
    for j := 1 to |routes|
      invariant best < j && Cheapest(routes[..j], best)
    {
      if routes[j].cost < routes[best].cost {
        best := j;
      }
    }
    assert routes[..|routes|] == routes;
  }

  /** The hops of a broadcast endpoint: listeners are pushed as they come, first
      hops are collected in a set and then looked up one by one. */
  method Broadcasts(t: Tree, routes: seq<Route>) returns (hops: seq<Hop>)
    ensures BroadcastHops(t, routes, hops)
  {
    hops := [];
    var remotes: set<NodeId> := {};
    for i := 0 to |routes|
      invariant hops == LocalHops(routes[..i]) && remotes == FirstHops(t, routes[..i])
    {
      assert routes[..i + 1] == routes[..i] + [routes[i]];
      LocalHopsAppend(routes[..i], routes[i]);
      match routes[i].via
      case ToListener(s) =>
        hops := hops + [Local(s)];
      case ToNode(n) =>
        if n in t.nextHop {
          remotes := remotes + {t.nextHop[n].peerId};
        }
    }
    assert routes[..|routes|] == routes;
    ghost var peers;
    var links;
    links, peers := LinksOf(t, remotes);
    hops := hops + links;
  }

  /** The links to a set of first hops, looked up one by one. */
  method LinksOf(t: Tree, remotes: set<NodeId>) returns (links: seq<Hop>, ghost peers: seq<NodeId>)
    ensures Distinct(peers) && Elements(peers) == remotes && links == RemoteHops(t, peers)
  {
    links, peers := [], [];
    var todo := remotes;
    while todo != {}
      invariant todo <= remotes && Distinct(peers) && Elements(peers) == remotes - todo
      invariant links == RemoteHops(t, peers)
    {
      var n :| n in todo;
      todo := todo - {n};
      RemoteHopsAppend(t, peers, n);
      assert n !in Elements(peers);
      assert Elements(peers + [n]) == Elements(peers) + {n};
      if n in t.nextHop {
        links := links + [Hop.Remote(t.nextHop[n])];
      }
      peers := peers + [n];
    }
  }

  lemma {:induction false} LocalHopsAppend(routes: seq<Route>, r: Route)
    ensures LocalHops(routes + [r]) == LocalHops(routes) + if r.via.ToListener? then [Local(r.via.listener)] else []
  {
    if routes == [] {
      assert routes + [r] == [r];
    } else {
      LocalHopsAppend(routes[1..], r);
      assert (routes + [r])[1..] == routes[1..] + [r];
    }
  }

  lemma {:induction false} RemoteHopsAppend(t: Tree, peers: seq<NodeId>, n: NodeId)
    ensures RemoteHops(t, peers + [n]) ==
            RemoteHops(t, peers) + if n in t.nextHop then [Hop.Remote(t.nextHop[n])] else []
  {
    if peers == [] {
      assert peers + [n] == [n];
    } else {
      RemoteHopsAppend(t, peers[1..], n);
      assert (peers + [n])[1..] == peers[1..] + [n];
    }
  }

  method BuildEntry(t: Tree, entry: RouteEntry) returns (fe: Option<FibEntry>)
    requires entry.kind != Multicast
    ensures IsFibEntry(t, entry, fe)
  {
    fe := None;
    match entry.kind {
      case Anycast =>
        var best := BestAnycastRoute(t, entry.routes);
        fe := match best
          case None => None
          case Some(i) => FibForward(t, entry.routes[i]).Map(hop => Single(hop));
      case Broadcast =>
        var hops := Broadcasts(t, entry.routes);
        fe := if hops == [] then None else Some(MultiCast(hops));
      case Unicast => fe := BuildSingle(t, entry);
      case Node => fe := BuildSingle(t, entry);
      case Multicast => assert false;
    }
  }

  method BuildSingle(t: Tree, entry: RouteEntry) returns (fe: Option<FibEntry>)
    requires entry.kind == Unicast || entry.kind == Node
    ensures IsFibEntry(t, entry, fe)
  {
    if entry.routes == [] {
      return None;
    }
    var best := CheapestRoute(entry.routes);
    fe := FibForward(t, entry.routes[best]).Map(hop => Single(hop));
  }

  method BuildFromDb(self: NodeId, links: map<ConnectionId, Link>, t: Tree, routes: Table)
      returns (fib: ForwardingTable)
    requires forall e :: e in routes ==> routes[e].kind != Multicast
    ensures IsFib(self, links, t, routes, fib)
  {
    fib := ForwardingTable(self, map[], links, t.nextHop);
    var todo := routes.Keys;
    while todo != {}
      invariant todo <= routes.Keys
      invariant fib.ourId == self && fib.links == links && fib.nextHop == t.nextHop
      invariant fib.table.Keys <= routes.Keys - todo
      invariant forall e :: e in routes && e !in todo ==> IsFibEntry(t, routes[e], Lookup(fib, e))
    {
      var e :| e in todo;
      var fe := BuildEntry(t, routes[e]);
      ghost var before := fib;
      if fe.Some? {
        fib := fib.(table := fib.table[e := fe.value]);
      }
      todo := todo - {e};
      assert forall d :: d in routes && d !in todo && d != e ==> Lookup(fib, d) == Lookup(before, d);
    }
  }

  // ------------------------------------------------------- handling packets

  datatype SendResult = Sent | NoRoute | QueueFull | QueueClosed

  // Which queues refuse a message at the moment of a call.
  datatype Queues = Queues(full: set<Hop>, closed: set<Hop>) {
    predicate Refuses(h: Hop) {
      h in full || h in closed
    }
  }

  function Hops(entry: FibEntry): seq<Hop> {
    match entry
    case Single(h) => [h]
    case MultiCast(hs) => hs
  }

  /** Reverse-path check: the packet came over the link this node would use to
      reach its sender, and it is not the node's own. */
  predicate Accepts(fib: ForwardingTable, from: NodeId, conn: ConnectionId) {
    from != fib.ourId && from in fib.nextHop && fib.nextHop[from].connectionId == conn
  }

  /** A link back towards the packet's sender is skipped. */
  predicate OnBackPath(fib: ForwardingTable, from: NodeId, link: Link) {
    from in fib.nextHop && fib.nextHop[from].peerId == link.peerId
  }

  function Locals(hops: seq<Hop>): seq<Hop> {
    if hops == [] then []
    else if hops[0].Local? then [hops[0]] + Locals(hops[1..])
    else Locals(hops[1..])
  }

  function Onward(fib: ForwardingTable, from: NodeId, hops: seq<Hop>): seq<Hop> {
    if hops == [] then []
    else if hops[0].Remote? && !OnBackPath(fib, from, hops[0].link) then [hops[0]] + Onward(fib, from, hops[1..])
    else Onward(fib, from, hops[1..])
  }

  /** The hops whose queue takes the message. */
  function Taken(hops: seq<Hop>, queues: Queues): seq<Hop> {
    if hops == [] then []
    else if queues.Refuses(hops[0]) then Taken(hops[1..], queues)
    else [hops[0]] + Taken(hops[1..], queues)
  }

  /** Where a forwarded packet goes: local listeners first, then links off the back path. */
  function ForwardHops(fib: ForwardingTable, to: Address, from: NodeId, conn: ConnectionId): seq<Hop> {
    var e := to.GetEndpoint(fib.ourId);
    if !Accepts(fib, from, conn) || e !in fib.table then []
    else Locals(Hops(fib.table[e])) + Onward(fib, from, Hops(fib.table[e]))
  }

  /** Where a local client's packet goes. */
  function SendHops(fib: ForwardingTable, to: Address): seq<Hop> {
    var e := to.GetEndpoint(fib.ourId);
    if e in fib.table then Hops(fib.table[e]) else []
  }

  lemma {:induction false} LocalsAppend(hops: seq<Hop>, h: Hop)
    ensures Locals(hops + [h]) == if h.Local? then Locals(hops) + [h] else Locals(hops)
  {
    if hops == [] {
      assert hops + [h] == [h];
    } else {
      LocalsAppend(hops[1..], h);
      assert (hops + [h])[1..] == hops[1..] + [h];
    }
  }

  lemma {:induction false} OnwardAppend(fib: ForwardingTable, from: NodeId, hops: seq<Hop>, h: Hop)
    ensures Onward(fib, from, hops + [h]) ==
            if h.Remote? && !OnBackPath(fib, from, h.link) then
              Onward(fib, from, hops) + [h]
            else Onward(fib, from, hops)
  {
    if hops == [] {
      assert hops + [h] == [h];
    } else {
      OnwardAppend(fib, from, hops[1..], h);
      assert (hops + [h])[1..] == hops[1..] + [h];
    }
  }

  lemma {:induction false} TakenAppend(hops: seq<Hop>, h: Hop, queues: Queues)
    ensures Taken(hops + [h], queues) == if queues.Refuses(h) then Taken(hops, queues) else Taken(hops, queues) + [h]
  {
    if hops == [] {
      assert hops + [h] == [h];
    } else {
      TakenAppend(hops[1..], h, queues);
      assert (hops + [h])[1..] == hops[1..] + [h];
    }
  }

  lemma {:induction false} TakenConcat(a: seq<Hop>, b: seq<Hop>, queues: Queues)
    ensures Taken(a + b, queues) == Taken(a, queues) + Taken(b, queues)
  {
    if a == [] {
      assert a + b == b;
    } else {
      TakenConcat(a[1..], b, queues);
      assert (a + b)[1..] == a[1..] + b;
    }
  }

  /** A queue that refuses takes nothing, any other takes every copy. */
  lemma {:induction false} TakenExactly(hops: seq<Hop>, queues: Queues)
    ensures forall h :: multiset(Taken(hops, queues))[h] == if queues.Refuses(h) then 0 else multiset(hops)[h]
    ensures (forall h :: h in hops ==> !queues.Refuses(h)) ==> Taken(hops, queues) == hops
  {
    if hops != [] {
      TakenExactly(hops[1..], queues);
      assert hops == [hops[0]] + hops[1..];
    }
  }

  /** A packet from a peer. Full or closed queues lose their copy silently. */
  method Forward(fib: ForwardingTable, packet: Packet, conn: ConnectionId, queues: Queues) returns (out: seq<Hop>)
    ensures out == Taken(ForwardHops(fib, packet.to, packet.from, conn), queues)
  {
    if packet.from == fib.ourId {
      return [];
    }
    if packet.from !in fib.nextHop || fib.nextHop[packet.from].connectionId != conn {
      return [];
    }
    var e := packet.to.GetEndpoint(fib.ourId);
    if e !in fib.table {
      return [];
    }
    var hops := Hops(fib.table[e]);
    var locals, remotes := [], [];
    for i := 0 to |hops|
      invariant locals == Taken(Locals(hops[..i]), queues)
    {
      assert hops[..i + 1] == hops[..i] + [hops[i]];
      LocalsAppend(hops[..i], hops[i]);
      TakenAppend(Locals(hops[..i]), hops[i], queues);
      if hops[i].Local? && !queues.Refuses(hops[i]) {
        locals := locals + [hops[i]];
      }
    }
    for i := 0 to |hops|
      invariant remotes == Taken(Onward(fib, packet.from, hops[..i]), queues)
    {
      assert hops[..i + 1] == hops[..i] + [hops[i]];
      OnwardAppend(fib, packet.from, hops[..i], hops[i]);
      TakenAppend(Onward(fib, packet.from, hops[..i]), hops[i], queues);
      if hops[i].Remote? && !OnBackPath(fib, packet.from, hops[i].link) && !queues.Refuses(hops[i]) {
        remotes := remotes + [hops[i]];
      }
    }
    assert hops[..|hops|] == hops;
    TakenConcat(Locals(hops), Onward(fib, packet.from, hops), queues);
    return locals + remotes;
  }

  /** A packet from a local client. Only a single-hop endpoint reports a refused queue. */
  method Send(fib: ForwardingTable, packet: Packet, queues: Queues) returns (res: SendResult, out: seq<Hop>)
    ensures out == Taken(SendHops(fib, packet.to), queues)
    ensures var fe := Lookup(fib, packet.to.GetEndpoint(fib.ourId));
            && (res == NoRoute <==> fe.None?)
            && (res == QueueFull || res == QueueClosed <==>
              fe.Some? && fe.value.Single? && queues.Refuses(fe.value.hop))
            && (res == QueueClosed ==> fe.value.hop in queues.closed)
            && (res == QueueFull ==> fe.value.hop in queues.full)
  {
    var e := packet.to.GetEndpoint(fib.ourId);
    if e !in fib.table {
      return NoRoute, [];
    }
    match fib.table[e] {
      case Single(hop) =>
        if hop in queues.closed {
          return QueueClosed, [];
        } else if hop in queues.full {
          return QueueFull, [];
        }
        return Sent, [hop];
      case MultiCast(hops) =>
        out := [];
        for i := 0 to |hops|
          invariant out == Taken(hops[..i], queues)
        {
          assert hops[..i + 1] == hops[..i] + [hops[i]];
          TakenAppend(hops[..i], hops[i], queues);
          if !queues.Refuses(hops[i]) {
            out := out + [hops[i]];
          }
        }
        assert hops[..|hops|] == hops;
        return Sent, out;
    }
  }
}
