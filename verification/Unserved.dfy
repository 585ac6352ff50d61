/** An advertisement that outlives its last listener goes on for good: no operation
    withdraws it but the return of a listener or the end of the node, so that others
    keep routing to a node that serves nobody. */
module Unserved {
  import opened Routing
  import opened Routes
  import opened Paths
  import opened Spf
  import opened SpfTheorems
  import opened LinkState
  import opened Forwarding
  import opened Operations

  /** The node advertises an endpoint for which it has no listener. */
  ghost predicate ServesNobody(db: Db, table: Table, self: NodeId, id: EndpointId) {
    && id != self && LsaKey(self, id) in db
    && (id in table ==> table[id].routes != [] && !HasLocal(table[id].routes))
  }

  /** Registering a listener for the endpoint, or shutting the node down. */
  predicate Ends(op: Operation, id: EndpointId) {
    op.Shutdown? || (op.AddEndpoint? && op.id == id)
  }

  /** This is how it begins: the last listener leaves while a remote origin offers the endpoint. */
  lemma BeginsUnserved(db: Db, table: Table, self: NodeId, id: EndpointId, closed: set<Listener>, now: nat)
    requires AdvertisedOk(db, table, self) && id in table && HasLocal(table[id].routes) && id != self
    requires forall r :: r in table[id].routes && r.via.ToListener? ==> r.via.listener in closed
    ensures ServesNobody(AfterRemoval(db, self, table, id, closed, now), WithoutListeners(table, id, closed), self, id)
            <==> exists r :: r in table[id].routes && r.via.ToNode?
  {
    AdvertisementOutlives(db, table, self, id, closed, now);
    assert forall r :: r in OpenRoutes(table, id, closed) <==> r in table[id].routes && r.via.ToNode?;
  }

  lemma HandledStays(db: Db, table: Table, self: NodeId, id: EndpointId, cost: map<NodeId, Cost>, lsa: Lsa, now: nat)
    requires ServesNobody(db, table, self, id)
    ensures ServesNobody(Handled(db, self, lsa, now), HandledTable(db, table, self, cost, lsa), self, id)
  {
    var table' := HandledTable(db, table, self, cost, lsa);
    if id in table' {
      forall r | r in table'[id].routes ensures r.via.ToNode? {
      }
    }
  }

  /** With no listener there is none to remove, and nothing is withdrawn. */
  lemma RemovalStays(db: Db, table: Table, self: NodeId, id: EndpointId, other: EndpointId, closed: set<Listener>,
                     now: nat)
    requires ServesNobody(db, table, self, id)
    ensures ServesNobody(AfterRemoval(db, self, table, other, closed, now), WithoutListeners(table, other, closed),
                         self, id)
  {
    if other == id && id in table {
      var kept := OpenRoutes(table, id, closed);
      assert forall r :: r in table[id].routes ==> r in kept;
      assert table[id].routes[0] in kept;
    }
  }

  lemma CostStays(db: Db, table: Table, self: NodeId, id: EndpointId, other: EndpointId, sender: Listener, cost: Cost,
                  now: nat)
    requires ServesNobody(db, table, self, id)
    ensures ServesNobody(AfterCostChange(db, self, table, other, sender, cost, now),
                         WithCost(table, other, sender, cost), self, id)
  {
  }

  lemma TickStays(db: Db, table: Table, self: NodeId, id: EndpointId, lifetime: nat, now: nat, db': Db,
                  gone: set<LsaKey>)
    requires ServesNobody(db, table, self, id) && Purged(Refreshed(db, self, lifetime, now), lifetime, now, db', gone)
    ensures ServesNobody(db', table, self, id)
  {
  }

  /** Every other operation leaves it as it is. */
  lemma StaysUnserved(op: Operation, self: NodeId, lifetime: nat, cost: map<NodeId, Cost>, db: Db, links: Links,
                      table: Table, now: nat, db': Db, table': Table, id: EndpointId)
    requires Results(op, self, lifetime, cost, db, links, table, now, db', table')
    requires ServesNobody(db, table, self, id) && !Ends(op, id)
    ensures ServesNobody(db', table', self, id)
  {
    match op
    case HandleLsa(lsa, _) => HandledStays(db, table, self, id, cost, lsa, now);
    case RemoveEndpoint(other, closed) => RemovalStays(db, table, self, id, other, closed, now);
    case SetAnycastCost(other, sender, c) => CostStays(db, table, self, id, other, sender, c, now);
    case Tick =>
      if db' != db {
        var gone :| Purged(Refreshed(db, self, lifetime, now), lifetime, now, db', gone);
        TickStays(db, table, self, id, lifetime, now, db', gone);
      }
    case _ =>
  }

  /** A refresh renews it like any other own advertisement. */
  lemma IsRenewed(db: Db, table: Table, self: NodeId, id: EndpointId, lifetime: nat, now: nat)
    requires ServesNobody(db, table, self, id)
    ensures var k := LsaKey(self, id);
            && k in Refreshed(db, self, lifetime, now)
            && (IsDue(db, self, lifetime, now, k) ==>
                  Refreshed(db, self, lifetime, now)[k].lsa.seq_ == db[k].lsa.seq_ + 1)
            && !Stale(Refreshed(db, self, lifetime, now), lifetime, now, k)
  {
  }

  /** And no table the node builds meanwhile delivers a packet for the endpoint to a local listener. */
  lemma NobodyIsServed(self: NodeId, links: Links, t: Tree, db: Db, table: Table, fib: ForwardingTable, id: EndpointId,
                       l: Listener)
    requires ServesNobody(db, table, self, id) && IsFib(self, links, t, table, fib)
    ensures id in fib.table ==> Local(l) !in Hops(fib.table[id])
  {
    if id in fib.table {
      assert IsFibEntry(t, table[id], Lookup(fib, id));
      NoLocalHop(t, table[id], fib.table[id], l);
    }
  }

  lemma NoLocalHop(t: Tree, entry: RouteEntry, fe: FibEntry, l: Listener)
    requires IsFibEntry(t, entry, Some(fe)) && !HasLocal(entry.routes)
    ensures Local(l) !in Hops(fe)
  {
    match entry.kind
    case Broadcast =>
      var peers :| Distinct(peers) && Elements(peers) == FirstHops(t, entry.routes) &&
                   fe.hops == LocalHops(entry.routes) + RemoteHops(t, peers);
      NoLocalHops(entry.routes, l);
      NoLocalAmong(t, peers, l);
    case Anycast =>
      var i: nat :| BestAnycast(t, entry.routes, i) && FibForward(t, entry.routes[i]) == Some(fe.hop);
      assert entry.routes[i] in entry.routes;
    case Multicast =>
    case _ =>
      var i: nat :| Cheapest(entry.routes, i) && Some(fe) == FibForward(t, entry.routes[i]).Map(hop => Single(hop));
      assert entry.routes[i] in entry.routes;
  }

  lemma {:induction false} NoLocalHops(routes: seq<Route>, l: Listener)
    requires !HasLocal(routes)
    ensures Local(l) !in LocalHops(routes)
  {
    if routes != [] {
      assert routes[0] in routes;
      assert !HasLocal(routes[1..]) by {
        assert forall r :: r in routes[1..] ==> r in routes;
      }
      NoLocalHops(routes[1..], l);
    }
  }

  lemma {:induction false} NoLocalAmong(t: Tree, peers: seq<NodeId>, l: Listener)
    ensures Local(l) !in RemoteHops(t, peers)
  {
    if peers != [] {
      NoLocalAmong(t, peers[1..], l);
    }
  }
}
