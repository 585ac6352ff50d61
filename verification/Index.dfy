/** The index of remote routes the other way round: every foreign record has its
    route, but for those the route table refused when they came in. */
module Index {
  import opened Routing
  import opened Routes
  import opened Spf
  import opened LinkState
  import opened Operations

  ghost predicate HasRoute(table: Table, e: EndpointId, o: NodeId) {
    e in table && exists r :: r in table[e].routes && r.via == ToNode(o)
  }

  /** The route a record stands for. */
  ghost predicate RouteFor(db: Db, table: Table, k: LsaKey) {
    && k in db && HasRoute(table, k.endpointId, k.origin)
    && table[k.endpointId].kind == BodyKind(db[k].lsa.body)
  }

  ghost predicate CompleteOk(db: Db, table: Table, self: NodeId, refused: set<LsaKey>) {
    forall k {:trigger RouteFor(db, table, k)} :: k in db && k.origin != self && k !in refused ==>
      RouteFor(db, table, k)
  }

  /** The table has the endpoint under another kind, or its unicast place is taken. */
  predicate Refuses(table: Table, id: EndpointId, origin: NodeId, info: EndpointInfo) {
    var entry := EntryOr(table, id, info.kind);
    entry.kind != info.kind ||
    (info.kind == Unicast && entry.routes != [] && IndexOf(entry.routes, ToNode(origin)) == |entry.routes|)
  }

  function RefusedAfter(db: Db, table: Table, self: NodeId, cost: map<NodeId, Cost>, lsa: Lsa,
                        refused: set<LsaKey>): set<LsaKey> {
    if !Fresh(db, self, lsa) || lsa.dead then refused
    else if Refuses(table, lsa.key.endpointId, lsa.key.origin, IndexInfo(lsa, cost)) then refused + {lsa.key}
    else refused - {lsa.key}
  }

  lemma WithRemoteHas(table: Table, id: EndpointId, origin: NodeId, info: EndpointInfo)
    ensures var table' := WithRemote(table, id, origin, info);
            && (!Refuses(table, id, origin, info) ==> HasRoute(table', id, origin) && table'[id].kind == info.kind)
            && forall e, o {:trigger HasRoute(table', e, o)} :: HasRoute(table, e, o) ==>
                 HasRoute(table', e, o) && table'[e].kind == table[e].kind
  {
    var table' := WithRemote(table, id, origin, info);
    var entry := EntryOr(table, id, info.kind);
    var i := IndexOf(entry.routes, ToNode(origin));
    if !Refuses(table, id, origin, info) {
      if i < |entry.routes| {
        assert table'[id].routes[i] in table'[id].routes;
      } else {
        assert table'[id].routes[|entry.routes|] in table'[id].routes;
      }
    }
    forall e, o | HasRoute(table, e, o) ensures HasRoute(table', e, o) && table'[e].kind == table[e].kind {
      var j :| 0 <= j < |table[e].routes| && table[e].routes[j].via == ToNode(o);
      assert table'[e].routes[j].via == ToNode(o) && table'[e].routes[j] in table'[e].routes;
    }
  }

  /** The route of a fresh advertisement that is not refused says what it says: kind,
      cost and realm for an endpoint, the distance of the origin for a router. */
  lemma RouteIsAdvertised(db: Db, table: Table, self: NodeId, cost: map<NodeId, Cost>, lsa: Lsa)
    requires Fresh(db, self, lsa) && !lsa.dead
    requires !Refuses(table, lsa.key.endpointId, lsa.key.origin, IndexInfo(lsa, cost))
    requires TableOk(table)
    ensures var table' := HandledTable(db, table, self, cost, lsa);
            && lsa.key.endpointId in table' && table'[lsa.key.endpointId].kind == BodyKind(lsa.body)
            && exists r :: r in table'[lsa.key.endpointId].routes && r.via == ToNode(lsa.key.origin) && r.cost ==
                 match lsa.body
                 case Router(_) => CostOf(cost, lsa.key.origin)
                 case EndpointBody(info) => info.cost
    ensures var table' := HandledTable(db, table, self, cost, lsa);
            lsa.body.EndpointBody? ==>
              forall r :: r in table'[lsa.key.endpointId].routes && r.via == ToNode(lsa.key.origin) ==>
                r.cost == lsa.body.info.cost && r.realm == lsa.body.info.realm
  {
    var id, origin, info := lsa.key.endpointId, lsa.key.origin, IndexInfo(lsa, cost);
    var routes := WithRemote(table, id, origin, info)[id].routes;
    var entry := EntryOr(table, id, info.kind);
    assert id in table ==> EntryOk(table[id]);
    var i := IndexOf(entry.routes, ToNode(origin));
    assert i < |routes| && routes[i].via == ToNode(origin) && routes[i].cost == info.cost;
    assert routes[i] in routes;
  }

  /** A withdrawal that is not outdated clears the route, also one left over from a
      record that has expired. */
  lemma WithdrawnRouteGoes(db: Db, table: Table, self: NodeId, cost: map<NodeId, Cost>, lsa: Lsa)
    requires lsa.dead && lsa.key.origin != self && (lsa.key in db ==> db[lsa.key].lsa.seq_ < lsa.seq_)
    ensures !HasRoute(HandledTable(db, table, self, cost, lsa), lsa.key.endpointId, lsa.key.origin)
  {
    assert lsa.key in db ==> lsa.key.endpointId in EndpointsOf(db, lsa.key.origin);
  }

  lemma ForgetKeepsOthers(table: Table, origin: NodeId, ids: set<EndpointId>, e: EndpointId, o: NodeId)
    requires (e !in ids || o != origin) && HasRoute(table, e, o)
    ensures HasRoute(Forget(table, origin, ids), e, o) && Forget(table, origin, ids)[e].kind == table[e].kind
  {
    var r :| r in table[e].routes && r.via == ToNode(o);
    if e in ids {
      assert r in Without(table[e].routes, {ToNode(origin)});
    }
  }

  /** Handling any advertisement keeps the index complete, up to what it refuses. */
  lemma HandledCompletes(db: Db, table: Table, self: NodeId, cost: map<NodeId, Cost>, lsa: Lsa, now: nat,
                         refused: set<LsaKey>)
    requires CompleteOk(db, table, self, refused)
    ensures CompleteOk(Handled(db, self, lsa, now), HandledTable(db, table, self, cost, lsa), self,
                       RefusedAfter(db, table, self, cost, lsa, refused))
  {
    var db', table' := Handled(db, self, lsa, now), HandledTable(db, table, self, cost, lsa);
    var refused' := RefusedAfter(db, table, self, cost, lsa, refused);
    forall k | k in db' && k.origin != self && k !in refused' ensures RouteFor(db', table', k) {
      if Fresh(db, self, lsa) && !lsa.dead {
        WithRemoteHas(table, lsa.key.endpointId, lsa.key.origin, IndexInfo(lsa, cost));
        assert k != lsa.key ==> RouteFor(db, table, k);
      } else {
        assert RouteFor(db, table, k);
        WithdrawalSpares(db, table, lsa, k);
      }
    }
  }

  /** A withdrawal takes no route of a record that stays. */
  lemma WithdrawalSpares(db: Db, table: Table, lsa: Lsa, k: LsaKey)
    requires RouteFor(db, table, k) && k in AfterWithdrawal(db, lsa)
    ensures RouteFor(AfterWithdrawal(db, lsa), TableAfterWithdrawal(db, table, lsa), k)
  {
    if k.origin != lsa.key.origin || k.endpointId != lsa.key.endpointId {
      if Withdraws(db, lsa) && db[lsa.key].lsa.body.Router? {
        ForgetKeepsOthers(table, lsa.key.origin, EndpointsOf(db, lsa.key.origin), k.endpointId, k.origin);
      } else {
        ForgetOneMore(table, lsa.key.origin, {}, lsa.key.endpointId);
        ForgetKeepsOthers(table, lsa.key.origin, {lsa.key.endpointId}, k.endpointId, k.origin);
        assert Forget(table, lsa.key.origin, {}) == table;
        assert {} + {lsa.key.endpointId} == {lsa.key.endpointId};
      }
    }
  }

  /** The remote routes of one table are in another, under the same kinds. */
  ghost predicate KeepsRemote(table: Table, table': Table) {
    forall e, r | e in table && r in table[e].routes && r.via.ToNode? ::
      e in table' && table'[e].kind == table[e].kind && exists s :: s in table'[e].routes && s.via == r.via
  }

  /** Foreign records stay as they are or go. */
  ghost predicate KeepsForeign(db: Db, db': Db, self: NodeId) {
    forall k: LsaKey :: k in db' && k.origin != self ==> k in db && db'[k].lsa.body == db[k].lsa.body
  }

  lemma OwnChangesComplete(db: Db, db': Db, table: Table, table': Table, self: NodeId, refused: set<LsaKey>)
    requires CompleteOk(db, table, self, refused) && KeepsRemote(table, table') && KeepsForeign(db, db', self)
    ensures CompleteOk(db', table', self, refused)
  {
    forall k | k in db' && k.origin != self && k !in refused ensures RouteFor(db', table', k) {
      assert RouteFor(db, table, k);
      var r :| r in table[k.endpointId].routes && r.via == ToNode(k.origin);
    }
  }

  lemma RegistrationCompletes(db: Db, table: Table, table': Table, self: NodeId, refused: set<LsaKey>,
                              id: EndpointId, info: EndpointInfo, sender: Listener, now: nat)
    requires CompleteOk(db, table, self, refused) && Registered(table, table', id, info, sender)
    ensures CompleteOk(AfterRegistration(db, self, table, id, info, now), table', self, refused)
  {
    forall e, r | e in table && r in table[e].routes && r.via.ToNode?
      ensures e in table' && table'[e].kind == table[e].kind && r in table'[e].routes
    {
    }
    OwnChangesComplete(db, AfterRegistration(db, self, table, id, info, now), table, table', self, refused);
  }

  lemma RemovalCompletes(db: Db, table: Table, self: NodeId, refused: set<LsaKey>, id: EndpointId,
                         closed: set<Listener>, now: nat)
    requires CompleteOk(db, table, self, refused)
    ensures CompleteOk(AfterRemoval(db, self, table, id, closed, now), WithoutListeners(table, id, closed), self,
                       refused)
  {
    var table' := WithoutListeners(table, id, closed);
    forall e, r | e in table && r in table[e].routes && r.via.ToNode?
      ensures e in table' && table'[e].kind == table[e].kind && r in table'[e].routes
    {
      if e == id {
        assert r in OpenRoutes(table, id, closed);
      }
    }
    OwnChangesComplete(db, AfterRemoval(db, self, table, id, closed, now), table, table', self, refused);
  }

  lemma CostChangeCompletes(db: Db, table: Table, self: NodeId, refused: set<LsaKey>, id: EndpointId, sender: Listener,
                            cost: Cost, now: nat)
    requires CompleteOk(db, table, self, refused)
    ensures CompleteOk(AfterCostChange(db, self, table, id, sender, cost, now), WithCost(table, id, sender, cost), self,
                       refused)
  {
    var table' := WithCost(table, id, sender, cost);
    forall e, r | e in table && r in table[e].routes && r.via.ToNode?
      ensures e in table' && table'[e].kind == table[e].kind && r in table'[e].routes
    {
      if CostChanges(table, id, sender, cost) && e == id {
        var j :| 0 <= j < |table[e].routes| && table[e].routes[j] == r;
        assert table'[e].routes[j] == r;
      }
    }
    OwnChangesComplete(db, AfterCostChange(db, self, table, id, sender, cost, now), table, table', self, refused);
  }

  /** The keys refused by the route table, after an operation. */
  function RefusedBy(op: Operation, self: NodeId, cost: map<NodeId, Cost>, db: Db, table: Table,
                     refused: set<LsaKey>): set<LsaKey> {
    if op.HandleLsa? then RefusedAfter(db, table, self, cost, op.lsa, refused) else refused
  }

  /** Every operation of the database keeps the index complete, up to what it refuses. */
  lemma OperationCompletes(op: Operation, self: NodeId, lifetime: nat, cost: map<NodeId, Cost>, db: Db, links: Links,
                           table: Table, now: nat, db': Db, table': Table, refused: set<LsaKey>)
    requires Results(op, self, lifetime, cost, db, links, table, now, db', table')
    requires CompleteOk(db, table, self, refused) && OwnRouterOk(db, links, self)
    ensures CompleteOk(db', table', self, RefusedBy(op, self, cost, db, table, refused))
  {
    match op
    case HandleLsa(lsa, _) => HandledCompletes(db, table, self, cost, lsa, now, refused);
    case AddPeer(link) => OwnChangesComplete(db, db', table, table, self, refused);
    case RemovePeer(conn) => OwnChangesComplete(db, db', table, table, self, refused);
    case AddEndpoint(id, info, sender) =>
      if table' != table || db' != db {
        RegistrationCompletes(db, table, table', self, refused, id, info, sender, now);
      }
    case RemoveEndpoint(id, closed) => RemovalCompletes(db, table, self, refused, id, closed, now);
    case SetAnycastCost(id, sender, c) => CostChangeCompletes(db, table, self, refused, id, sender, c, now);
    case Tick =>
      if db' != db {
        var gone :| Purged(Refreshed(db, self, lifetime, now), lifetime, now, db', gone);
        OwnChangesComplete(db, db', table, table, self, refused);
      }
    case Shutdown =>
  }
}
