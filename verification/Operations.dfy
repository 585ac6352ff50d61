/** Every operation of a node's database is lawful: it keeps foreign records, takes
    in only what it has just been told, and sends only what its links let through. */
module Operations {
  import opened Routing
  import opened Routes
  import opened LinkState
  import opened Database
  import opened Realms

  datatype Operation =
    | HandleLsa(lsa: Lsa, inConn: ConnectionId)
    | AddPeer(link: Link)
    | RemovePeer(conn: ConnectionId)
    | AddEndpoint(id: EndpointId, info: EndpointInfo, sender: Listener)
    | RemoveEndpoint(id: EndpointId, closed: set<Listener>)
    | SetAnycastCost(id: EndpointId, sender: Listener, cost: Cost)
    | Tick
    | Shutdown

  /** What an operation has been told. */
  function Heard(op: Operation): set<Lsa> {
    if op.HandleLsa? then {op.lsa} else {}
  }

  /** What an operation makes of the database and the route table. */
  ghost predicate Results(op: Operation, self: NodeId, lifetime: nat, cost: map<NodeId, Cost>, db: Db, links: Links,
                          table: Table, now: nat, db': Db, table': Table) {
    match op
    case HandleLsa(lsa, _) => db' == Handled(db, self, lsa, now) && table' == HandledTable(db, table, self, cost, lsa)
    case AddPeer(link) => OwnRouterOk(db, links, self) && db' == WithAdjacency(db, self, link, now) && table' == table
    case RemovePeer(conn) =>
      && OwnRouterOk(db, links, self) && table' == table
      && db' == if conn in links then WithoutAdjacency(db, self, conn, now) else db
    case AddEndpoint(id, info, sender) =>
      if id in table && (table[id].kind != info.kind || (info.kind == Unicast && table[id].routes != []))
      then db' == db && table' == table
      else Registered(table, table', id, info, sender) && db' == AfterRegistration(db, self, table, id, info, now)
    case RemoveEndpoint(id, closed) =>
      db' == AfterRemoval(db, self, table, id, closed, now) && table' == WithoutListeners(table, id, closed)
    case SetAnycastCost(id, sender, c) =>
      db' == AfterCostChange(db, self, table, id, sender, c, now) && table' == WithCost(table, id, sender, c)
    case Tick =>
      && table' == table
      && (db' == db || exists gone :: Purged(Refreshed(db, self, lifetime, now), lifetime, now, db', gone))
    case Shutdown => db' == map[] && table' == map[]
  }

  /** The same, of a database object and its state of before. */
  ghost predicate Made(lsdb: LsDb, op: Operation, cost: map<NodeId, Cost>, db: Db, links: Links, table: Table, now: nat)
    reads lsdb, lsdb.routes
  {
    Results(op, lsdb.selfId, lsdb.lsaTimeout, cost, db, links, table, now, lsdb.db, lsdb.routes.table)
  }

  ghost predicate AllTell(self: NodeId, was: Db, db: Db, links: Links, heard: set<Lsa>, out: seq<Outgoing>) {
    forall m {:trigger Tells(self, Step(was, db, links, out), heard, m)} :: m in out ==>
      Tells(self, Step(was, db, links, out), heard, m)
  }

  lemma TellMore(self: NodeId, was: Db, db: Db, links: Links, heard: set<Lsa>, a: seq<Outgoing>, b: seq<Outgoing>)
    requires AllTell(self, was, db, links, heard, a) && AllTell(self, was, db, links, heard, b)
    ensures AllTell(self, was, db, links, heard, a + b)
  {
    forall m | m in a + b ensures Tells(self, Step(was, db, links, a + b), heard, m) {
      assert m in a ==> Tells(self, Step(was, db, links, a), heard, m);
      assert m in b ==> Tells(self, Step(was, db, links, b), heard, m);
    }
  }

  /** Two stretches of an outbox, one after the other. */
  lemma TellOn(self: NodeId, was: Db, db: Db, links: Links, heard: set<Lsa>, before: seq<Outgoing>, mid: seq<Outgoing>,
               after: seq<Outgoing>)
    requires before <= mid <= after
    requires AllTell(self, was, db, links, heard, mid[|before|..])
    requires AllTell(self, was, db, links, heard, after[|mid|..])
    ensures AllTell(self, was, db, links, heard, after[|before|..])
  {
    TellMore(self, was, db, links, heard, mid[|before|..], after[|mid|..]);
    assert after[|before|..] == mid[|before|..] + after[|mid|..];
  }

  /** A flood tells what its links make of one advertisement. */
  lemma FloodTells(self: NodeId, was: Db, db: Db, links: Links, heard: set<Lsa>, nextHop: map<NodeId, Link>, lsa: Lsa,
                   inConn: Option<ConnectionId>, before: seq<Outgoing>, after: seq<Outgoing>)
    requires Appends(before, after, FloodBatch(links, nextHop, lsa, inConn)) && MayTell(self, was, db, heard, lsa)
    ensures AllTell(self, was, db, links, heard, after[|before|..])
  {
  }

  /** A synchronisation tells what is stored. */
  lemma SynchronizationTells(self: NodeId, was: Db, db: Db, links: Links, conn: ConnectionId, out: seq<Outgoing>)
    requires KeysOk(db, map[]) && conn in links && Synchronizes(db, links[conn], conn, out)
    ensures AllTell(self, was, db, links, {}, out)
  {
    var keys :| SentFor(db, links[conn], conn, out, keys);
    forall m | m in out ensures Tells(self, Step(was, db, links, out), {}, m) {
      var i :| 0 <= i < |out| && out[i] == m;
      assert MayTell(self, was, db, {}, db[keys[i]].lsa);
    }
  }

  lemma {:induction false} FloodsTell(self: NodeId, was: Db, db: Db, links: Links, nextHop: map<NodeId, Link>,
                                      due: seq<Lsa>, stages: seq<seq<Outgoing>>, k: nat)
    requires FloodStages(stages, links, nextHop, due) && k <= |due|
    requires forall l :: l in due ==> l.key.origin == self && Says(was, l)
    ensures stages[0] <= stages[k] && AllTell(self, was, db, links, {}, stages[k][|stages[0]|..])
  {
    if k > 0 {
      FloodsTell(self, was, db, links, nextHop, due, stages, k - 1);
      FloodTells(self, was, db, links, {}, nextHop, due[k - 1], None, stages[k - 1], stages[k]);
      TellOn(self, was, db, links, {}, stages[0], stages[k - 1], stages[k]);
    }
  }

  /** A new link is told what is stored, the others the changed own advertisement. */
  lemma JoinTells(self: NodeId, was: Db, db: Db, links: Links, nextHop: map<NodeId, Link>, lsa: Lsa, link: Link,
                  before: seq<Outgoing>, after: seq<Outgoing>)
    requires Joined(db, links, nextHop, lsa, link, before, after) && KeysOk(db, map[])
    requires lsa.key.origin == self && Says(db, lsa)
    requires link.connectionId in links && links[link.connectionId] == link
    ensures before <= after && AllTell(self, was, db, links, {}, after[|before|..])
  {
    var conn := link.connectionId;
    var mid :| Appends(before, mid, FloodBatch(links, nextHop, lsa, Some(conn))) && mid <= after &&
               Synchronizes(db, link, conn, after[|mid|..]);
    FloodTells(self, was, db, links, {}, nextHop, lsa, Some(conn), before, mid);
    SynchronizationTells(self, was, db, links, conn, after[|mid|..]);
    TellOn(self, was, db, links, {}, before, mid, after);
  }

  /** The renewed advertisements are the node's own. */
  lemma RefreshTells(self: NodeId, was: Db, db: Db, lifetime: nat, now: nat, links: Links, nextHop: map<NodeId, Link>,
                     before: seq<Outgoing>, after: seq<Outgoing>)
    requires DueFlooded(was, self, lifetime, now, links, nextHop, before, after)
    ensures before <= after && AllTell(self, was, db, links, {}, after[|before|..])
  {
    var due :| ListsDue(was, self, lifetime, now, due) && FloodsEach(before, after, links, nextHop, due);
    var stages :| FloodStages(stages, links, nextHop, due) && stages[0] == before && stages[|due|] == after;
    FloodsTell(self, was, db, links, nextHop, due, stages, |due|);
  }

  /** An own advertisement that has been offered, if it changed. */
  lemma CostTells(self: NodeId, id: EndpointId, db: Db, db': Db, links: Links, nextHop: map<NodeId, Link>,
                  before: seq<Outgoing>, after: seq<Outgoing>)
    requires CostFlooded(db, db', self, id, links, nextHop, before, after)
    requires LsaKey(self, id) in db' ==> db'[LsaKey(self, id)].lsa.key == LsaKey(self, id)
    ensures before <= after && AllTell(self, db, db', links, {}, after[|before|..])
  {
    if db != db' {
      FloodTells(self, db, db', links, {}, nextHop, db'[LsaKey(self, id)].lsa, None, before, after);
    }
  }

  // -------------------------------------------------------------------- spreading

  /** The flood of an advertisement lies between two states of the outbox. */
  ghost predicate Offered(links: Links, nextHop: map<NodeId, Link>, lsa: Lsa, skip: Option<ConnectionId>,
                          before: seq<Outgoing>, after: seq<Outgoing>) {
    exists b, a :: before <= b && a <= after && FloodsExactly(links, nextHop, lsa, skip, b, a)
  }

  /** A record is new or says something else. */
  predicate Altered(db: Db, db': Db, k: LsaKey) {
    k in db' && !(k in db && db'[k].lsa == db[k].lsa)
  }

  /** The connection that a flood leaves out. */
  function SkippedBy(op: Operation, table: Table): Option<ConnectionId> {
    match op
    case HandleLsa(_, inConn) => Some(inConn)
    case AddPeer(link) => Some(link.connectionId)
    case AddEndpoint(id, info, _) => if HasLocal(EntryOr(table, id, info.kind).routes) then None else Some(0)
    case _ => None
  }

  /** Every record that an operation has altered, and the withdrawal of every own record
      that it has taken away, is offered to the neighbours; a node that shuts down
      withdraws its router record for all. What comes in over a link is acknowledged, and
      a new link gets everything. */
  ghost predicate Spreads(op: Operation, self: NodeId, db: Db, table: Table, db': Db, links: Links,
                          nextHop: map<NodeId, Link>, before: seq<Outgoing>, after: seq<Outgoing>)
    requires |before| <= |after|
  {
    && (forall k {:trigger Altered(db, db', k)} :: Altered(db, db', k) ==>
          Offered(links, nextHop, db'[k].lsa, SkippedBy(op, table), before, after))
    && (forall k {:trigger k in db'} ::
          k in db && k !in db' && k.origin == self && (op.Shutdown? ==> k == SelfKey(self)) ==>
            Offered(links, nextHop, db[k].lsa.(dead := true, seq_ := db[k].lsa.seq_ + 1), None, before, after))
    && (op.HandleLsa? && op.lsa.dead && db' != db ==> Offered(links, nextHop, op.lsa, None, before, after))
    && (op.HandleLsa? && op.inConn in links ==>
          Outgoing(op.inConn, LsaAck(op.lsa.key, op.lsa.seq_)) in after[|before|..])
    && (op.AddPeer? ==> LearnsAll(db', op.link, after[|before|..]))
  }

  /** The link gets a copy of the record, filtered. */
  ghost predicate Learns(lsa: Lsa, link: Link, out: seq<Outgoing>) {
    exists m :: m in out && m.conn == link.connectionId && m.message.LsaMessage? &&
                IsFiltered(lsa, link.realms, m.message.lsa)
  }

  /** And so it does of all records of which anything is left on it. */
  ghost predicate LearnsAll(db: Db, link: Link, out: seq<Outgoing>) {
    forall k :: k in db && SharesRealm(db[k].lsa.body, link.realms) ==> Learns(db[k].lsa, link, out)
  }

  lemma SynchronizationIsComplete(db: Db, link: Link, out: seq<Outgoing>)
    requires Synchronizes(db, link, link.connectionId, out)
    ensures LearnsAll(db, link, out)
  {
    var keys :| SentFor(db, link, link.connectionId, out, keys) &&
                forall k :: k in db && SendLsa(link, db[k].lsa).Some? ==> k in keys;
    forall k | k in db && SharesRealm(db[k].lsa.body, link.realms) ensures Learns(db[k].lsa, link, out) {
      SendsFiltered(link, db[k].lsa);
      var i :| 0 <= i < |keys| && keys[i] == k;
      assert out[i] in out;
    }
  }

  lemma AppendedIsOffered(links: Links, nextHop: map<NodeId, Link>, lsa: Lsa, skip: Option<ConnectionId>,
                          before: seq<Outgoing>, b: seq<Outgoing>, a: seq<Outgoing>, after: seq<Outgoing>)
    requires before <= b && a <= after && Appends(b, a, FloodBatch(links, nextHop, lsa, skip))
    ensures Offered(links, nextHop, lsa, skip, before, after)
  {
    FloodIsExact(links, nextHop, lsa, skip, b, a);
  }

  lemma JoinIsOffered(db: Db, links: Links, nextHop: map<NodeId, Link>, lsa: Lsa, link: Link, before: seq<Outgoing>,
                      after: seq<Outgoing>)
    requires Joined(db, links, nextHop, lsa, link, before, after)
    ensures Offered(links, nextHop, lsa, Some(link.connectionId), before, after)
    ensures |before| <= |after| && LearnsAll(db, link, after[|before|..])
  {
    var conn := link.connectionId;
    var mid :| Appends(before, mid, FloodBatch(links, nextHop, lsa, Some(conn))) && mid <= after &&
               Synchronizes(db, link, conn, after[|mid|..]);
    AppendedIsOffered(links, nextHop, lsa, Some(conn), before, before, mid, after);
    SynchronizationIsComplete(db, link, after[|mid|..]);
    forall k | k in db && SharesRealm(db[k].lsa.body, link.realms)
      ensures Learns(db[k].lsa, link, after[|before|..])
    {
      assert Learns(db[k].lsa, link, after[|mid|..]);
      var m :| m in after[|mid|..] && m.conn == link.connectionId && m.message.LsaMessage? &&
               IsFiltered(db[k].lsa, link.realms, m.message.lsa);
      assert m in after[|before|..];
    }
  }

  lemma CostIsOffered(self: NodeId, id: EndpointId, db: Db, db': Db, links: Links, nextHop: map<NodeId, Link>,
                      before: seq<Outgoing>, after: seq<Outgoing>)
    requires CostFlooded(db, db', self, id, links, nextHop, before, after)
    ensures db' != db ==>
              LsaKey(self, id) in db' && Offered(links, nextHop, db'[LsaKey(self, id)].lsa, None, before, after)
  {
    if db' != db {
      AppendedIsOffered(links, nextHop, db'[LsaKey(self, id)].lsa, None, before, before, after, after);
    }
  }

  lemma RemovalIsOffered(self: NodeId, id: EndpointId, db: Db, db': Db, links: Links, nextHop: map<NodeId, Link>,
                         gone: bool, before: seq<Outgoing>, after: seq<Outgoing>)
    requires RemovalFlooded(db, db', self, id, gone, links, nextHop, before, after)
    ensures var k := LsaKey(self, id);
            if gone && k in db then
              Offered(links, nextHop, db[k].lsa.(dead := true, seq_ := db[k].lsa.seq_ + 1), None, before, after)
            else db' != db ==> k in db' && Offered(links, nextHop, db'[k].lsa, None, before, after)
  {
    if gone && LsaKey(self, id) in db {
      var lsa := db[LsaKey(self, id)].lsa;
      AppendedIsOffered(links, nextHop, lsa.(dead := true, seq_ := lsa.seq_ + 1), None, before, before, after, after);
    } else {
      CostIsOffered(self, id, db, db', links, nextHop, before, after);
    }
  }

  lemma {:induction false} StagesGrow(stages: seq<seq<Outgoing>>, links: Links, nextHop: map<NodeId, Link>,
                                      due: seq<Lsa>, i: nat, j: nat)
    requires FloodStages(stages, links, nextHop, due) && i <= j <= |due|
    ensures stages[i] <= stages[j]
  {
    if i < j {
      StagesGrow(stages, links, nextHop, due, i, j - 1);
      assert Appends(stages[j - 1], stages[j], FloodBatch(links, nextHop, due[j - 1], None));
    }
  }

  lemma FarewellIsOffered(self: NodeId, db: Db, table: Table, links: Links, nextHop: map<NodeId, Link>,
                          before: seq<Outgoing>, after: seq<Outgoing>)
    requires SelfKey(self) in db && NodeWithdrawn(db, self, links, nextHop, before, after)
    ensures Spreads(Operation.Shutdown, self, db, table, map[], links, nextHop, before, after)
  {
    var lsa := db[SelfKey(self)].lsa;
    AppendedIsOffered(links, nextHop, lsa.(dead := true, seq_ := lsa.seq_ + 1), None, before, before, after, after);
  }

  /** Every renewed record is offered. */
  lemma RefreshIsOffered(self: NodeId, was: Db, db: Db, lifetime: nat, now: nat, links: Links,
                         nextHop: map<NodeId, Link>, before: seq<Outgoing>, after: seq<Outgoing>)
    requires DueFlooded(was, self, lifetime, now, links, nextHop, before, after)
    ensures forall k :: IsDue(was, self, lifetime, now, k) ==>
              Offered(links, nextHop, Renewed(was[k], now).lsa, None, before, after)
  {
    var due :| ListsDue(was, self, lifetime, now, due) && FloodsEach(before, after, links, nextHop, due);
    var stages :| FloodStages(stages, links, nextHop, due) && stages[0] == before && stages[|due|] == after;
    forall k | IsDue(was, self, lifetime, now, k)
      ensures Offered(links, nextHop, Renewed(was[k], now).lsa, None, before, after)
    {
      var i :| 0 <= i < |due| && due[i] == Renewed(was[k], now).lsa;
      StagesGrow(stages, links, nextHop, due, 0, i);
      StagesGrow(stages, links, nextHop, due, i + 1, |due|);
      AppendedIsOffered(links, nextHop, due[i], None, before, stages[i], stages[i + 1], after);
    }
  }

  /** The step from `db` to the present state of a database object. */
  ghost predicate Did(lsdb: LsDb, db: Db, outbox: seq<Outgoing>, links: Links, heard: set<Lsa>)
    reads lsdb
  {
    outbox <= lsdb.outbox && Lawful(lsdb.selfId, heard, Step(db, lsdb.db, links, lsdb.outbox[|outbox|..]))
  }

  /** Records of other nodes are left alone or dropped. */
  ghost predicate OnlyOwn(self: NodeId, db: Db, db': Db) {
    forall k :: k in db' && k.origin != self ==> k in db && db'[k].lsa == db[k].lsa
  }

  /** A withdrawal is offered, or a changed cost. */
  lemma RemovalTells(self: NodeId, id: EndpointId, db: Db, db': Db, links: Links, nextHop: map<NodeId, Link>,
                     gone: bool, before: seq<Outgoing>, after: seq<Outgoing>)
    requires KeysOk(db, map[]) && KeysOk(db', map[])
    requires RemovalFlooded(db, db', self, id, gone, links, nextHop, before, after)
    ensures before <= after && AllTell(self, db, db', links, {}, after[|before|..])
  {
    if gone && LsaKey(self, id) in db {
      var lsa := db[LsaKey(self, id)].lsa;
      FloodTells(self, db, db', links, {}, nextHop, lsa.(dead := true, seq_ := lsa.seq_ + 1), None, before, after);
    } else {
      CostTells(self, id, db, db', links, nextHop, before, after);
    }
  }

  lemma OwnIsLawful(self: NodeId, db: Db, db': Db, links: Links, out: seq<Outgoing>)
    requires KeysOk(db, map[]) && OnlyOwn(self, db, db') && AllTell(self, db, db', links, {}, out)
    ensures Lawful(self, {}, Step(db, db', links, out))
  {
  }

  /** The same, of a database object and its state of before. */
  ghost predicate Spread(lsdb: LsDb, op: Operation, db: Db, table: Table, links: Links, nextHop: map<NodeId, Link>,
                         outbox: seq<Outgoing>)
    reads lsdb
  {
    |outbox| <= |lsdb.outbox| &&
    Spreads(op, lsdb.selfId, db, table, lsdb.db, links, nextHop, outbox, lsdb.outbox)
  }

  lemma FarewellIsLawful(self: NodeId, db: Db, links: Links, nextHop: map<NodeId, Link>, before: seq<Outgoing>,
                         after: seq<Outgoing>)
    requires KeysOk(db, links) && SelfKey(self) in db && NodeWithdrawn(db, self, links, nextHop, before, after)
    ensures before <= after && Lawful(self, {}, Step(db, map[], links, after[|before|..]))
  {
    var lsa := db[SelfKey(self)].lsa;
    FloodTells(self, db, map[], links, {}, nextHop, lsa.(dead := true, seq_ := lsa.seq_ + 1), None, before, after);
    OwnIsLawful(self, db, map[], links, after[|before|..]);
  }

  /** What has changed the database is offered on, and acknowledged either way. */
  lemma ArrivalIsOffered(self: NodeId, db: Db, table: Table, links: Links, nextHop: map<NodeId, Link>, lsa: Lsa,
                         inConn: ConnectionId, now: nat, before: seq<Outgoing>, acked: seq<Outgoing>,
                         after: seq<Outgoing>)
    requires acked == before + if inConn in links then [Outgoing(inConn, LsaAck(lsa.key, lsa.seq_))] else []
    requires if Fresh(db, self, lsa)
             then Appends(acked, after, FloodBatch(links, nextHop, lsa, if lsa.dead then None else Some(inConn)))
             else after == acked
    ensures |before| <= |after|
    ensures Spreads(HandleLsa(lsa, inConn), self, db, table, Handled(db, self, lsa, now), links, nextHop, before, after)
  {
    if Fresh(db, self, lsa) {
      AppendedIsOffered(links, nextHop, lsa, if lsa.dead then None else Some(inConn), before, acked, after, after);
    }
    if inConn in links {
      assert acked <= after && acked[|before|] == Outgoing(inConn, LsaAck(lsa.key, lsa.seq_));
      assert after[|before|..][0] == acked[|before|];
    }
  }

  /** A flood of the one own record that has changed is lawful and spreads it. */
  lemma OwnChangeSpreads(op: Operation, self: NodeId, db: Db, table: Table, db': Db, links: Links,
                         nextHop: map<NodeId, Link>, k: LsaKey, before: seq<Outgoing>, after: seq<Outgoing>)
    requires KeysOk(db, map[]) && k.origin == self && k in db && k in db' && db'[k].lsa.key == k
    requires db' == db[k := db'[k]] && SkippedBy(op, table) == None && !op.HandleLsa? && !op.AddPeer?
    requires Appends(before, after, FloodBatch(links, nextHop, db'[k].lsa, None))
    ensures |before| <= |after| && Spreads(op, self, db, table, db', links, nextHop, before, after)
    ensures before <= after && Lawful(self, {}, Step(db, db', links, after[|before|..]))
  {
    FloodTells(self, db, db', links, {}, nextHop, db'[k].lsa, None, before, after);
    OwnIsLawful(self, db, db', links, after[|before|..]);
    AppendedIsOffered(links, nextHop, db'[k].lsa, None, before, before, after, after);
  }

  method PerformHandle(lsdb: LsDb, lsa: Lsa, inConn: ConnectionId, now: nat)
    requires lsdb.Valid()
    modifies lsdb, lsdb.routes
    ensures Did(lsdb, old(lsdb.db), old(lsdb.outbox), lsdb.links, {lsa})
    ensures Made(lsdb, HandleLsa(lsa, inConn), old(lsdb.cost), old(lsdb.db), old(lsdb.links),
                 old(lsdb.routes.table), now)
    ensures Spread(lsdb, HandleLsa(lsa, inConn), old(lsdb.db), old(lsdb.routes.table), lsdb.links,
                   old(lsdb.nextHop), old(lsdb.outbox))
  {
    lsdb.HandleLsa(lsa, inConn, now);
    ghost var ack := if inConn in lsdb.links then [Outgoing(inConn, LsaAck(lsa.key, lsa.seq_))] else [];
    ghost var acked := old(lsdb.outbox) + ack;
    assert AllTell(lsdb.selfId, old(lsdb.db), lsdb.db, lsdb.links, {lsa}, ack);
    if Fresh(old(lsdb.db), lsdb.selfId, lsa) {
      FloodTells(lsdb.selfId, old(lsdb.db), lsdb.db, lsdb.links, {lsa}, old(lsdb.nextHop), lsa,
                 if lsa.dead then None else Some(inConn), acked, lsdb.outbox);
      TellOn(lsdb.selfId, old(lsdb.db), lsdb.db, lsdb.links, {lsa}, old(lsdb.outbox), acked, lsdb.outbox);
    } else {
      assert lsdb.outbox[|old(lsdb.outbox)|..] == ack;
    }
    assert Keeps(lsdb.selfId, old(lsdb.db), {lsa}, lsdb.db);
    ArrivalIsOffered(lsdb.selfId, old(lsdb.db), old(lsdb.routes.table), lsdb.links, old(lsdb.nextHop), lsa, inConn, now,
                     old(lsdb.outbox), acked, lsdb.outbox);
  }

  method PerformAddPeer(lsdb: LsDb, link: Link, now: nat)
    requires lsdb.Valid()
    modifies lsdb
    ensures Did(lsdb, old(lsdb.db), old(lsdb.outbox), lsdb.links, {})
    ensures Made(lsdb, AddPeer(link), old(lsdb.cost), old(lsdb.db), old(lsdb.links), old(lsdb.routes.table), now)
    ensures Spread(lsdb, AddPeer(link), old(lsdb.db), old(lsdb.routes.table), lsdb.links,
                   old(lsdb.nextHop), old(lsdb.outbox))
  {
    lsdb.AddPeer(link, now);
    JoinTells(lsdb.selfId, old(lsdb.db), lsdb.db, lsdb.links, lsdb.nextHop, lsdb.db[SelfKey(lsdb.selfId)].lsa, link,
              old(lsdb.outbox), lsdb.outbox);
    OwnIsLawful(lsdb.selfId, old(lsdb.db), lsdb.db, lsdb.links, lsdb.outbox[|old(lsdb.outbox)|..]);
    JoinIsOffered(lsdb.db, lsdb.links, lsdb.nextHop, lsdb.db[SelfKey(lsdb.selfId)].lsa, link, old(lsdb.outbox),
                  lsdb.outbox);
  }

  method PerformRemovePeer(lsdb: LsDb, conn: ConnectionId, now: nat)
    requires lsdb.Valid()
    modifies lsdb
    ensures Did(lsdb, old(lsdb.db), old(lsdb.outbox), lsdb.links, {})
    ensures Made(lsdb, RemovePeer(conn), old(lsdb.cost), old(lsdb.db), old(lsdb.links), old(lsdb.routes.table), now)
    ensures Spread(lsdb, RemovePeer(conn), old(lsdb.db), old(lsdb.routes.table), lsdb.links,
                   old(lsdb.nextHop), old(lsdb.outbox))
  {
    lsdb.RemovePeer(conn, now);
    if conn in old(lsdb.links) {
      OwnChangeSpreads(RemovePeer(conn), lsdb.selfId, old(lsdb.db), old(lsdb.routes.table), lsdb.db, lsdb.links,
                       old(lsdb.nextHop), SelfKey(lsdb.selfId), old(lsdb.outbox), lsdb.outbox);
    } else {
      OwnIsLawful(lsdb.selfId, old(lsdb.db), lsdb.db, lsdb.links, []);
      assert lsdb.outbox[|old(lsdb.outbox)|..] == [];
    }
  }

  method PerformAddEndpoint(lsdb: LsDb, id: EndpointId, info: EndpointInfo, sender: Listener, now: nat)
    requires lsdb.Valid()
    modifies lsdb, lsdb.routes
    ensures Did(lsdb, old(lsdb.db), old(lsdb.outbox), lsdb.links, {})
    ensures Made(lsdb, AddEndpoint(id, info, sender), old(lsdb.cost), old(lsdb.db), old(lsdb.links),
                 old(lsdb.routes.table), now)
    ensures Spread(lsdb, AddEndpoint(id, info, sender), old(lsdb.db), old(lsdb.routes.table), lsdb.links,
                   old(lsdb.nextHop), old(lsdb.outbox))
  {
    var ok := lsdb.AddEndpoint(id, info, sender, now);
    if ok {
      if info.kind != Node && !HasLocal(EntryOr(old(lsdb.routes.table), id, info.kind).routes) {
        FloodTells(lsdb.selfId, old(lsdb.db), lsdb.db, lsdb.links, {}, lsdb.nextHop,
                   lsdb.db[LsaKey(lsdb.selfId, id)].lsa, Some(0), old(lsdb.outbox), lsdb.outbox);
      } else {
        CostTells(lsdb.selfId, id, old(lsdb.db), lsdb.db, lsdb.links, lsdb.nextHop, old(lsdb.outbox), lsdb.outbox);
      }
    }
    OwnIsLawful(lsdb.selfId, old(lsdb.db), lsdb.db, lsdb.links, lsdb.outbox[|old(lsdb.outbox)|..]);
    if ok {
      if info.kind != Node && !HasLocal(EntryOr(old(lsdb.routes.table), id, info.kind).routes) {
        AppendedIsOffered(lsdb.links, lsdb.nextHop, lsdb.db[LsaKey(lsdb.selfId, id)].lsa, Some(0),
                          old(lsdb.outbox), old(lsdb.outbox), lsdb.outbox, lsdb.outbox);
      } else {
        CostIsOffered(lsdb.selfId, id, old(lsdb.db), lsdb.db, lsdb.links, lsdb.nextHop, old(lsdb.outbox), lsdb.outbox);
      }
    }
  }

  method PerformRemoveEndpoint(lsdb: LsDb, id: EndpointId, closed: set<Listener>, now: nat)
    requires lsdb.Valid()
    modifies lsdb, lsdb.routes
    ensures Did(lsdb, old(lsdb.db), old(lsdb.outbox), lsdb.links, {})
    ensures Made(lsdb, RemoveEndpoint(id, closed), old(lsdb.cost), old(lsdb.db), old(lsdb.links),
                 old(lsdb.routes.table), now)
    ensures Spread(lsdb, RemoveEndpoint(id, closed), old(lsdb.db), old(lsdb.routes.table), lsdb.links,
                   old(lsdb.nextHop), old(lsdb.outbox))
  {
    lsdb.RemoveEndpoint(id, closed, now);
    RemovalTells(lsdb.selfId, id, old(lsdb.db), lsdb.db, lsdb.links, lsdb.nextHop,
                 id !in lsdb.routes.table && id in old(lsdb.routes.table), old(lsdb.outbox), lsdb.outbox);
    OwnIsLawful(lsdb.selfId, old(lsdb.db), lsdb.db, lsdb.links, lsdb.outbox[|old(lsdb.outbox)|..]);
    RemovalIsOffered(lsdb.selfId, id, old(lsdb.db), lsdb.db, lsdb.links, lsdb.nextHop,
                     id !in lsdb.routes.table && id in old(lsdb.routes.table), old(lsdb.outbox), lsdb.outbox);
  }

  method PerformSetCost(lsdb: LsDb, id: EndpointId, sender: Listener, cost: Cost, now: nat)
    requires lsdb.Valid()
    modifies lsdb, lsdb.routes
    ensures Did(lsdb, old(lsdb.db), old(lsdb.outbox), lsdb.links, {})
    ensures Made(lsdb, SetAnycastCost(id, sender, cost), old(lsdb.cost), old(lsdb.db), old(lsdb.links),
                 old(lsdb.routes.table), now)
    ensures Spread(lsdb, SetAnycastCost(id, sender, cost), old(lsdb.db), old(lsdb.routes.table), lsdb.links,
                   old(lsdb.nextHop), old(lsdb.outbox))
  {
    var _ := lsdb.SetAnycastCost(id, sender, cost, now);
    CostTells(lsdb.selfId, id, old(lsdb.db), lsdb.db, lsdb.links, lsdb.nextHop, old(lsdb.outbox), lsdb.outbox);
    OwnIsLawful(lsdb.selfId, old(lsdb.db), lsdb.db, lsdb.links, lsdb.outbox[|old(lsdb.outbox)|..]);
    CostIsOffered(lsdb.selfId, id, old(lsdb.db), lsdb.db, lsdb.links, lsdb.nextHop, old(lsdb.outbox), lsdb.outbox);
  }

  method PerformTick(lsdb: LsDb, now: nat)
    requires lsdb.Valid()
    modifies lsdb
    ensures Did(lsdb, old(lsdb.db), old(lsdb.outbox), lsdb.links, {})
    ensures Made(lsdb, Operation.Tick, old(lsdb.cost), old(lsdb.db), old(lsdb.links), old(lsdb.routes.table), now)
    ensures Spread(lsdb, Operation.Tick, old(lsdb.db), old(lsdb.routes.table), lsdb.links,
                   old(lsdb.nextHop), old(lsdb.outbox))
  {
    var _ := lsdb.Tick(now);
    if old(lsdb.lastRefresh) + lsdb.lsaTimeout / 3 < now {
      RefreshTells(lsdb.selfId, old(lsdb.db), lsdb.db, lsdb.lsaTimeout, now, lsdb.links, old(lsdb.nextHop),
                   old(lsdb.outbox), lsdb.outbox);
    }
    OwnIsLawful(lsdb.selfId, old(lsdb.db), lsdb.db, lsdb.links, lsdb.outbox[|old(lsdb.outbox)|..]);
    if old(lsdb.lastRefresh) + lsdb.lsaTimeout / 3 < now {
      RefreshIsOffered(lsdb.selfId, old(lsdb.db), lsdb.db, lsdb.lsaTimeout, now, lsdb.links, old(lsdb.nextHop),
                       old(lsdb.outbox), lsdb.outbox);
    }
  }

  method PerformShutdown(lsdb: LsDb, now: nat)
    requires lsdb.Valid()
    modifies lsdb, lsdb.routes
    ensures Did(lsdb, old(lsdb.db), old(lsdb.outbox), old(lsdb.links), {})
    ensures Made(lsdb, Operation.Shutdown, old(lsdb.cost), old(lsdb.db), old(lsdb.links), old(lsdb.routes.table), now)
    ensures Spread(lsdb, Operation.Shutdown, old(lsdb.db), old(lsdb.routes.table), old(lsdb.links),
                   old(lsdb.nextHop), old(lsdb.outbox))
  {
    var _ := lsdb.Shutdown();
    FarewellIsLawful(lsdb.selfId, old(lsdb.db), old(lsdb.links), lsdb.nextHop, old(lsdb.outbox), lsdb.outbox);
    FarewellIsOffered(lsdb.selfId, old(lsdb.db), old(lsdb.routes.table), old(lsdb.links), lsdb.nextHop,
                      old(lsdb.outbox), lsdb.outbox);
  }

  /** Whatever it is asked to do, a database in a valid state performs a lawful step,
      with the result its operations promise. */
  method Perform(lsdb: LsDb, op: Operation, now: nat)
    requires lsdb.Valid()
    modifies lsdb, lsdb.routes
    ensures Did(lsdb, old(lsdb.db), old(lsdb.outbox), if op.Shutdown? then old(lsdb.links) else lsdb.links, Heard(op))
    ensures Made(lsdb, op, old(lsdb.cost), old(lsdb.db), old(lsdb.links), old(lsdb.routes.table), now)
    ensures Spread(lsdb, op, old(lsdb.db), old(lsdb.routes.table),
                   if op.Shutdown? then old(lsdb.links) else lsdb.links, old(lsdb.nextHop), old(lsdb.outbox))
  {
    match op
    case HandleLsa(lsa, inConn) => PerformHandle(lsdb, lsa, inConn, now);
    case AddPeer(link) => PerformAddPeer(lsdb, link, now);
    case RemovePeer(conn) => PerformRemovePeer(lsdb, conn, now);
    case AddEndpoint(id, info, sender) => PerformAddEndpoint(lsdb, id, info, sender, now);
    case RemoveEndpoint(id, closed) => PerformRemoveEndpoint(lsdb, id, closed, now);
    case SetAnycastCost(id, sender, cost) => PerformSetCost(lsdb, id, sender, cost, now);
    case Tick => PerformTick(lsdb, now);
    case Shutdown => PerformShutdown(lsdb, now);
  }

  lemma HeardMore(x: NodeId, heard: set<Lsa>, more: set<Lsa>, step: Step)
    requires Lawful(x, heard, step) && heard <= more
    ensures Lawful(x, more, step)
  {
    forall m | m in step.out ensures Tells(x, step, more, m) {
      assert Tells(x, step, heard, m);
      if m.message.LsaMessage? {
        var lsa :| MayTell(x, step.was, step.db, heard, lsa) && SendLsa(step.links[m.conn], lsa) == Some(m.message.lsa);
        assert MayTell(x, step.was, step.db, more, lsa);
      }
    }
  }

  /** In a world where it has received what it is told, such a step is a move. */
  lemma StepIsMove(w: World, x: NodeId, heard: set<Lsa>, step: Step)
    requires x in w.dbs && step.was == w.dbs[x] && Lawful(x, heard, step) && heard <= HeardBy(w, x)
    ensures Moves(w, World(w.dbs[x := step.db], w.inflight + Posted(step), w.received, w.used + CrossedBy(x, step)))
  {
    HeardMore(x, heard, HeardBy(w, x), step);
    assert Operates(w, World(w.dbs[x := step.db], w.inflight + Posted(step), w.received, w.used + CrossedBy(x, step)),
                    x, step);
  }
}
