/** The link-state database of one node and everything it decides: flooding,
    shortest paths, its own advertisements and the index of remote routes. */
module LinkState {
  import opened Routing
  import opened Routes
  import opened Paths
  import opened Spf
  import opened SpfTheorems

  type Db = map<LsaKey, LsaRecord>
  type Links = map<ConnectionId, Link>

  datatype Message = LsaMessage(lsa: Lsa) | LsaAck(key: LsaKey, seq_: nat)

  // One message handed to the queue of one link; the queue may still drop it.
  datatype Outgoing = Outgoing(conn: ConnectionId, message: Message)

  function BodyKind(body: LsaBody): RouteKind {
    match body
    case Router(_) => Node
    case EndpointBody(info) => info.kind
  }

  // ------------------------------------------------------------------ topology

  /** One adjacency list per origin that holds a router advertisement. */
  ghost predicate IsTopology(db: Db, g: Graph) {
    && (forall k :: k in db && db[k].lsa.body.Router? ==> k.origin in g)
    && (forall n :: n in g ==> exists k :: k in db && k.origin == n && db[k].lsa.body == Router(g[n]))
  }

  /** With one router advertisement per origin the topology is unique. */
  lemma TopologyUnique(db: Db, g1: Graph, g2: Graph)
    requires IsTopology(db, g1) && IsTopology(db, g2)
    requires forall k1, k2 | k1 in db && k2 in db && db[k1].lsa.body.Router? && db[k2].lsa.body.Router? ::
               k1.origin == k2.origin ==> k1 == k2
    ensures g1 == g2
  {
  }

  /** A shortest-path result for the routers in the database. */
  ghost predicate CurrentTree(db: Db, self: NodeId, links: Links, t: Tree) {
    exists g :: IsTopology(db, g) && IsSpf(g, self, links, t)
  }

  // ----------------------------------------------------------------- acceptance

  predicate Newer(db: Db, lsa: Lsa) {
    lsa.key !in db || db[lsa.key].lsa.seq_ < lsa.seq_
  }

  /** A withdrawal counts only against an older stored record. */
  predicate Withdraws(db: Db, lsa: Lsa) {
    lsa.key in db && db[lsa.key].lsa.seq_ < lsa.seq_
  }

  function AfterWithdrawal(db: Db, lsa: Lsa): Db {
    if !Withdraws(db, lsa) then db
    else if db[lsa.key].lsa.body.Router? then map k | k in db && k.origin != lsa.key.origin :: db[k]
    else db - {lsa.key}
  }

  /** What the index records for an advertisement: a router counts as a node route at its current cost. */
  function IndexInfo(lsa: Lsa, cost: map<NodeId, Cost>): EndpointInfo {
    match lsa.body
    case Router(_) => EndpointInfo(Node, Global, CostOf(cost, lsa.key.origin))
    case EndpointBody(info) => info
  }

  function EndpointsOf(db: Db, origin: NodeId): set<EndpointId> {
    set k | k in db && k.origin == origin :: k.endpointId
  }

  /** The route table after a withdrawal: a router takes the routes of all its records along. */
  function TableAfterWithdrawal(db: Db, table: Table, lsa: Lsa): Table {
    if lsa.key in db && !Withdraws(db, lsa) then table
    else if lsa.key in db && db[lsa.key].lsa.body.Router? then
      Forget(table, lsa.key.origin, EndpointsOf(db, lsa.key.origin))
    else WithoutRemote(table, lsa.key.endpointId, lsa.key.origin)
  }

  /** The database after an advertisement has come in: own ones are ignored,
      withdrawals remove, strictly newer ones replace. */
  function Handled(db: Db, self: NodeId, lsa: Lsa, now: nat): Db {
    if lsa.key.origin == self then db
    else if lsa.dead then AfterWithdrawal(db, lsa)
    else if Newer(db, lsa) then db[lsa.key := LsaRecord(lsa, now)]
    else db
  }

  function HandledTable(db: Db, table: Table, self: NodeId, cost: map<NodeId, Cost>, lsa: Lsa): Table {
    if lsa.key.origin == self then table
    else if lsa.dead then TableAfterWithdrawal(db, table, lsa)
    else if Newer(db, lsa) then WithRemote(table, lsa.key.endpointId, lsa.key.origin, IndexInfo(lsa, cost))
    else table
  }

  /** Does the advertisement change what is stored, so that it is passed on? */
  predicate Fresh(db: Db, self: NodeId, lsa: Lsa) {
    lsa.key.origin != self && if lsa.dead then Withdraws(db, lsa) else Newer(db, lsa)
  }

  /** While a record stays, its sequence number never falls. */
  lemma HandledIsMonotone(db: Db, self: NodeId, lsa: Lsa, now: nat, k: LsaKey)
    requires KeysOk(db, map[]) && k in db && k in Handled(db, self, lsa, now)
    ensures db[k].lsa.seq_ <= Handled(db, self, lsa, now)[k].lsa.seq_
  {
  }

  /** A withdrawal that removes a record: it is numbered above the record it names, which
      is this one or a router record of the same origin. */
  predicate Erases(db: Db, lsa: Lsa, k: LsaKey) {
    && lsa.dead && lsa.key in db && db[lsa.key].lsa.seq_ < lsa.seq_
    && (lsa.key == k || (lsa.key.origin == k.origin && db[lsa.key].lsa.body.Router?))
  }

  /** A record goes at an arrival exactly if such a withdrawal comes in, from another
      node; and only a withdrawal that removes the record it names is passed on. */
  lemma ErasedExactly(db: Db, self: NodeId, lsa: Lsa, now: nat, k: LsaKey)
    ensures k in db ==> (k !in Handled(db, self, lsa, now) <==> lsa.key.origin != self && Erases(db, lsa, k))
    ensures lsa.dead ==> (Fresh(db, self, lsa) <==> lsa.key.origin != self && Erases(db, lsa, lsa.key))
    ensures lsa.dead && k !in db ==> k !in Handled(db, self, lsa, now)
  {
  }

  /** An outdated withdrawal changes nothing and goes nowhere. */
  lemma OldWithdrawalIsVoid(db: Db, table: Table, self: NodeId, cost: map<NodeId, Cost>, lsa: Lsa, now: nat)
    requires lsa.dead && lsa.key in db && lsa.seq_ <= db[lsa.key].lsa.seq_
    ensures Handled(db, self, lsa, now) == db && HandledTable(db, table, self, cost, lsa) == table
    ensures !Fresh(db, self, lsa)
  {
  }

  /** A withdrawal leaves no tombstone: exactly the withdrawn records can come
      back, from any old copy of them. */
  lemma OldCopyReturns(db: Db, lsa: Lsa, copy: Lsa)
    requires copy.key in db && copy.seq_ <= db[copy.key].lsa.seq_
    ensures Newer(AfterWithdrawal(db, lsa), copy) <==>
              Withdraws(db, lsa) &&
              (copy.key == lsa.key || (db[lsa.key].lsa.body.Router? && copy.key.origin == lsa.key.origin))
  {
  }

  /** An accepted withdrawal of a router leaves no record of that origin and no
      route, but for routes whose own record had expired before. */
  lemma NothingLeft(db: Db, table: Table, self: NodeId, orphans: set<LsaKey>, lsa: Lsa)
    requires lsa.key.origin != self && Withdraws(db, lsa) && db[lsa.key].lsa.body.Router?
    requires IndexOk(db, table, self, orphans)
    ensures forall k :: k in AfterWithdrawal(db, lsa) ==> k.origin != lsa.key.origin
    ensures var table' := TableAfterWithdrawal(db, table, lsa);
            forall e, r :: e in table' && r in table'[e].routes && r.via == ToNode(lsa.key.origin) ==>
              LsaKey(lsa.key.origin, e) in orphans
  {
    var table' := TableAfterWithdrawal(db, table, lsa);
    forall e, r | e in table' && r in table'[e].routes && r.via == ToNode(lsa.key.origin)
      ensures LsaKey(lsa.key.origin, e) in orphans
    {
      assert e in table && Indexed(db, self, orphans, e, table[e].kind, r);
    }
  }

  /** Whatever advertisement comes in, every local listener keeps its route. */
  lemma HandledSparesLocals(db: Db, table: Table, self: NodeId, cost: map<NodeId, Cost>, lsa: Lsa, e: EndpointId)
    ensures LocalRoutesAt(HandledTable(db, table, self, cost, lsa), e) == LocalRoutesAt(table, e)
  {
    RemoteSparesLocals(table, lsa.key.endpointId, lsa.key.origin, IndexInfo(lsa, cost), e);
    RemovalSparesLocals(table, lsa.key.endpointId, lsa.key.origin, e);
    ForgettingSparesLocals(table, lsa.key.origin, EndpointsOf(db, lsa.key.origin), e);
  }

  /** And every other origin keeps its routes. */
  lemma HandledSparesOthers(db: Db, table: Table, self: NodeId, cost: map<NodeId, Cost>, lsa: Lsa, e: EndpointId,
                            r: Route)
    requires r.via != ToNode(lsa.key.origin)
    ensures var table' := HandledTable(db, table, self, cost, lsa);
            e in table' && r in table'[e].routes <==> e in table && r in table[e].routes
  {
    var table' := HandledTable(db, table, self, cost, lsa);
    if e in table && r in table[e].routes {
      var j :| 0 <= j < |table[e].routes| && table[e].routes[j] == r;
      assert lsa.dead ==> e in table' && r in table'[e].routes;
      assert !lsa.dead ==> e in table' && j < |table'[e].routes| && table'[e].routes[j] == r;
    }
  }

  // ------------------------------------------------------------------ flooding

  /** Not back to the sender, not to the originator, and not along the path
      by which this node reaches the originator. */
  predicate FloodsTo(conn: ConnectionId, link: Link, nextHop: map<NodeId, Link>, origin: NodeId,
                     inConn: Option<ConnectionId>) {
    && inConn != Some(conn)
    && origin != link.peerId
    && !(origin in nextHop && nextHop[origin].peerId == link.peerId)
  }

  /** What a flood puts on each link: realm-restricted copies, one per link. */
  function FloodBatch(links: Links, nextHop: map<NodeId, Link>, lsa: Lsa,
                      inConn: Option<ConnectionId>): map<ConnectionId, Lsa> {
    map c | c in links && FloodsTo(c, links[c], nextHop, lsa.key.origin, inConn) && SendLsa(links[c], lsa).Some? ::
      SendLsa(links[c], lsa).value
  }

  /** A flood that names a connection leaves out that link and no other, whether
      or not anything has come in over it. */
  lemma SkipsOneLink(links: Links, nextHop: map<NodeId, Link>, lsa: Lsa, conn: ConnectionId)
    ensures FloodBatch(links, nextHop, lsa, Some(conn)) == FloodBatch(links, nextHop, lsa, None) - {conn}
  {
  }

  /** The messages of a batch, each exactly once, in any order. */
  ghost predicate Enumerates(out: seq<Outgoing>, batch: map<ConnectionId, Lsa>) {
    && (forall m :: m in out ==> m.conn in batch && m.message == LsaMessage(batch[m.conn]))
    && (forall c :: c in batch ==> Outgoing(c, LsaMessage(batch[c])) in out)
    && (forall i, j :: 0 <= i < j < |out| ==> out[i].conn != out[j].conn)
  }

  ghost predicate Appends(before: seq<Outgoing>, after: seq<Outgoing>, batch: map<ConnectionId, Lsa>) {
    |before| <= |after| && after[..|before|] == before && Enumerates(after[|before|..], batch)
  }

  /** The messages put on one connection, in order. */
  function SentOn(out: seq<Outgoing>, conn: ConnectionId): seq<Message> {
    if out == [] then []
    else (if out[0].conn == conn then [out[0].message] else []) + SentOn(out[1..], conn)
  }

  /** Something is left of the advertisement on a link with these realms. */
  ghost predicate SharesRealm(body: LsaBody, realms: RealmList) {
    match body
    case Router(adjacencies) => exists a :: a in adjacencies && a.realms * realms != {}
    case EndpointBody(info) => info.realm in realms
  }

  ghost predicate CutFrom(a: Adjacency, adjacencies: seq<Adjacency>, realms: RealmList) {
    a.realms != {} && exists b :: b in adjacencies && a == b.(realms := b.realms * realms)
  }

  /** The same instance: an endpoint's as it is, a router's with just the adjacencies
      that share a realm, cut down to the shared realms. */
  ghost predicate IsFiltered(lsa: Lsa, realms: RealmList, copy: Lsa) {
    && copy.key == lsa.key && copy.seq_ == lsa.seq_ && copy.dead == lsa.dead
    && match lsa.body
       case EndpointBody(_) => copy.body == lsa.body
       case Router(adjacencies) =>
         && copy.body.Router?
         && forall a :: a in copy.body.adjacencies <==> CutFrom(a, adjacencies, realms)
  }

  lemma SendsFiltered(link: Link, lsa: Lsa)
    ensures SendLsa(link, lsa).Some? <==> SharesRealm(lsa.body, link.realms)
    ensures SendLsa(link, lsa).Some? ==> IsFiltered(lsa, link.realms, SendLsa(link, lsa).value)
  {
    if lsa.body.Router? {
      RestrictIs(lsa.body.adjacencies, link.realms);
      var kept := Restrict(lsa.body.adjacencies, link.realms);
      assert kept != [] ==> kept[0] in kept;
    }
  }

  /** What one link gets of a flood: just one filtered copy, unless the advertisement has
      come over it, it leads to the origin or to the next hop towards the origin, or
      nothing is left on it. */
  ghost predicate GetsExactly(links: Links, nextHop: map<NodeId, Link>, lsa: Lsa, inConn: Option<ConnectionId>,
                              sent: seq<Outgoing>, c: ConnectionId) {
    if && c in links && inConn != Some(c) && links[c].peerId != lsa.key.origin
       && (lsa.key.origin in nextHop ==> links[c].peerId != nextHop[lsa.key.origin].peerId)
       && SharesRealm(lsa.body, links[c].realms)
    then exists copy :: SentOn(sent, c) == [LsaMessage(copy)] && IsFiltered(lsa, links[c].realms, copy)
    else SentOn(sent, c) == []
  }

  ghost predicate FloodsExactly(links: Links, nextHop: map<NodeId, Link>, lsa: Lsa, inConn: Option<ConnectionId>,
                                before: seq<Outgoing>, after: seq<Outgoing>) {
    before <= after &&
    forall c: ConnectionId {:trigger GetsExactly(links, nextHop, lsa, inConn, after[|before|..], c)} ::
      GetsExactly(links, nextHop, lsa, inConn, after[|before|..], c)
  }

  lemma {:induction false} SentOnOnce(out: seq<Outgoing>, c: ConnectionId)
    requires forall i, j :: 0 <= i < j < |out| ==> out[i].conn != out[j].conn
    ensures forall m :: m in out && m.conn == c ==> SentOn(out, c) == [m.message]
    ensures (forall m :: m in out ==> m.conn != c) ==> SentOn(out, c) == []
  {
    if out != [] {
      SentOnOnce(out[1..], c);
      assert forall m :: m in out <==> m == out[0] || m in out[1..];
      assert forall m :: m in out[1..] ==> m.conn != out[0].conn;
    }
  }

  /** Any advertisement, of an endpoint or a router, alive or withdrawn, is flooded to
      exactly those links, once. */
  lemma FloodIsExact(links: Links, nextHop: map<NodeId, Link>, lsa: Lsa, inConn: Option<ConnectionId>,
                     before: seq<Outgoing>, after: seq<Outgoing>)
    requires Appends(before, after, FloodBatch(links, nextHop, lsa, inConn))
    ensures FloodsExactly(links, nextHop, lsa, inConn, before, after)
  {
    var sent := after[|before|..];
    var batch := FloodBatch(links, nextHop, lsa, inConn);
    forall c: ConnectionId ensures GetsExactly(links, nextHop, lsa, inConn, sent, c) {
      SentOnOnce(sent, c);
      if c in links {
        SendsFiltered(links[c], lsa);
      }
      if c in batch {
        assert Outgoing(c, LsaMessage(batch[c])) in sent;
      }
    }
  }

  /** A changed own advertisement has been offered to the neighbours, an unchanged one not. */
  ghost predicate CostFlooded(db: Db, db': Db, self: NodeId, id: EndpointId, links: Links, nextHop: map<NodeId, Link>,
                              before: seq<Outgoing>, after: seq<Outgoing>) {
    if db' == db then after == before
    else LsaKey(self, id) in db' && Appends(before, after, FloodBatch(links, nextHop, db'[LsaKey(self, id)].lsa, None))
  }

  /** A node that goes offers its neighbours the withdrawal of its router advertisement. */
  ghost predicate NodeWithdrawn(db: Db, self: NodeId, links: Links, nextHop: map<NodeId, Link>, before: seq<Outgoing>,
                                after: seq<Outgoing>)
    requires SelfKey(self) in db
  {
    var lsa := db[SelfKey(self)].lsa;
    Appends(before, after, FloodBatch(links, nextHop, lsa.(dead := true, seq_ := lsa.seq_ + 1), None))
  }

  /** The withdrawal of an endpoint that is gone, or else its changed cost, has been offered. */
  ghost predicate RemovalFlooded(db: Db, db': Db, self: NodeId, id: EndpointId, gone: bool, links: Links,
                                 nextHop: map<NodeId, Link>, before: seq<Outgoing>, after: seq<Outgoing>) {
    if gone && LsaKey(self, id) in db then
      var lsa := db[LsaKey(self, id)].lsa;
      Appends(before, after, FloodBatch(links, nextHop, lsa.(dead := true, seq_ := lsa.seq_ + 1), None))
    else CostFlooded(db, db', self, id, links, nextHop, before, after)
  }

  /** A single accepted or refused synchronisation of one new link. */
  ghost predicate SentFor(db: Db, link: Link, conn: ConnectionId, sent: seq<Outgoing>, keys: seq<LsaKey>) {
    && |sent| == |keys|
    && (forall i, j :: 0 <= i < j < |keys| ==> keys[i] != keys[j])
    && (forall i :: 0 <= i < |sent| ==>
          keys[i] in db && SendLsa(link, db[keys[i]].lsa).Some? &&
          sent[i] == Outgoing(conn, LsaMessage(SendLsa(link, db[keys[i]].lsa).value)))
  }

  /** `sent` is the realm-restricted copy of every record, once each. */
  ghost predicate Synchronizes(db: Db, link: Link, conn: ConnectionId, sent: seq<Outgoing>) {
    exists keys ::
      && SentFor(db, link, conn, sent, keys)
      && forall k :: k in db && SendLsa(link, db[k].lsa).Some? ==> k in keys
  }

  /** A new link: everyone else gets the changed advertisement, the new peer everything. */
  ghost predicate Joined(db: Db, links: Links, nextHop: map<NodeId, Link>, lsa: Lsa, link: Link,
                         before: seq<Outgoing>, after: seq<Outgoing>) {
    exists mid ::
      && Appends(before, mid, FloodBatch(links, nextHop, lsa, Some(link.connectionId)))
      && mid <= after && Synchronizes(db, link, link.connectionId, after[|mid|..])
  }

  /** Every entry kept its kind or is new and of kind `kind`. */
  ghost predicate KindsFrom(table: Table, table': Table, kind: RouteKind) {
    forall e {:trigger KindAt(table, table', kind, e)} :: KindAt(table, table', kind, e)
  }

  ghost predicate KindAt(table: Table, table': Table, kind: RouteKind, e: EndpointId) {
    e in table' ==> (e in table && table[e].kind == table'[e].kind) || table'[e].kind == kind
  }

  lemma HandledKinds(db: Db, table: Table, self: NodeId, cost: map<NodeId, Cost>, lsa: Lsa)
    ensures KindsFrom(table, HandledTable(db, table, self, cost, lsa), BodyKind(lsa.body))
  {
  }

  // ---------------------------------------------------------------- invariants

  function SelfKey(self: NodeId): LsaKey {
    LsaKey(self, self)
  }

  ghost predicate KeysOk(db: Db, links: Links) {
    && (forall k :: k in db ==> db[k].lsa.key == k && !db[k].lsa.dead)
    && (forall c :: c in links ==> links[c].connectionId == c)
  }

  /** Own adjacencies and links match one to one, by connection and peer. */
  ghost predicate Matched(adjacencies: seq<Adjacency>, links: Links) {
    && (forall a :: a in adjacencies ==>
          a.connectionId in links && links[a.connectionId] == Link(a.peerId, a.connectionId, a.realms, a.cost))
    && (forall c :: c in links ==> exists a :: a in adjacencies && a.connectionId == c)
    && (forall i, j :: 0 <= i < j < |adjacencies| ==> adjacencies[i].connectionId != adjacencies[j].connectionId)
  }

  ghost predicate OwnRouterOk(db: Db, links: Links, self: NodeId) {
    && SelfKey(self) in db
    && db[SelfKey(self)].lsa.body.Router?
    && Matched(db[SelfKey(self)].lsa.body.adjacencies, links)
    && (forall k :: k in db && k.origin == self && db[k].lsa.body.Router? ==> k == SelfKey(self))
  }

  /** The node's own advertisement of an endpoint, with the least local cost when it is anycast. */
  ghost predicate Advertises(db: Db, self: NodeId, e: EndpointId, entry: RouteEntry) {
    var k := LsaKey(self, e);
    && k in db && db[k].lsa.body.EndpointBody? && db[k].lsa.body.info.kind == entry.kind
    && (entry.kind == Anycast ==> Some(db[k].lsa.body.info.cost) == MinLocalCost(entry.routes))
  }

  ghost predicate AdvertisedOk(db: Db, table: Table, self: NodeId) {
    forall e {:trigger Advertises(db, self, e, table[e])} ::
      e in table && MinLocalCost(table[e].routes).Some? ==> Advertises(db, self, e, table[e])
  }

  /** A remote route stands for a record of its origin, with the same cost and
      realm when the kinds agree; `orphans` are keys whose record has expired. */
  ghost predicate Indexed(db: Db, self: NodeId, orphans: set<LsaKey>, e: EndpointId, kind: RouteKind, r: Route)
    requires r.via.ToNode?
  {
    var k := LsaKey(r.via.node, e);
    && r.via.node != self
    && (k in db || k in orphans)
    && (k in db && kind != Node && BodyKind(db[k].lsa.body) == kind ==>
          db[k].lsa.body.info.cost == r.cost && db[k].lsa.body.info.realm == r.realm)
  }

  ghost predicate IndexOk(db: Db, table: Table, self: NodeId, orphans: set<LsaKey>) {
    forall e, r {:trigger Indexed(db, self, orphans, e, table[e].kind, r)} ::
      e in table && r in table[e].routes && r.via.ToNode? ==> Indexed(db, self, orphans, e, table[e].kind, r)
  }

  ghost predicate StateOk(db: Db, links: Links, table: Table, self: NodeId, orphans: set<LsaKey>) {
    && KeysOk(db, links)
    && OwnRouterOk(db, links, self)
    && TableOk(table)
    && AdvertisedOk(db, table, self)
    && IndexOk(db, table, self, orphans)
  }

  /** Every adjacency a node advertises has a live link: the first hop always exists. */
  ghost predicate LinksCover(g: Graph, root: NodeId, links: Links) {
    forall a :: a in Adj(g, root) ==> exists l :: l in links.Values && l.peerId == a.peerId
  }

  lemma OwnLinksCover(db: Db, links: Links, self: NodeId, g: Graph)
    requires OwnRouterOk(db, links, self) && IsTopology(db, g)
    ensures LinksCover(g, self, links)
  {
    forall a | a in Adj(g, self) ensures exists l :: l in links.Values && l.peerId == a.peerId {
      var k :| k in db && k.origin == self && db[k].lsa.body == Router(g[self]);
      assert k == SelfKey(self);
      assert links[a.connectionId] in links.Values;
    }
  }

  // ------------------------------------------- what each change keeps

  lemma UpsertKeeps(db: Db, table: Table, self: NodeId, orphans: set<LsaKey>, rec: LsaRecord, info: EndpointInfo)
    requires TableOk(table) && AdvertisedOk(db, table, self) && IndexOk(db, table, self, orphans)
    requires rec.lsa.key.origin != self
    requires rec.lsa.body.EndpointBody? ==> info == rec.lsa.body.info
    requires rec.lsa.body.Router? ==> info.kind == Node
    ensures var key := rec.lsa.key;
            var table' := WithRemote(table, key.endpointId, key.origin, info);
            && AdvertisedOk(db[key := rec], table', self)
            && IndexOk(db[key := rec], table', self, orphans - {key})
  {
    var key := rec.lsa.key;
    var id, origin := key.endpointId, key.origin;
    var db', table' := db[key := rec], WithRemote(table, id, origin, info);
    var entry := EntryOr(table, id, info.kind);
    var i := IndexOf(entry.routes, ToNode(origin));
    assert id in table ==> EntryOk(table[id]);
    forall e | e in table' && MinLocalCost(table'[e].routes).Some? ensures Advertises(db', self, e, table'[e]) {
      if e == id && i < |entry.routes| {
        MinLocalIgnoresUpdate(entry.routes, i, entry.routes[i].(cost := info.cost, realm := info.realm));
      } else if e == id {
        MinLocalAppend(entry.routes, Route(ToNode(origin), info.cost, info.realm, info.kind));
      }
      assert e in table && Advertises(db, self, e, table[e]);
    }
    forall e, r | e in table' && r in table'[e].routes && r.via.ToNode?
      ensures Indexed(db', self, orphans - {key}, e, table'[e].kind, r)
    {
      if e in table && r in table[e].routes {
        assert Indexed(db, self, orphans, e, table[e].kind, r);
        if e == id && r.via.node == origin && info.kind == entry.kind {
          var j :| 0 <= j < |table[e].routes| && table[e].routes[j] == r;
          assert j == i;
          assert table'[e].routes == entry.routes[i := r.(cost := info.cost, realm := info.realm)];
        }
      }
    }
  }

  lemma RemoveKeeps(db: Db, table: Table, self: NodeId, orphans: set<LsaKey>, id: EndpointId, origin: NodeId)
    requires AdvertisedOk(db, table, self) && IndexOk(db, table, self, orphans) && origin != self
    ensures var table' := WithoutRemote(table, id, origin);
            && AdvertisedOk(db - {LsaKey(origin, id)}, table', self)
            && IndexOk(db - {LsaKey(origin, id)}, table', self, orphans - {LsaKey(origin, id)})
            && IndexOk(db, table', self, orphans)
  {
    var db', table' := db - {LsaKey(origin, id)}, WithoutRemote(table, id, origin);
    forall e | e in table' && MinLocalCost(table'[e].routes).Some? ensures Advertises(db', self, e, table'[e]) {
      if e == id {
        MinLocalIgnoresRemoval(table[id].routes, origin);
      }
      assert Advertises(db, self, e, table[e]);
    }
    forall e, r | e in table' && r in table'[e].routes && r.via.ToNode?
      ensures Indexed(db, self, orphans, e, table'[e].kind, r)
      ensures Indexed(db', self, orphans - {LsaKey(origin, id)}, e, table'[e].kind, r)
    {
      assert r in table[e].routes && Indexed(db, self, orphans, e, table[e].kind, r);
    }
  }

  /** The database with a new cost in the node's own advertisement of an endpoint. */
  function Recosted(db: Db, self: NodeId, id: EndpointId, cost: Cost, now: nat): Db {
    var k := LsaKey(self, id);
    if k !in db || !db[k].lsa.body.EndpointBody? || db[k].lsa.body.info.cost == cost then db
    else
      var lsa := db[k].lsa;
      db[k := LsaRecord(lsa.(seq_ := lsa.seq_ + 1, body := EndpointBody(lsa.body.info.(cost := cost))), now)]
  }

  /** Own advertisements are right but for the cost of `id`, which is to become `cost`. */
  ghost predicate AwaitsCost(db: Db, table: Table, self: NodeId, id: EndpointId, cost: Cost) {
    && (forall e :: e in table && e != id && MinLocalCost(table[e].routes).Some? ==> Advertises(db, self, e, table[e]))
    && id in table && MinLocalCost(table[id].routes) == Some(cost)
    && LsaKey(self, id) in db && db[LsaKey(self, id)].lsa.body.EndpointBody?
    && db[LsaKey(self, id)].lsa.body.info.kind == table[id].kind
  }

  lemma RecostKeeps(db: Db, links: Links, table: Table, self: NodeId, orphans: set<LsaKey>, id: EndpointId, cost: Cost,
                    now: nat)
    requires KeysOk(db, links) && OwnRouterOk(db, links, self) && IndexOk(db, table, self, orphans)
    requires AwaitsCost(db, table, self, id, cost) && TableOk(table)
    ensures StateOk(Recosted(db, self, id, cost, now), links, table, self, orphans)
  {
    var db' := Recosted(db, self, id, cost, now);
    forall e | e in table && MinLocalCost(table[e].routes).Some? ensures Advertises(db', self, e, table[e]) {
      assert e != id ==> Advertises(db, self, e, table[e]);
    }
    forall e, r | e in table && r in table[e].routes && r.via.ToNode?
      ensures Indexed(db', self, orphans, e, table[e].kind, r)
    {
      assert Indexed(db, self, orphans, e, table[e].kind, r);
    }
  }

  /** Changing only the listeners of one endpoint leaves the index of remote routes alone. */
  lemma ListenersKeepIndex(db: Db, db': Db, table: Table, table': Table, self: NodeId, orphans: set<LsaKey>,
                           id: EndpointId)
    requires IndexOk(db, table, self, orphans)
    requires forall k: LsaKey :: k.origin != self ==> (k in db <==> k in db') && (k in db ==> db'[k] == db[k])
    requires forall e :: e != id ==> (e in table' <==> e in table) && (e in table ==> table'[e] == table[e])
    requires id in table' ==> forall r :: r in table'[id].routes && r.via.ToNode? ==>
               id in table && r in table[id].routes && table'[id].kind == table[id].kind
    ensures IndexOk(db', table', self, orphans)
  {
    forall e, r | e in table' && r in table'[e].routes && r.via.ToNode?
      ensures Indexed(db', self, orphans, e, table'[e].kind, r)
    {
      assert Indexed(db, self, orphans, e, table[e].kind, r);
    }
  }

  /** A database that advertises an endpoint's first listener. */
  function WithAnnouncement(db: Db, self: NodeId, id: EndpointId, info: EndpointInfo, now: nat): Db {
    db[LsaKey(self, id) := LsaRecord(Lsa(LsaKey(self, id), 0, false, EndpointBody(info)), now)]
  }

  /** The route table after a local registration that was not refused. */
  ghost predicate Registered(table: Table, table': Table, id: EndpointId, info: EndpointInfo, sender: Listener) {
    && id in table' && table' == table[id := table'[id]] && table'[id].kind == info.kind
    && (id in table ==> table[id].kind == info.kind)
    && table'[id].routes == EntryOr(table, id, info.kind).routes +
         if info.kind == Node then [] else [Route(ToListener(sender), info.cost, info.realm, info.kind)]
  }

  /** The database after a registration: the first listener announces the endpoint,
      a cheaper anycast listener lowers the advertised cost. */
  function AfterRegistration(db: Db, self: NodeId, table: Table, id: EndpointId, info: EndpointInfo, now: nat): Db {
    var routes := EntryOr(table, id, info.kind).routes;
    if info.kind == Node then db
    else if !HasLocal(routes) then WithAnnouncement(db, self, id, info, now)
    else if info.kind == Anycast && MinLocalCost(routes).Some? && info.cost < MinLocalCost(routes).value then
      Recosted(db, self, id, info.cost, now)
    else db
  }

  /** The database after listeners have closed: without any route left the
      endpoint's advertisement goes, a risen anycast minimum is advertised. */
  function AfterRemoval(db: Db, self: NodeId, table: Table, id: EndpointId, closed: set<Listener>, now: nat): Db {
    if id !in table then db
    else
      var kept := OpenRoutes(table, id, closed);
      if kept == [] then db - {LsaKey(self, id)}
      else if table[id].kind == Anycast && MinimumMoves(table[id].routes, kept)
      then Recosted(db, self, id, MinLocalCost(kept).value, now)
      else db
  }

  /** The database after a listener's cost has changed: only a moved minimum is advertised. */
  function AfterCostChange(db: Db, self: NodeId, table: Table, id: EndpointId, sender: Listener, cost: Cost,
                           now: nat): Db {
    if !CostChanges(table, id, sender, cost) then db
    else
      var least := MinLocalCost(WithCost(table, id, sender, cost)[id].routes);
      if least.None? || least == MinLocalCost(table[id].routes) then db else Recosted(db, self, id, least.value, now)
  }

  /** The first announcement of an endpoint starts at 0, so a node takes it exactly
      if it has no record of the endpoint from this origin at all. */
  lemma AnnouncementTaken(db: Db, self: NodeId, id: EndpointId, info: EndpointInfo, now: nat, other: Db)
    ensures Newer(other, WithAnnouncement(db, self, id, info, now)[LsaKey(self, id)].lsa) <==>
              LsaKey(self, id) !in other
  {
  }

  /** Own sequence numbers can fall while the record stays: exactly when a first
      listener is announced over a record that has been advertised before. */
  lemma OwnNumberFalls(db: Db, self: NodeId, table: Table, id: EndpointId, info: EndpointInfo, now: nat, k: LsaKey)
    requires k in db
    ensures var db' := AfterRegistration(db, self, table, id, info, now);
            k in db' &&
            (db'[k].lsa.seq_ < db[k].lsa.seq_ <==>
               k == LsaKey(self, id) && db[k].lsa.seq_ > 0 &&
               info.kind != Node && !HasLocal(EntryOr(table, id, info.kind).routes))
  {
  }

  /** The last local listener takes the advertisement along exactly when no
      remote origin offers the endpoint too. */
  lemma AdvertisementOutlives(db: Db, table: Table, self: NodeId, id: EndpointId, closed: set<Listener>, now: nat)
    requires AdvertisedOk(db, table, self) && id in table && HasLocal(table[id].routes)
    requires forall r :: r in table[id].routes && r.via.ToListener? ==> r.via.listener in closed
    ensures LsaKey(self, id) in AfterRemoval(db, self, table, id, closed, now) <==>
              exists r :: r in table[id].routes && r.via.ToNode?
    ensures id in WithoutListeners(table, id, closed) ==> !HasLocal(WithoutListeners(table, id, closed)[id].routes)
  {
    MinLocalIsLeast(table[id].routes);
    assert Advertises(db, self, id, table[id]);
    var kept := OpenRoutes(table, id, closed);
    assert forall r :: r in kept <==> r in table[id].routes && r.via.ToNode?;
    if kept != [] {
      assert kept[0] in kept;
    }
  }

  /** An endpoint that loses its last listener while a remote origin offers it, and
      then gets a new one, is announced in vain at every node that still holds its
      record: the record was never withdrawn and the announcement is not newer. */
  lemma ReturnIsIgnored(db: Db, table: Table, self: NodeId, id: EndpointId, closed: set<Listener>, info: EndpointInfo,
                        now: nat, later: nat, other: Db)
    requires AdvertisedOk(db, table, self) && id in table && HasLocal(table[id].routes)
    requires info.kind == table[id].kind != Node
    requires forall r :: r in table[id].routes && r.via.ToListener? ==> r.via.listener in closed
    requires exists r :: r in table[id].routes && r.via.ToNode?
    requires LsaKey(self, id) in other
    ensures var db' := AfterRemoval(db, self, table, id, closed, now);
            var table' := WithoutListeners(table, id, closed);
            var db'' := AfterRegistration(db', self, table', id, info, later);
            && LsaKey(self, id) in db' && LsaKey(self, id) in db'' && db''[LsaKey(self, id)].lsa.seq_ == 0
            && !Newer(other, db''[LsaKey(self, id)].lsa)
  {
    AdvertisementOutlives(db, table, self, id, closed, now);
    assert forall r :: r in OpenRoutes(table, id, closed) <==> r in table[id].routes && r.via.ToNode?;
  }

  lemma RegisteredKeepsIndex(db: Db, db': Db, table: Table, table': Table, self: NodeId, orphans: set<LsaKey>,
                             id: EndpointId, info: EndpointInfo, sender: Listener)
    requires IndexOk(db, table, self, orphans) && Registered(table, table', id, info, sender)
    requires forall k: LsaKey :: k.origin != self ==> (k in db <==> k in db') && (k in db ==> db'[k] == db[k])
    ensures IndexOk(db', table', self, orphans)
  {
    ListenersKeepIndex(db, db', table, table', self, orphans, id);
  }

  lemma RegisteredKeepsOthers(db: Db, db': Db, table: Table, table': Table, self: NodeId, id: EndpointId,
                              info: EndpointInfo, sender: Listener)
    requires AdvertisedOk(db, table, self) && Registered(table, table', id, info, sender)
    requires forall k: LsaKey :: k != LsaKey(self, id) ==> (k in db <==> k in db') && (k in db ==> db'[k] == db[k])
    ensures forall e :: e in table' && e != id && MinLocalCost(table'[e].routes).Some? ==>
              Advertises(db', self, e, table'[e])
  {
    forall e | e in table' && e != id && MinLocalCost(table'[e].routes).Some?
      ensures Advertises(db', self, e, table'[e])
    {
      assert Advertises(db, self, e, table[e]);
    }
  }

  lemma FirstListenerKeeps(db: Db, links: Links, table: Table, table': Table, self: NodeId, orphans: set<LsaKey>,
                           id: EndpointId, info: EndpointInfo, sender: Listener, now: nat)
    requires StateOk(db, links, table, self, orphans) && TableOk(table') && id != self
    requires Registered(table, table', id, info, sender) && info.kind != Node
    requires !HasLocal(EntryOr(table, id, info.kind).routes)
    ensures StateOk(WithAnnouncement(db, self, id, info, now), links, table', self, orphans)
  {
    var before := EntryOr(table, id, info.kind).routes;
    MinLocalIsLeast(before);
    MinLocalAppend(before, Route(ToListener(sender), info.cost, info.realm, info.kind));
    RegisteredKeepsIndex(db, WithAnnouncement(db, self, id, info, now), table, table', self, orphans, id, info, sender);
    RegisteredKeepsOthers(db, WithAnnouncement(db, self, id, info, now), table, table', self, id, info, sender);
  }

  lemma NextListenerKeeps(db: Db, table: Table, table': Table, self: NodeId, orphans: set<LsaKey>,
                          id: EndpointId, info: EndpointInfo, sender: Listener)
    requires AdvertisedOk(db, table, self) && IndexOk(db, table, self, orphans)
    requires Registered(table, table', id, info, sender)
    requires info.kind == Node ==> !HasLocal(EntryOr(table, id, info.kind).routes)
    requires info.kind == Node || HasLocal(EntryOr(table, id, info.kind).routes)
    ensures IndexOk(db, table', self, orphans)
    ensures var before := EntryOr(table, id, info.kind).routes;
            if info.kind == Anycast && MinLocalCost(table'[id].routes) != MinLocalCost(before)
            then
              && MinLocalCost(table'[id].routes).Some?
              && AwaitsCost(db, table', self, id, MinLocalCost(table'[id].routes).value)
            else AdvertisedOk(db, table', self)
  {
    var before := EntryOr(table, id, info.kind).routes;
    MinLocalIsLeast(before);
    MinLocalAppend(before, Route(ToListener(sender), info.cost, info.realm, info.kind));
    RegisteredKeepsIndex(db, db, table, table', self, orphans, id, info, sender);
    RegisteredKeepsOthers(db, db, table, table', self, id, info, sender);
    assert id in table && MinLocalCost(before).Some? ==> Advertises(db, self, id, table[id]);
    assert info.kind == Node ==> table'[id].routes == before;
  }

  lemma RemoveListenersKeeps(db: Db, links: Links, table: Table, self: NodeId, orphans: set<LsaKey>,
                             id: EndpointId, closed: set<Listener>)
    requires StateOk(db, links, table, self, orphans) && id in table && id != self
    ensures var kept := OpenRoutes(table, id, closed);
            var table' := WithoutListeners(table, id, closed);
            if kept == [] then StateOk(db - {LsaKey(self, id)}, links, table', self, orphans)
            else if table[id].kind == Anycast && MinimumMoves(table[id].routes, kept)
            then IndexOk(db, table', self, orphans) && AwaitsCost(db, table', self, id, MinLocalCost(kept).value)
            else AdvertisedOk(db, table', self) && IndexOk(db, table', self, orphans)
  {
    var kept := OpenRoutes(table, id, closed);
    var table' := table[id := table[id].(routes := kept)];
    MinLocalIsLeast(kept);
    MinLocalIsLeast(table[id].routes);
    assert MinLocalCost(kept).Some? ==> Advertises(db, self, id, table[id]);
    ListenersKeepIndex(db, db, table, table', self, orphans, id);
    ListenersKeepIndex(db, db - {LsaKey(self, id)}, table, table - {id}, self, orphans, id);
    forall e | e in table && e != id && MinLocalCost(table[e].routes).Some?
      ensures Advertises(db, self, e, table[e]) && Advertises(db - {LsaKey(self, id)}, self, e, table[e])
    {
    }
  }

  /** Changing one anycast listener's cost moves nothing but, perhaps, the minimum. */
  lemma SetCostKeeps(db: Db, links: Links, table: Table, self: NodeId, orphans: set<LsaKey>,
                     id: EndpointId, i: nat, cost: Cost)
    requires StateOk(db, links, table, self, orphans) && id in table && table[id].kind == Anycast
    requires i < |table[id].routes| && table[id].routes[i].via.ToListener?
    ensures var routes := table[id].routes[i := table[id].routes[i].(cost := cost)];
            var table' := table[id := table[id].(routes := routes)];
            && IndexOk(db, table', self, orphans)
            && (if MinLocalCost(routes) == MinLocalCost(table[id].routes) then AdvertisedOk(db, table', self)
                else MinLocalCost(routes).Some? && AwaitsCost(db, table', self, id, MinLocalCost(routes).value))
  {
    var routes := table[id].routes[i := table[id].routes[i].(cost := cost)];
    var table' := table[id := table[id].(routes := routes)];
    assert table[id].routes[i] in table[id].routes && routes[i] in routes;
    MinLocalIsLeast(routes);
    MinLocalIsLeast(table[id].routes);
    assert Advertises(db, self, id, table[id]);
    ListenersKeepIndex(db, db, table, table', self, orphans, id);
    forall e | e in table && e != id && MinLocalCost(table[e].routes).Some? ensures Advertises(db, self, e, table[e]) {
    }
  }

  /** A registration keeps the state: whatever it leaves to advertise is advertised. */
  lemma RegistrationKeeps(db: Db, links: Links, table: Table, table': Table, self: NodeId, orphans: set<LsaKey>,
                          id: EndpointId, info: EndpointInfo, sender: Listener, now: nat)
    requires StateOk(db, links, table, self, orphans) && TableOk(table') && id != self
    requires Registered(table, table', id, info, sender)
    ensures StateOk(AfterRegistration(db, self, table, id, info, now), links, table', self, orphans)
  {
    var before := EntryOr(table, id, info.kind).routes;
    assert id in table ==> EntryOk(table[id]);
    MinLocalIsLeast(before);
    MinLocalAppend(before, Route(ToListener(sender), info.cost, info.realm, info.kind));
    if info.kind != Node && !HasLocal(before) {
      FirstListenerKeeps(db, links, table, table', self, orphans, id, info, sender, now);
    } else {
      NextListenerKeeps(db, table, table', self, orphans, id, info, sender);
      if info.kind == Anycast && MinLocalCost(table'[id].routes) != MinLocalCost(before) {
        RecostKeeps(db, links, table', self, orphans, id, info.cost, now);
      }
    }
  }

  /** The database after the effect of a removal has been advertised. */
  function AfterEffect(db: Db, self: NodeId, id: EndpointId, effect: Effects, now: nat): Db {
    if effect.UpdateLsa? then Recosted(db, self, id, effect.cost, now)
    else if effect.RemoveLsa? then db - {LsaKey(self, id)}
    else db
  }

  /** A removal of listeners keeps the state. */
  lemma RemovalKeeps(db: Db, links: Links, table: Table, self: NodeId, orphans: set<LsaKey>,
                     id: EndpointId, closed: set<Listener>, now: nat)
    requires StateOk(db, links, table, self, orphans) && TableOk(WithoutListeners(table, id, closed)) && id != self
    ensures StateOk(AfterRemoval(db, self, table, id, closed, now), links, WithoutListeners(table, id, closed), self,
                    orphans)
  {
    if id in table {
      RemoveListenersKeeps(db, links, table, self, orphans, id, closed);
      var kept := OpenRoutes(table, id, closed);
      if kept != [] && table[id].kind == Anycast && MinimumMoves(table[id].routes, kept) {
        RecostKeeps(db, links, WithoutListeners(table, id, closed), self, orphans, id, MinLocalCost(kept).value, now);
      }
    }
  }

  /** Own records older than a third of their lifetime are due for a refresh. */
  predicate IsDue(db: Db, self: NodeId, lifetime: nat, now: nat, k: LsaKey) {
    k in db && k.origin == self && db[k].updatedAt + lifetime / 3 < now
  }

  function Renewed(r: LsaRecord, now: nat): LsaRecord {
    LsaRecord(r.lsa.(seq_ := r.lsa.seq_ + 1), now)
  }

  function Refreshed(db: Db, self: NodeId, lifetime: nat, now: nat): Db {
    map k | k in db :: if IsDue(db, self, lifetime, now, k) then Renewed(db[k], now) else db[k]
  }

  /** The renewed advertisements, each once, in some order. */
  ghost predicate ListsDue(db: Db, self: NodeId, lifetime: nat, now: nat, due: seq<Lsa>) {
    && (forall k :: IsDue(db, self, lifetime, now, k) ==> Renewed(db[k], now).lsa in due)
    && (forall l :: l in due ==> IsDue(db, self, lifetime, now, l.key) && l == Renewed(db[l.key], now).lsa)
    && (forall i, j :: 0 <= i < j < |due| ==> due[i].key != due[j].key)
  }

  predicate Stale(db: Db, lifetime: nat, now: nat, k: LsaKey) {
    k in db && db[k].updatedAt + lifetime < now
  }

  /** A purge drops one stale record if there is any, and no more. */
  ghost predicate Purged(db: Db, lifetime: nat, now: nat, db': Db, gone: set<LsaKey>) {
    (exists k :: Stale(db, lifetime, now, k) && db' == db - {k} && gone == {k}) ||
    (db' == db && gone == {} && forall k :: k in db ==> !Stale(db, lifetime, now, k))
  }

  /** One flood after another. */
  ghost predicate FloodsEach(before: seq<Outgoing>, after: seq<Outgoing>, links: Links, nextHop: map<NodeId, Link>,
                             due: seq<Lsa>) {
    exists stages :: FloodStages(stages, links, nextHop, due) && stages[0] == before && stages[|due|] == after
  }

  ghost predicate DueFlooded(db: Db, self: NodeId, lifetime: nat, now: nat, links: Links, nextHop: map<NodeId, Link>,
                             before: seq<Outgoing>, after: seq<Outgoing>) {
    exists due :: ListsDue(db, self, lifetime, now, due) && FloodsEach(before, after, links, nextHop, due)
  }

  ghost predicate FloodStages(stages: seq<seq<Outgoing>>, links: Links, nextHop: map<NodeId, Link>, due: seq<Lsa>) {
    && |stages| == |due| + 1
    && forall i :: 0 <= i < |due| ==> Appends(stages[i], stages[i + 1], FloodBatch(links, nextHop, due[i], None))
  }

  /** The same advertisements, with sequence numbers and times moved on. */
  ghost predicate SameBodies(db: Db, db': Db) {
    db'.Keys == db.Keys &&
    forall k :: k in db ==> db[k].lsa.seq_ <= db'[k].lsa.seq_ && db'[k].lsa == db[k].lsa.(seq_ := db'[k].lsa.seq_)
  }

  lemma SameBodiesKeep(db: Db, db': Db, links: Links, table: Table, self: NodeId, orphans: set<LsaKey>)
    requires SameBodies(db, db') && StateOk(db, links, table, self, orphans)
    ensures StateOk(db', links, table, self, orphans)
  {
    forall e | e in table && MinLocalCost(table[e].routes).Some? ensures Advertises(db', self, e, table[e]) {
      assert Advertises(db, self, e, table[e]);
    }
    ForeignBodiesKeepIndex(db, db', table, self, orphans);
  }

  lemma ForeignBodiesKeepIndex(db: Db, db': Db, table: Table, self: NodeId, orphans: set<LsaKey>)
    requires SameBodies(db, db') && IndexOk(db, table, self, orphans)
    ensures IndexOk(db', table, self, orphans)
  {
    forall e, r | e in table && r in table[e].routes && r.via.ToNode?
      ensures Indexed(db', self, orphans, e, table[e].kind, r)
    {
      assert Indexed(db, self, orphans, e, table[e].kind, r);
    }
  }

  ghost predicate PurgedTo(db: Db, lifetime: nat, now: nat, db': Db, orphans: set<LsaKey>, orphans': set<LsaKey>) {
    exists gone :: Purged(db, lifetime, now, db', gone) && orphans' == orphans + gone
  }

  /** Own records stay, and none is older than a third of the lifetime. */
  ghost predicate OwnAreYoung(db: Db, db': Db, self: NodeId, lifetime: nat, now: nat) {
    forall k :: k in db && k.origin == self ==>
      k in db' && now <= db'[k].updatedAt + lifetime / 3 && db'[k].lsa.body == db[k].lsa.body
  }

  /** A refresh followed by a purge leaves the node's own records, all of them young. */
  lemma RefreshLeavesYoung(db: Db, self: NodeId, lifetime: nat, now: nat, db': Db, gone: set<LsaKey>)
    requires Purged(Refreshed(db, self, lifetime, now), lifetime, now, db', gone)
    ensures OwnAreYoung(db, db', self, lifetime, now)
  {
    assert forall k :: k in db && k.origin == self ==> !Stale(Refreshed(db, self, lifetime, now), lifetime, now, k);
  }

  lemma RefreshedStayYoung(db: Db, self: NodeId, lifetime: nat, now: nat, db': Db, orphans: set<LsaKey>,
                           orphans': set<LsaKey>)
    requires PurgedTo(Refreshed(db, self, lifetime, now), lifetime, now, db', orphans, orphans')
    ensures OwnAreYoung(db, db', self, lifetime, now)
  {
    var gone :| Purged(Refreshed(db, self, lifetime, now), lifetime, now, db', gone);
    RefreshLeavesYoung(db, self, lifetime, now, db', gone);
  }

  ghost predicate OnlyForeignStale(db: Db, self: NodeId, lifetime: nat, now: nat) {
    forall k :: Stale(db, lifetime, now, k) ==> k.origin != self
  }

  /** A refresh keeps the state and leaves no own record stale. */
  lemma RefreshKeeps(db: Db, links: Links, table: Table, self: NodeId, orphans: set<LsaKey>, lifetime: nat, now: nat)
    requires StateOk(db, links, table, self, orphans)
    ensures StateOk(Refreshed(db, self, lifetime, now), links, table, self, orphans)
    ensures OnlyForeignStale(Refreshed(db, self, lifetime, now), self, lifetime, now)
  {
    SameBodiesKeep(db, Refreshed(db, self, lifetime, now), links, table, self, orphans);
  }

  /** The expiry of one foreign record leaves at most its own route behind. */
  lemma ExpiryKeeps(db: Db, links: Links, table: Table, self: NodeId, orphans: set<LsaKey>, key: LsaKey)
    requires StateOk(db, links, table, self, orphans) && key in db && key.origin != self
    ensures StateOk(db - {key}, links, table, self, orphans + {key})
  {
    forall e | e in table && MinLocalCost(table[e].routes).Some? ensures Advertises(db - {key}, self, e, table[e]) {
      assert Advertises(db, self, e, table[e]);
    }
    forall e, r | e in table && r in table[e].routes && r.via.ToNode?
      ensures Indexed(db - {key}, self, orphans + {key}, e, table[e].kind, r)
    {
      assert Indexed(db, self, orphans, e, table[e].kind, r);
    }
  }

  /** The index loses its exactness at an expiry exactly when the expired record
      had a route in the table. */
  lemma ExpiryStrands(db: Db, table: Table, self: NodeId, key: LsaKey)
    requires IndexOk(db, table, self, {}) && key in db && key.origin != self
    ensures IndexOk(db - {key}, table, self, {}) <==>
              !(key.endpointId in table && exists r :: r in table[key.endpointId].routes && r.via == ToNode(key.origin))
  {
    if key.endpointId in table && exists r :: r in table[key.endpointId].routes && r.via == ToNode(key.origin) {
      var r :| r in table[key.endpointId].routes && r.via == ToNode(key.origin);
      assert !Indexed(db - {key}, self, {}, key.endpointId, table[key.endpointId].kind, r);
    } else {
      forall e, r | e in table && r in table[e].routes && r.via.ToNode?
        ensures Indexed(db - {key}, self, {}, e, table[e].kind, r)
      {
        assert Indexed(db, self, {}, e, table[e].kind, r);
      }
    }
  }

  /** A fresh link and its adjacency keep links and adjacencies matched. */
  lemma AddLinkKeeps(db: Db, links: Links, table: Table, self: NodeId, orphans: set<LsaKey>, link: Link, now: nat)
    requires StateOk(db, links, table, self, orphans) && link.connectionId !in links
    ensures StateOk(WithAdjacency(db, self, link, now), links[link.connectionId := link], table, self, orphans)
  {
    var k := SelfKey(self);
    var db', links' := WithAdjacency(db, self, link, now), links[link.connectionId := link];
    var old_, new_ := db[k].lsa.body.adjacencies, db'[k].lsa.body.adjacencies;
    assert new_[|old_|] in new_;
    forall c | c in links' ensures exists a :: a in new_ && a.connectionId == c {
      if c != link.connectionId {
        var a :| a in old_ && a.connectionId == c;
        assert a in new_;
      }
    }
    forall i, j | 0 <= i < j < |new_| ensures new_[i].connectionId != new_[j].connectionId {
      assert new_[i] in old_;
    }
    OwnRouterChangeKeeps(db, db', table, self, orphans);
  }

  /** A connection id that is still in use: the old link goes, its adjacency stays. Every
      first hop still exists exactly if another link leads to the same peer. */
  lemma ReuseUncovers(db: Db, links: Links, self: NodeId, link: Link, now: nat)
    requires OwnRouterOk(db, links, self) && link.connectionId in links
    ensures var g: Graph := map[self := WithAdjacency(db, self, link, now)[SelfKey(self)].lsa.body.adjacencies];
            var links' := links[link.connectionId := link];
            LinksCover(g, self, links') <==>
              exists l :: l in links'.Values && l.peerId == links[link.connectionId].peerId
  {
    var old_ := db[SelfKey(self)].lsa.body.adjacencies;
    var new_ := WithAdjacency(db, self, link, now)[SelfKey(self)].lsa.body.adjacencies;
    var g: Graph := map[self := new_];
    var links' := links[link.connectionId := link];
    var b :| b in old_ && b.connectionId == link.connectionId;
    assert b in Adj(g, self) && b.peerId == links[link.connectionId].peerId;
    assert links'[link.connectionId] in links'.Values;
    forall a | a in Adj(g, self) && a.peerId != b.peerId
      ensures exists l :: l in links'.Values && l.peerId == a.peerId
    {
      if a in old_ && a.connectionId != link.connectionId {
        assert links'[a.connectionId] in links'.Values;
      } else {
        assert a == new_[|old_|] || a in old_;
      }
    }
  }

  /** An endpoint with the id of the node: its first listener overwrites the node's own
      router advertisement, nothing else does. */
  lemma OwnIdOverwrites(db: Db, links: Links, self: NodeId, table: Table, info: EndpointInfo, now: nat)
    requires OwnRouterOk(db, links, self)
    ensures AfterRegistration(db, self, table, self, info, now)[SelfKey(self)].lsa.body.Router? <==>
              info.kind == Node || HasLocal(EntryOr(table, self, info.kind).routes)
  {
  }

  function WithAdjacency(db: Db, self: NodeId, link: Link, now: nat): Db
    requires SelfKey(self) in db && db[SelfKey(self)].lsa.body.Router?
  {
    var lsa := db[SelfKey(self)].lsa;
    var adjacency := Adjacency(link.connectionId, link.peerId, link.cost, link.realms);
    db[SelfKey(self) := LsaRecord(lsa.(seq_ := lsa.seq_ + 1, body := Router(lsa.body.adjacencies + [adjacency])), now)]
  }

  /** The adjacencies not on a connection, in order. */
  function Off(adjacencies: seq<Adjacency>, conn: ConnectionId): (kept: seq<Adjacency>)
    ensures forall a :: a in kept <==> a in adjacencies && a.connectionId != conn
    ensures |kept| <= |adjacencies|
  {
    if adjacencies == [] then []
    else
      assert forall a :: a in adjacencies <==> a == adjacencies[0] || a in adjacencies[1..];
      if adjacencies[0].connectionId == conn then Off(adjacencies[1..], conn)
      else [adjacencies[0]] + Off(adjacencies[1..], conn)
  }

  lemma {:induction false} OffDistinct(adjacencies: seq<Adjacency>, conn: ConnectionId)
    requires forall i, j :: 0 <= i < j < |adjacencies| ==> adjacencies[i].connectionId != adjacencies[j].connectionId
    ensures var kept := Off(adjacencies, conn);
            forall i, j :: 0 <= i < j < |kept| ==> kept[i].connectionId != kept[j].connectionId
    ensures (exists a :: a in adjacencies && a.connectionId == conn) ==> |Off(adjacencies, conn)| < |adjacencies|
  {
    if adjacencies != [] {
      OffDistinct(adjacencies[1..], conn);
      var tail := Off(adjacencies[1..], conn);
      forall j | 0 <= j < |tail| ensures tail[j].connectionId != adjacencies[0].connectionId {
        assert tail[j] in adjacencies[1..];
      }
      assert forall a :: a in adjacencies <==> a == adjacencies[0] || a in adjacencies[1..];
    }
  }

  function WithoutAdjacency(db: Db, self: NodeId, conn: ConnectionId, now: nat): Db
    requires SelfKey(self) in db && db[SelfKey(self)].lsa.body.Router?
  {
    var lsa := db[SelfKey(self)].lsa;
    db[SelfKey(self) := LsaRecord(lsa.(seq_ := lsa.seq_ + 1, body := Router(Off(lsa.body.adjacencies, conn))), now)]
  }

  lemma OffMatched(adjacencies: seq<Adjacency>, links: Links, conn: ConnectionId)
    requires Matched(adjacencies, links) && conn in links
    ensures Matched(Off(adjacencies, conn), links - {conn})
    ensures |Off(adjacencies, conn)| < |adjacencies|
  {
    OffDistinct(adjacencies, conn);
    forall c | c in links - {conn} ensures exists a :: a in Off(adjacencies, conn) && a.connectionId == c {
      var a :| a in adjacencies && a.connectionId == c;
    }
  }

  lemma RemoveLinkKeeps(db: Db, links: Links, table: Table, self: NodeId, orphans: set<LsaKey>, conn: ConnectionId,
                        now: nat)
    requires StateOk(db, links, table, self, orphans) && conn in links
    ensures StateOk(WithoutAdjacency(db, self, conn, now), links - {conn}, table, self, orphans)
    ensures |Off(db[SelfKey(self)].lsa.body.adjacencies, conn)| < |db[SelfKey(self)].lsa.body.adjacencies|
  {
    OffMatched(db[SelfKey(self)].lsa.body.adjacencies, links, conn);
    OwnRouterChangeKeeps(db, WithoutAdjacency(db, self, conn, now), table, self, orphans);
  }

  lemma OwnRouterChangeKeeps(db: Db, db': Db, table: Table, self: NodeId, orphans: set<LsaKey>)
    requires AdvertisedOk(db, table, self) && IndexOk(db, table, self, orphans)
    requires SelfKey(self) in db && db[SelfKey(self)].lsa.body.Router? && db'.Keys == db.Keys
    requires forall k :: k in db && k != SelfKey(self) ==> db'[k] == db[k]
    ensures AdvertisedOk(db', table, self) && IndexOk(db', table, self, orphans)
  {
    forall e | e in table && MinLocalCost(table[e].routes).Some? ensures Advertises(db', self, e, table[e]) {
      assert Advertises(db, self, e, table[e]);
    }
    forall e, r | e in table && r in table[e].routes && r.via.ToNode?
      ensures Indexed(db', self, orphans, e, table[e].kind, r)
    {
      assert Indexed(db, self, orphans, e, table[e].kind, r);
    }
  }

  // ------------------------------------------------------------------ SPF queue

  /** First position whose entry is not better than `e`, found by bisection. */
  method PartitionPoint(queue: seq<Entry>, e: Entry) returns (pos: nat)
    requires Sorted(queue)
    ensures pos <= |queue|
    ensures forall i :: 0 <= i < pos ==> queue[i].Better(e)
    ensures forall i :: pos <= i < |queue| ==> !queue[i].Better(e)
  {
    var lo, hi := 0, |queue|;
    while lo < hi
      invariant 0 <= lo <= hi <= |queue|
      invariant forall i :: 0 <= i < lo ==> queue[i].Better(e)
      invariant forall i :: hi <= i < |queue| ==> !queue[i].Better(e)
    {
      var mid := (lo + hi) / 2;
      if queue[mid].Better(e) {
        lo := mid + 1;
      } else {
        hi := mid;
      }
    }
    pos := lo;
  }

  lemma InsertSorted(rest: seq<Entry>, e: Entry, pos: nat)
    requires Sorted(rest) && pos <= |rest| && forall x :: x in rest ==> x.node != e.node
    requires forall i :: 0 <= i < pos ==> rest[i].Better(e)
    requires forall i :: pos <= i < |rest| ==> !rest[i].Better(e)
    ensures Sorted(rest[..pos] + [e] + rest[pos..])
    ensures forall x :: x in rest[..pos] + [e] + rest[pos..] <==> x == e || x in rest
  {
    var queue := rest[..pos] + [e] + rest[pos..];
    forall i | pos <= i < |rest| ensures e.Better(rest[i]) {
      assert rest[i] in rest;
    }
    forall i, j | 0 <= i < j < |queue| ensures queue[i].Better(queue[j]) {
      assert queue[i] == if i < pos then rest[i] else if i == pos then e else rest[i - 1];
      assert queue[j] == if j < pos then rest[j] else if j == pos then e else rest[j - 1];
    }
    assert rest == rest[..pos] + rest[pos..];
  }

  lemma RemoveAt(queue: seq<Entry>, i: nat, n: NodeId, rest: seq<Entry>)
    requires Sorted(queue) && i <= |queue|
    requires forall j, k :: 0 <= j < k < |queue| ==> queue[j].node != queue[k].node
    requires forall j :: 0 <= j < i ==> queue[j].node != n
    requires i < |queue| ==> queue[i].node == n
    requires rest == if i < |queue| then queue[..i] + queue[i + 1..] else queue
    ensures Sorted(rest)
    ensures forall x :: x in rest <==> x in queue && x.node != n
  {
  }

  /** Decrease-key: drops the node's old entry and inserts the new one in order. */
  method Requeue(queue: seq<Entry>, e: Entry) returns (queue': seq<Entry>)
    requires Sorted(queue)
    requires forall i, j :: 0 <= i < j < |queue| ==> queue[i].node != queue[j].node
    ensures Requeued(queue, e.node, e.cost, queue')
  {
    var i := 0;
    while i < |queue| && queue[i].node != e.node
      invariant 0 <= i <= |queue|
      invariant forall j :: 0 <= j < i ==> queue[j].node != e.node
    {
      i := i + 1;
    }
    var rest := if i < |queue| then queue[..i] + queue[i + 1..] else queue;
    RemoveAt(queue, i, e.node, rest);
    var pos := PartitionPoint(rest, e);
    InsertSorted(rest, e, pos);
    queue' := rest[..pos] + [e] + rest[pos..];
  }
}
