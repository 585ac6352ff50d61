/** The link-state database object: every operation keeps the state invariant and
    says what it changes and what it sends. */
module Database {
  import opened Routing
  import opened Routes
  import opened Paths
  import opened Spf
  import opened SpfTheorems
  import opened LinkState
  import opened Forwarding

  class LsDb {
    const selfId: NodeId
    const lsaTimeout: nat
    var db: Db
    var links: Links
    var nextHop: map<NodeId, Link>
    var cost: map<NodeId, Cost>
    var parent: map<NodeId, NodeId>
    const routes: RouteTable
    var rebuildRequested: Option<nat>
    var lastRefresh: nat
    var lastTick: nat
    var outbox: seq<Outgoing>
    ghost var orphans: set<LsaKey>

    ghost predicate Valid()
      reads this`db, this`links, this`orphans, routes
    {
      StateOk(db, links, routes.table, selfId, orphans)
    }

    ghost function SpfTree(): Tree
      reads this`cost, this`parent, this`nextHop
    {
      Tree(cost, parent, nextHop)
    }

    /** The three tree fields are a shortest-path result for the current database. */
    ghost predicate TreeIsCurrent()
      reads this`db, this`links, this`cost, this`parent, this`nextHop
    {
      CurrentTree(db, selfId, links, SpfTree())
    }

    constructor (self: NodeId, now: nat)
      ensures Valid() && selfId == self && fresh(routes)
      ensures db.Keys == {SelfKey(self)} && db[SelfKey(self)].lsa.body == Router([]) && links == map[]
      ensures routes.table == map[] && nextHop == map[]
      ensures orphans == {} && outbox == [] && rebuildRequested == None && cost == map[] && parent == map[]
      ensures lsaTimeout == 60_000 && lastRefresh == now && lastTick == now
    {
      selfId := self;
      lsaTimeout := 60_000;
      db := map[SelfKey(self) := LsaRecord(Lsa(SelfKey(self), 0, false, Router([])), now)];
      links, nextHop, cost, parent := map[], map[], map[], map[];
      routes := new RouteTable();
      rebuildRequested, lastRefresh, lastTick := None, now, now;
      outbox, orphans := [], {};
    }

    // ------------------------------------------------------------- shortest paths

    /** The adjacency lists of all routers in the database. */
    method Routers() returns (nodes: Graph)
      ensures IsTopology(db, nodes)
    {
      nodes := map[];
      var todo := db.Keys;
      while todo != {}
        invariant todo <= db.Keys
        invariant forall k :: k in db && k !in todo && db[k].lsa.body.Router? ==> k.origin in nodes
        invariant forall n :: n in nodes ==> exists k :: k in db && k.origin == n && db[k].lsa.body == Router(nodes[n])
      {
        var k :| k in todo;
        todo := todo - {k};
        match db[k].lsa.body
        case Router(adjacencies) =>
          nodes := nodes[k.origin := adjacencies];
        case EndpointBody(_) =>
      }
    }

    /** Dijkstra's search from this node over a sorted queue. */
    method ComputeSpf()
      requires OwnRouterOk(db, links, selfId)
      modifies this`nextHop, this`cost, this`parent
      ensures TreeIsCurrent()
    {
      var nodes := Routers();
      OwnLinksCover(db, links, selfId, nodes);
      Search(nodes);
    }

    method Search(nodes: Graph)
      requires LinksCover(nodes, selfId, links)
      modifies this`nextHop, this`cost, this`parent
      ensures IsSpf(nodes, selfId, links, SpfTree())
    {
      nextHop, parent := map[], map[];
      cost := map n | n in nodes :: MAX_COST;
      cost := cost[selfId := 0];
      var queue := [Entry(0, selfId)];
      ghost var order: seq<NodeId> := [];
      ghost var done: nat := 0;
      StartOk(nodes, SpfTree(), selfId, links);
      while queue != []
        invariant RunOk(nodes, SpfTree(), selfId, links, queue, order, done) && AllRelaxed(nodes, SpfTree(), order)
        invariant InUniverse(nodes, selfId, queue, order)
        decreases Universe(nodes, selfId) - Elements(order)
      {
        SettleUniverse(nodes, selfId, queue, order, SpfTree());
        var current := queue[0];
        queue := SettleNext(nodes, queue, order, done);
        order, done := order + [current.node], |Adj(nodes, current.node)|;
      }
      RunSettles(nodes, SpfTree(), selfId, links, order, done);
    }

    /** Pops the best entry and relaxes the node it names. */
    method SettleNext(nodes: Graph, queue0: seq<Entry>, ghost order: seq<NodeId>, ghost done: nat)
        returns (queue: seq<Entry>)
      requires queue0 != [] && LinksCover(nodes, selfId, links) && InUniverse(nodes, selfId, queue0, order)
      requires RunOk(nodes, SpfTree(), selfId, links, queue0, order, done) && AllRelaxed(nodes, SpfTree(), order)
      modifies this`nextHop, this`cost, this`parent
      ensures var order' := order + [queue0[0].node];
              && RunOk(nodes, SpfTree(), selfId, links, queue, order', |Adj(nodes, queue0[0].node)|)
              && AllRelaxed(nodes, SpfTree(), order') && InUniverse(nodes, selfId, queue, order')
    {
      var current := queue0[0];
      ghost var order' := order + [current.node];
      SettleHead(nodes, SpfTree(), selfId, links, queue0, order, done);
      SettleUniverse(nodes, selfId, queue0, order, SpfTree());
      queue := queue0[1..];
      assert current in queue0;
      if current.node in nodes {
        queue := RelaxAll(nodes, current, queue, order');
      }
    }

    /** Relaxes every adjacency of the node just settled. */
    method RelaxAll(nodes: Graph, current: Entry, queue0: seq<Entry>, ghost order: seq<NodeId>)
        returns (queue: seq<Entry>)
      requires current.node in nodes && order != [] && order[|order| - 1] == current.node
      requires RunOk(nodes, SpfTree(), selfId, links, queue0, order, 0) && current == Rank(SpfTree(), current.node)
      requires LinksCover(nodes, selfId, links) && InUniverse(nodes, selfId, queue0, order)
      modifies this`nextHop, this`cost, this`parent
      ensures RunOk(nodes, SpfTree(), selfId, links, queue, order, |nodes[current.node]|)
      ensures InUniverse(nodes, selfId, queue, order)
    {
      queue := queue0;
      var adjacencies := nodes[current.node];
      var i := 0;
      while i < |adjacencies|
        invariant 0 <= i <= |adjacencies|
        invariant RunOk(nodes, SpfTree(), selfId, links, queue, order, i)
        invariant current == Rank(SpfTree(), current.node) && InUniverse(nodes, selfId, queue, order)
      {
        queue := Relax(nodes, current, adjacencies[i], i, queue, order);
        i := i + 1;
      }
    }

    /** Relaxes one adjacency. */
    method Relax(nodes: Graph, current: Entry, adjacency: Adjacency, ghost done: nat, queue0: seq<Entry>,
                 ghost order: seq<NodeId>)
        returns (queue: seq<Entry>)
      requires current.node in nodes && order != [] && order[|order| - 1] == current.node
      requires done < |nodes[current.node]| && adjacency == nodes[current.node][done]
      requires RunOk(nodes, SpfTree(), selfId, links, queue0, order, done) && current == Rank(SpfTree(), current.node)
      requires LinksCover(nodes, selfId, links) && InUniverse(nodes, selfId, queue0, order)
      modifies this`nextHop, this`cost, this`parent
      ensures RunOk(nodes, SpfTree(), selfId, links, queue, order, done + 1)
      ensures current == Rank(SpfTree(), current.node) && InUniverse(nodes, selfId, queue, order)
      ensures var v, c := adjacency.peerId, Plus(current.cost, adjacency.cost);
              if Entry(c, v).Better(Rank(old(SpfTree()), v)) then
                exists link :: SpfTree() == Improve(old(SpfTree()), current.node, v, c, link) &&
                               Requeued(queue0, v, c, queue)
              else queue == queue0 && SpfTree() == old(SpfTree())
    {
      var next := adjacency.peerId;
      var newCost := Plus(current.cost, adjacency.cost);
      var other := Entry(CostOf(cost, next), next);
      LastIsSettled(nodes, SpfTree(), selfId, links, queue0, order, done);
      if !Entry(newCost, next).Better(other) {
        SkipAdjacency(nodes, SpfTree(), selfId, links, queue0, order, done);
        return queue0;
      }
      ImproveFacts(nodes, SpfTree(), selfId, queue0, order, done, next, newCost);
      assert adjacency in Adj(nodes, current.node);
      ghost var over;
      queue, over := ReachOver(nodes, current, next, newCost, done, queue0, order);
    }

    /** A strictly better way to a node, over the one just settled. */
    method ReachOver(nodes: Graph, current: Entry, next: NodeId, newCost: Cost, ghost done: nat, queue0: seq<Entry>,
                     ghost order: seq<NodeId>)
        returns (queue: seq<Entry>, ghost over: Link)
      requires order != [] && order[|order| - 1] == current.node
      requires current.node == selfId || current.node in nextHop
      requires current.node == selfId ==> exists link :: link in links.Values && link.peerId == next
      requires RunOk(nodes, SpfTree(), selfId, links, queue0, order, done)
      requires Improves(nodes, SpfTree(), order, done, next, newCost)
      modifies this`nextHop, this`cost, this`parent
      ensures SpfTree() == Improve(old(SpfTree()), current.node, next, newCost, over)
      ensures Requeued(queue0, next, newCost, queue)
      ensures RunOk(nodes, SpfTree(), selfId, links, queue, order, done + 1)
    {
      ghost var t := SpfTree();
      cost := cost[next := newCost];
      var link: Link;
      if current.node == selfId {
        link :| link in links.Values && link.peerId == next;
      } else {
        link := nextHop[current.node];
      }
      parent := parent[next := current.node];
      nextHop := nextHop[next := link];
      queue := Requeue(queue0, Entry(newCost, next));
      over := link;
      ImproveStep(nodes, t, selfId, links, queue0, order, done, next, newCost, link, queue);
    }

    // ------------------------------------------------------------------ flooding

    /** Offers an advertisement to every link a flood may use. */
    method FloodAllNeighbors(lsa: Lsa, inConn: Option<ConnectionId>)
      modifies this`outbox
      ensures Appends(old(outbox), outbox, FloodBatch(links, nextHop, lsa, inConn))
      ensures FloodsExactly(links, nextHop, lsa, inConn, old(outbox), outbox)
    {
      ghost var all := FloodBatch(links, nextHop, lsa, inConn);
      ghost var sent: seq<Outgoing> := [];
      ghost var batch: map<ConnectionId, Lsa> := map[];
      var todo := links.Keys;
      while todo != {}
        invariant todo <= links.Keys
        invariant outbox == old(outbox) + sent && Enumerates(sent, batch)
        invariant forall c :: c in batch <==> c in all && c !in todo
        invariant forall c :: c in batch ==> batch[c] == all[c]
      {
        var c :| c in todo;
        todo := todo - {c};
        var link := links[c];
        if FloodsTo(c, link, nextHop, lsa.key.origin, inConn) {
          match SendLsa(link, lsa)
          case Some(copy) =>
            outbox := outbox + [Outgoing(c, LsaMessage(copy))];
            EnumeratesOne(sent, batch, c, copy);
            sent, batch := sent + [Outgoing(c, LsaMessage(copy))], batch[c := copy];
          case None =>
        }
      }
      assert batch == all;
      FloodIsExact(links, nextHop, lsa, inConn, old(outbox), outbox);
    }

    /** Offers every stored advertisement to one link, each once. */
    method FloodPeer(conn: ConnectionId)
      modifies this`outbox
      ensures |old(outbox)| <= |outbox| && outbox[..|old(outbox)|] == old(outbox)
      ensures conn !in links ==> outbox == old(outbox)
      ensures conn in links ==> Synchronizes(db, links[conn], conn, outbox[|old(outbox)|..])
    {
      if conn !in links {
        return;
      }
      var link := links[conn];
      var todo := db.Keys;
      ghost var sent: seq<Outgoing> := [];
      ghost var keys: seq<LsaKey> := [];
      while todo != {}
        invariant todo <= db.Keys
        invariant outbox == old(outbox) + sent
        invariant SentFor(db, link, conn, sent, keys)
        invariant forall k :: k in db && k !in todo && SendLsa(link, db[k].lsa).Some? ==> k in keys
        invariant forall k :: k in keys ==> k !in todo
      {
        var k :| k in todo;
        todo := todo - {k};
        match SendLsa(link, db[k].lsa)
        case Some(copy) =>
          outbox := outbox + [Outgoing(conn, LsaMessage(copy))];
          sent := sent + [Outgoing(conn, LsaMessage(copy))];
          keys := keys + [k];
        case None =>
      }
      assert outbox[|old(outbox)|..] == sent;
    }

    method RequestRebuild(now: nat)
      modifies this`rebuildRequested
      ensures rebuildRequested == if old(rebuildRequested).Some? then old(rebuildRequested) else Some(now)
    {
      if rebuildRequested.None? {
        rebuildRequested := Some(now);
      }
    }

    method SendAck(conn: ConnectionId, key: LsaKey, seq_: nat)
      modifies this`outbox
      ensures outbox == old(outbox) + if conn in links then [Outgoing(conn, LsaAck(key, seq_))] else []
    {
      if conn in links {
        outbox := outbox + [Outgoing(conn, LsaAck(key, seq_))];
      }
    }

    // ------------------------------------------------------- inbound advertisements

    /** Stores a strictly newer or unknown advertisement and indexes its route. */
    method UpsertLsa(lsa: Lsa, now: nat) returns (stored: bool)
      requires Valid() && lsa.key.origin != selfId && !lsa.dead
      modifies this`db, this`rebuildRequested, this`orphans, routes
      ensures Valid() && orphans <= old(orphans)
      ensures stored <==> Newer(old(db), lsa)
      ensures db == Handled(old(db), selfId, lsa, now)
      ensures routes.table == HandledTable(old(db), old(routes.table), selfId, cost, lsa)
      ensures stored ==> rebuildRequested.Some?
      ensures !stored ==> rebuildRequested == old(rebuildRequested)
    {
      if lsa.key in db && lsa.seq_ <= db[lsa.key].lsa.seq_ {
        return false;
      }
      var info := match lsa.body
        case Router(_) => EndpointInfo(Node, Global, CostOf(cost, lsa.key.origin))
        case EndpointBody(i) => i;
      UpsertKeeps(db, routes.table, selfId, orphans, LsaRecord(lsa, now), info);
      db := db[lsa.key := LsaRecord(lsa, now)];
      orphans := orphans - {lsa.key};
      RequestRebuild(now);
      var _ := routes.AddRemoteEndpoint(lsa.key.endpointId, lsa.key.origin, info);
      return true;
    }

    /** A newer withdrawal removes the record, or everything of the origin when
        the record is a router advertisement, and is flooded on. */
    method RemoveDeadLsa(lsa: Lsa, now: nat)
      requires Valid() && lsa.dead && lsa.key.origin != selfId
      modifies this`db, this`rebuildRequested, this`outbox, this`orphans, routes
      ensures Valid() && orphans <= old(orphans)
      ensures db == AfterWithdrawal(old(db), lsa)
      ensures routes.table == TableAfterWithdrawal(old(db), old(routes.table), lsa)
      ensures if Withdraws(old(db), lsa)
              then Appends(old(outbox), outbox, FloodBatch(links, nextHop, lsa, None)) && rebuildRequested.Some?
              else outbox == old(outbox) && rebuildRequested == old(rebuildRequested)
      ensures lsa.key in old(db) && lsa.seq_ <= old(db)[lsa.key].lsa.seq_ ==>
                && db == old(db) && routes.table == old(routes.table)
                && outbox == old(outbox) && rebuildRequested == old(rebuildRequested)
    {
      var origin := lsa.key.origin;
      if lsa.key in db {
        if lsa.seq_ <= db[lsa.key].lsa.seq_ {
          return;
        }
        if db[lsa.key].lsa.body.Router? {
          RemoveOrigin(origin);
        } else {
          RemoveRecord(lsa.key);
        }
        FloodAllNeighbors(lsa, None);
        RequestRebuild(now);
      }
      ForgetAgain(old(db), old(routes.table), lsa);
      RemoveRecord(lsa.key);
    }

    /** Removes one foreign record, if present, and the route it stands for. */
    method RemoveRecord(key: LsaKey)
      requires Valid() && key.origin != selfId
      modifies this`db, this`orphans, routes
      ensures Valid() && orphans == old(orphans) - {key}
      ensures db == old(db) - {key} && routes.table == WithoutRemote(old(routes.table), key.endpointId, key.origin)
    {
      RemoveKeeps(db, routes.table, selfId, orphans, key.endpointId, key.origin);
      db := db - {key};
      orphans := orphans - {key};
      var _ := routes.RemoveRemoteEndpoint(key.endpointId, key.origin);
    }

    /** Extracts every record of an origin together with its routes. */
    method RemoveOrigin(origin: NodeId)
      requires Valid() && origin != selfId
      modifies this`db, this`orphans, routes
      ensures Valid() && orphans <= old(orphans)
      ensures db == map k | k in old(db) && k.origin != origin :: old(db)[k]
      ensures routes.table == Forget(old(routes.table), origin, EndpointsOf(old(db), origin))
    {
      var todo := set k | k in db && k.origin == origin;
      ghost var ids: set<EndpointId> := {};
      assert routes.table == Forget(routes.table, origin, ids);
      while todo != {}
        invariant Valid() && orphans <= old(orphans)
        invariant todo == set k | k in db && k.origin == origin
        invariant db.Keys <= old(db).Keys && forall k :: k in old(db) && k.origin != origin ==> k in db
        invariant forall k :: k in db ==> db[k] == old(db)[k]
        invariant EndpointsOf(old(db), origin) == ids + EndpointsOf(db, origin)
        invariant routes.table == Forget(old(routes.table), origin, ids)
        decreases todo
      {
        var k :| k in todo;
        todo := todo - {k};
        ForgetOneMore(old(routes.table), origin, ids, k.endpointId);
        ids := ids + {k.endpointId};
        RemoveRecord(k);
      }
      assert forall k :: k in db && k.origin == origin ==> k in todo;
    }

    /** Acknowledges, then ignores own and stale advertisements, applies
        withdrawals, and stores and re-floods fresh ones. */
    method HandleLsa(lsa: Lsa, inConn: ConnectionId, now: nat)
      requires Valid()
      modifies this`db, this`nextHop, this`cost, this`parent, this`rebuildRequested, this`outbox, this`orphans, routes
      ensures Valid() && orphans <= old(orphans)
      ensures db == Handled(old(db), selfId, lsa, now)
      ensures routes.table == HandledTable(old(db), old(routes.table), selfId, old(cost), lsa)
      ensures var acked := old(outbox) + if inConn in links then [Outgoing(inConn, LsaAck(lsa.key, lsa.seq_))] else [];
              if Fresh(old(db), selfId, lsa)
              then Appends(acked, outbox, FloodBatch(links, old(nextHop), lsa, if lsa.dead then None else Some(inConn)))
              else outbox == acked
      ensures if Fresh(old(db), selfId, lsa) then rebuildRequested.Some? else rebuildRequested == old(rebuildRequested)
      ensures if Fresh(old(db), selfId, lsa) && lsa.body.Router? && !lsa.dead then
                TreeIsCurrent()
              else SpfTree() == old(SpfTree())
    {
      SendAck(inConn, lsa.key, lsa.seq_);
      if lsa.key.origin == selfId {
        return;
      }
      if lsa.dead {
        RemoveDeadLsa(lsa, now);
        return;
      }
      StoreAndFlood(lsa, inConn, now);
    }

    /** Stores a live foreign advertisement and, if it was fresh, floods it on. */
    method StoreAndFlood(lsa: Lsa, inConn: ConnectionId, now: nat)
      requires Valid() && !lsa.dead && lsa.key.origin != selfId
      modifies this`db, this`nextHop, this`cost, this`parent, this`rebuildRequested, this`outbox, this`orphans, routes
      ensures Valid() && orphans <= old(orphans)
      ensures db == Handled(old(db), selfId, lsa, now)
      ensures routes.table == HandledTable(old(db), old(routes.table), selfId, old(cost), lsa)
      ensures if Newer(old(db), lsa)
              then Appends(old(outbox), outbox, FloodBatch(links, old(nextHop), lsa, Some(inConn))) &&
                   rebuildRequested.Some?
              else outbox == old(outbox) && rebuildRequested == old(rebuildRequested)
      ensures if Newer(old(db), lsa) && lsa.body.Router? then TreeIsCurrent() else SpfTree() == old(SpfTree())
    {
      var stored := StoreAndPass(lsa, inConn, now);
      if stored && lsa.body.Router? {
        ComputeSpf();
      }
    }

    method StoreAndPass(lsa: Lsa, inConn: ConnectionId, now: nat) returns (stored: bool)
      requires Valid() && !lsa.dead && lsa.key.origin != selfId
      modifies this`db, this`rebuildRequested, this`outbox, this`orphans, routes
      ensures Valid() && orphans <= old(orphans)
      ensures stored <==> Newer(old(db), lsa)
      ensures db == Handled(old(db), selfId, lsa, now)
      ensures routes.table == HandledTable(old(db), old(routes.table), selfId, cost, lsa)
      ensures if stored
              then Appends(old(outbox), outbox, FloodBatch(links, nextHop, lsa, Some(inConn))) && rebuildRequested.Some?
              else outbox == old(outbox) && rebuildRequested == old(rebuildRequested)
    {
      stored := UpsertLsa(lsa, now);
      if stored {
        FloodAllNeighbors(lsa, Some(inConn));
      }
    }

    // --------------------------------------------------------------------- peers

    /** A new peer: adjacency and link are added together, the changed router
        advertisement is flooded and the peer gets everything stored. */
    method AddPeer(link: Link, now: nat)
      requires Valid()
      modifies this`db, this`links, this`rebuildRequested, this`outbox
      ensures link.connectionId !in old(links) ==> Valid()
      ensures links == old(links)[link.connectionId := link]
      ensures db == WithAdjacency(old(db), selfId, link, now)
      ensures db[SelfKey(selfId)].lsa.seq_ == old(db)[SelfKey(selfId)].lsa.seq_ + 1
      ensures rebuildRequested.Some?
      ensures Joined(db, links, nextHop, db[SelfKey(selfId)].lsa, link, old(outbox), outbox)
    {
      if link.connectionId !in links {
        AddLinkKeeps(db, links, routes.table, selfId, orphans, link, now);
      }
      db := WithAdjacency(db, selfId, link, now);
      links := links[link.connectionId := link];
      RequestRebuild(now);
      FloodAllNeighbors(db[SelfKey(selfId)].lsa, Some(link.connectionId));
      ghost var mid := outbox;
      FloodPeer(link.connectionId);
      assert mid <= outbox;
    }

    /** A lost peer: link and adjacency go together and the tree is recomputed. */
    method RemovePeer(conn: ConnectionId, now: nat)
      requires Valid()
      modifies this`db, this`links, this`nextHop, this`cost, this`parent, this`outbox
      ensures Valid()
      ensures links == old(links) - {conn}
      ensures conn !in old(links) ==> db == old(db) && outbox == old(outbox)
      ensures conn in old(links) ==>
                && db == WithoutAdjacency(old(db), selfId, conn, now)
                && Appends(old(outbox), outbox, FloodBatch(links, old(nextHop), db[SelfKey(selfId)].lsa, None))
                && TreeIsCurrent()
    {
      if conn !in links {
        assert links - {conn} == links;
        return;
      }
      Detach(conn, now);
      ComputeSpf();
    }

    /** Takes a link and its adjacency away and floods the shorter router advertisement. */
    method Detach(conn: ConnectionId, now: nat)
      requires Valid() && conn in links
      modifies this`db, this`links, this`outbox
      ensures Valid() && links == old(links) - {conn} && db == WithoutAdjacency(old(db), selfId, conn, now)
      ensures Appends(old(outbox), outbox, FloodBatch(links, nextHop, db[SelfKey(selfId)].lsa, None))
    {
      RemoveLinkKeeps(db, links, routes.table, selfId, orphans, conn, now);
      links := links - {conn};
      var adjacencies := db[SelfKey(selfId)].lsa.body.adjacencies;
      if |Off(adjacencies, conn)| < |adjacencies| {
        db := WithoutAdjacency(db, selfId, conn, now);
        FloodAllNeighbors(db[SelfKey(selfId)].lsa, None);
      }
    }

    // ----------------------------------------------------------- local endpoints

    /** Advertises a new cost for an own endpoint, unless it already has it. */
    method UpdateEndpointCost(id: EndpointId, newCost: Cost, now: nat)
      requires KeysOk(db, links)
      modifies this`db, this`rebuildRequested, this`outbox
      ensures db == Recosted(old(db), selfId, id, newCost, now)
      ensures db == old(db) ==> outbox == old(outbox) && rebuildRequested == old(rebuildRequested)
      ensures db != old(db) ==>
                && LsaKey(selfId, id) in db && rebuildRequested.Some?
                && Appends(old(outbox), outbox, FloodBatch(links, nextHop, db[LsaKey(selfId, id)].lsa, None))
    {
      var key := LsaKey(selfId, id);
      if key !in db {
        return;
      }
      var record := db[key];
      if record.lsa.body.Router? || record.lsa.body.info.cost == newCost {
        return;
      }
      var lsa := record.lsa.(body := EndpointBody(record.lsa.body.info.(cost := newCost)), seq_ := record.lsa.seq_ + 1);
      db := db[key := LsaRecord(lsa, now)];
      assert db[key] != old(db)[key];
      FloodAllNeighbors(lsa, None);
      RequestRebuild(now);
    }

    /** Registers a local listener and advertises what changed: the first
        listener announces the endpoint, a cheaper anycast one lowers its cost. */
    method AddEndpoint(id: EndpointId, info: EndpointInfo, sender: Listener, now: nat) returns (ok: bool)
      requires Valid()
      modifies this`db, this`rebuildRequested, this`outbox, routes
      ensures id != selfId ==> Valid()
      ensures !ok <==>
                (id in old(routes.table) &&
                 (old(routes.table)[id].kind != info.kind ||
                  (info.kind == Unicast && old(routes.table)[id].routes != [])))
      ensures !ok ==>
                && db == old(db) && routes.table == old(routes.table)
                && outbox == old(outbox) && rebuildRequested == old(rebuildRequested)
      ensures ok ==> Registered(old(routes.table), routes.table, id, info, sender)
      ensures ok ==> db == AfterRegistration(old(db), selfId, old(routes.table), id, info, now)
      ensures ok && info.kind != Node && !HasLocal(EntryOr(old(routes.table), id, info.kind).routes) ==>
                && db[LsaKey(selfId, id)].lsa.body == EndpointBody(info)
                && Appends(old(outbox), outbox, FloodBatch(links, nextHop, db[LsaKey(selfId, id)].lsa, Some(0)))
      ensures ok && (info.kind == Node || HasLocal(EntryOr(old(routes.table), id, info.kind).routes)) ==>
                CostFlooded(old(db), db, selfId, id, links, nextHop, old(outbox), outbox)
    {
      ghost var before := routes.table;
      ghost var entry := EntryOr(before, id, info.kind);
      var res := routes.AddEndpoint(id, info, sender);
      if res.Err? {
        return false;
      }
      assert Registered(before, routes.table, id, info, sender);
      MinLocalIsLeast(entry.routes);
      MinLocalAppend(entry.routes, Route(ToListener(sender), info.cost, info.realm, info.kind));
      if id != selfId {
        RegistrationKeeps(db, links, before, routes.table, selfId, orphans, id, info, sender, now);
      }
      if res.effect.AddLsa? {
        var key := LsaKey(selfId, id);
        var lsa := Lsa(key, 0, false, EndpointBody(info));
        FloodAllNeighbors(lsa, Some(0));
        db := db[key := LsaRecord(lsa, now)];
      } else if res.effect.UpdateLsa? {
        UpdateEndpointCost(id, res.effect.cost, now);
      } else {
        RequestRebuild(now);
      }
      return true;
    }

    /** Changes the cost of a listener and advertises the new minimum if it moved. */
    method SetAnycastCost(id: EndpointId, sender: Listener, newCost: Cost, now: nat) returns (res: CostOutcome)
      requires Valid()
      modifies this`db, this`rebuildRequested, this`outbox, routes
      ensures Valid()
      ensures res.Changed? <==> CostChanges(old(routes.table), id, sender, newCost)
      ensures res.NotAnycast? <==> id in old(routes.table) && old(routes.table)[id].kind != Anycast
      ensures res.Unchanged? ==> HasListenerAt(old(routes.table), id, sender, newCost)
      ensures res.Changed? ==> HasListenerAt(routes.table, id, sender, newCost)
      ensures routes.table == WithCost(old(routes.table), id, sender, newCost)
      ensures db == AfterCostChange(old(db), selfId, old(routes.table), id, sender, newCost, now)
      ensures CostFlooded(old(db), db, selfId, id, links, nextHop, old(outbox), outbox)
      ensures db == old(db) ==> rebuildRequested == old(rebuildRequested)
    {
      ghost var before := routes.table;
      res := routes.SetAnycastCost(id, sender, newCost);
      match res {
        case Changed(_, _, advertise) =>
          SetCostKeeps(db, links, before, selfId, orphans, id, IndexOf(before[id].routes, ToListener(sender)), newCost);
          match advertise {
            case Some(c) =>
              RecostKeeps(db, links, routes.table, selfId, orphans, id, c, now);
              UpdateEndpointCost(id, c, now);
            case None =>
          }
        case _ =>
      }
    }

    /** Drops closed listeners: the last route of an endpoint withdraws its
        advertisement, a vanished anycast minimum raises it. */
    method RemoveEndpoint(id: EndpointId, closed: set<Listener>, now: nat)
      requires Valid()
      modifies this`db, this`rebuildRequested, this`outbox, routes
      ensures rebuildRequested.Some? && (id != selfId ==> Valid())
      ensures routes.table == WithoutListeners(old(routes.table), id, closed)
      ensures db == AfterRemoval(old(db), selfId, old(routes.table), id, closed, now)
      ensures var gone := id in old(routes.table) && id !in routes.table;
              RemovalFlooded(old(db), db, selfId, id, gone, links, nextHop, old(outbox), outbox)
    {
      ghost var before := routes.table;
      var effect := routes.RemoveEndpoint(id, closed);
      if id != selfId {
        RemovalKeeps(db, links, before, selfId, orphans, id, closed, now);
      }
      RequestRebuild(now);
      AnnounceRemoval(id, effect, now);
    }

    /** A higher minimum is advertised, an endpoint without routes withdrawn. */
    method AnnounceRemoval(id: EndpointId, effect: Effects, now: nat)
      requires KeysOk(db, links) && rebuildRequested.Some?
      modifies this`db, this`rebuildRequested, this`outbox
      ensures rebuildRequested.Some?
      ensures db == AfterEffect(old(db), selfId, id, effect, now)
      ensures RemovalFlooded(old(db), db, selfId, id, effect.RemoveLsa?, links, nextHop, old(outbox), outbox)
    {
      if effect.UpdateLsa? {
        UpdateEndpointCost(id, effect.cost, now);
      } else if effect.RemoveLsa? {
        Withdraw(id);
      }
    }

    /** Removes the node's own advertisement of an endpoint and floods its withdrawal. */
    method Withdraw(id: EndpointId)
      modifies this`db, this`outbox
      ensures db == old(db) - {LsaKey(selfId, id)}
      ensures LsaKey(selfId, id) !in old(db) ==> outbox == old(outbox)
      ensures LsaKey(selfId, id) in old(db) ==>
                var lsa := old(db)[LsaKey(selfId, id)].lsa;
                Appends(old(outbox), outbox, FloodBatch(links, nextHop, lsa.(dead := true, seq_ := lsa.seq_ + 1), None))
    {
      var key := LsaKey(selfId, id);
      if key in db {
        var lsa := db[key].lsa;
        db := db - {key};
        FloodAllNeighbors(lsa.(dead := true, seq_ := lsa.seq_ + 1), None);
      } else {
        assert db - {key} == db;
      }
    }

    // -------------------------------------------------------- refresh and expiry

    /** Re-issues the node's own ageing advertisements under the next sequence number. */
    method RefreshOwn(now: nat) returns (due: seq<Lsa>)
      modifies this`db
      requires KeysOk(db, links)
      ensures db == Refreshed(old(db), selfId, lsaTimeout, now) && ListsDue(old(db), selfId, lsaTimeout, now, due)
    {
      due := [];
      var todo := db.Keys;
      while todo != {}
        invariant todo <= db.Keys && db.Keys == old(db).Keys
        invariant forall k :: k in db ==>
                    db[k] == if k in todo then old(db)[k] else Refreshed(old(db), selfId, lsaTimeout, now)[k]
        invariant forall k :: IsDue(old(db), selfId, lsaTimeout, now, k) && k !in todo ==>
                    Renewed(old(db)[k], now).lsa in due
        invariant forall l :: l in due ==>
                    && l.key !in todo && IsDue(old(db), selfId, lsaTimeout, now, l.key)
                    && l == Renewed(old(db)[l.key], now).lsa
        invariant forall i, j :: 0 <= i < j < |due| ==> due[i].key != due[j].key
      {
        var k :| k in todo;
        todo := todo - {k};
        var record := db[k];
        if k.origin == selfId && record.updatedAt + lsaTimeout / 3 < now {
          var lsa := record.lsa.(seq_ := record.lsa.seq_ + 1);
          db := db[k := LsaRecord(lsa, now)];
          assert forall i :: 0 <= i < |due| ==> due[i] in due;
          due := due + [lsa];
          assert due[|due| - 1] == lsa;
        }
      }
    }

    /** Drops at most one stale record and leaves its route in place. */
    method PurgeStaleLsas(now: nat) returns (dirty: bool)
      requires Valid()
      modifies this`db, this`orphans
      ensures OnlyForeignStale(old(db), selfId, lsaTimeout, now) ==> Valid()
      ensures dirty <==> exists k :: Stale(old(db), lsaTimeout, now, k)
      ensures PurgedTo(old(db), lsaTimeout, now, db, old(orphans), orphans)
      ensures dirty <==> db != old(db)
      ensures !dirty ==> orphans == old(orphans)
    {
      if k :| k in db && db[k].updatedAt + lsaTimeout < now {
        assert Stale(db, lsaTimeout, now, k);
        if k.origin != selfId {
          ExpiryKeeps(db, links, routes.table, selfId, orphans, k);
        }
        db := db - {k};
        orphans := orphans + {k};
        assert Purged(old(db), lsaTimeout, now, db, {k});
        return true;
      }
      assert Purged(old(db), lsaTimeout, now, db, {});
      return false;
    }

    method FloodEach(due: seq<Lsa>)
      modifies this`outbox
      ensures FloodsEach(old(outbox), outbox, links, nextHop, due)
    {
      ghost var stages := [outbox];
      for i := 0 to |due|
        invariant FloodStages(stages, links, nextHop, due[..i])
        invariant stages[0] == old(outbox) && stages[i] == outbox
      {
        FloodAllNeighbors(due[i], None);
        stages := stages + [outbox];
      }
      assert due[..|due|] == due;
    }

    /** Renews and floods own advertisements, then drops one stale record. */
    method RefreshAndPurge(now: nat)
      requires Valid()
      modifies this`db, this`nextHop, this`cost, this`parent, this`rebuildRequested, this`outbox, this`orphans,
               this`lastRefresh
      ensures Valid() && lastRefresh == now
      ensures PurgedTo(Refreshed(old(db), selfId, lsaTimeout, now), lsaTimeout, now, db, old(orphans), orphans)
      ensures DueFlooded(old(db), selfId, lsaTimeout, now, links, old(nextHop), old(outbox), outbox)
      ensures OwnAreYoung(old(db), db, selfId, lsaTimeout, now)
      ensures if db == Refreshed(old(db), selfId, lsaTimeout, now) then
                rebuildRequested == old(rebuildRequested) && orphans == old(orphans)
              else rebuildRequested.Some? && TreeIsCurrent()
    {
      RefreshAndFlood(now);
      PurgeAndRebuild(now);
      RefreshedStayYoung(old(db), selfId, lsaTimeout, now, db, old(orphans), orphans);
    }

    method RefreshAndFlood(now: nat)
      requires Valid()
      modifies this`db, this`outbox
      ensures Valid() && OnlyForeignStale(db, selfId, lsaTimeout, now)
      ensures db == Refreshed(old(db), selfId, lsaTimeout, now)
      ensures DueFlooded(old(db), selfId, lsaTimeout, now, links, nextHop, old(outbox), outbox)
    {
      var due := RefreshOwn(now);
      RefreshKeeps(old(db), links, routes.table, selfId, orphans, lsaTimeout, now);
      FloodEach(due);
    }

    method PurgeAndRebuild(now: nat)
      requires Valid() && OnlyForeignStale(db, selfId, lsaTimeout, now)
      modifies this`db, this`nextHop, this`cost, this`parent, this`rebuildRequested, this`orphans, this`lastRefresh
      ensures Valid() && lastRefresh == now
      ensures PurgedTo(old(db), lsaTimeout, now, db, old(orphans), orphans)
      ensures if db == old(db) then rebuildRequested == old(rebuildRequested) && orphans == old(orphans)
              else rebuildRequested.Some? && TreeIsCurrent()
    {
      var dirty := PurgeStaleLsas(now);
      if dirty {
        ComputeSpf();
        RequestRebuild(now);
      }
      lastRefresh := now;
    }

    /** The 50 ms tick: refreshes when due and reports a pending rebuild once. */
    method Tick(now: nat) returns (rebuild: bool)
      requires Valid()
      modifies this`db, this`nextHop, this`cost, this`parent, this`rebuildRequested, this`outbox, this`orphans,
               this`lastRefresh, this`lastTick
      ensures Valid() && lastTick == now && rebuildRequested == None
      ensures old(lastRefresh) + lsaTimeout / 3 >= now ==>
                && db == old(db) && outbox == old(outbox) && orphans == old(orphans) && lastRefresh == old(lastRefresh)
                && SpfTree() == old(SpfTree()) && rebuild == old(rebuildRequested).Some?
      ensures old(lastRefresh) + lsaTimeout / 3 < now ==>
                && lastRefresh == now
                && PurgedTo(Refreshed(old(db), selfId, lsaTimeout, now), lsaTimeout, now, db, old(orphans), orphans)
                && DueFlooded(old(db), selfId, lsaTimeout, now, links, old(nextHop), old(outbox), outbox)
                && OwnAreYoung(old(db), db, selfId, lsaTimeout, now)
                && (rebuild <==> old(rebuildRequested).Some? || db != Refreshed(old(db), selfId, lsaTimeout, now))
    {
      lastTick := now;
      if lastRefresh + lsaTimeout / 3 < now {
        RefreshAndPurge(now);
      }
      rebuild := rebuildRequested.Some?;
      rebuildRequested := None;
    }

    // ------------------------------------------------------------------- shutdown

    /** Withdraws the node itself at its neighbours and forgets everything. */
    method Shutdown() returns (told: seq<Listener>)
      requires Valid()
      modifies this`db, this`links, this`outbox, routes
      ensures forall l :: l in told <==> IsListener(old(routes.table), l)
      ensures db == map[] && links == map[] && routes.table == map[]
      ensures NodeWithdrawn(old(db), selfId, old(links), nextHop, old(outbox), outbox)
    {
      FloodFarewell();
      db, links := map[], map[];
      told := routes.Shutdown();
    }

    /** Floods the withdrawal of the node's own router advertisement. */
    method FloodFarewell()
      requires SelfKey(selfId) in db
      modifies this`outbox
      ensures NodeWithdrawn(db, selfId, links, nextHop, old(outbox), outbox)
    {
      var lsa := db[SelfKey(selfId)].lsa;
      FloodAllNeighbors(lsa.(dead := true, seq_ := lsa.seq_ + 1), None);
    }

    // ---------------------------------------------------------- forwarding table

    /** Recomputes the tree and builds a table from the current state. */
    method BuildFib() returns (fib: ForwardingTable)
      requires Valid() && forall e :: e in routes.table ==> routes.table[e].kind != Multicast
      modifies this`nextHop, this`cost, this`parent, this`rebuildRequested
      ensures Valid() && rebuildRequested == None
      ensures TreeIsCurrent() && IsFib(selfId, links, SpfTree(), routes.table, fib)
    {
      ComputeSpf();
      rebuildRequested := None;
      fib := BuildFromDb(selfId, links, Tree(cost, parent, nextHop), routes.table);
    }
  }

  /** Forgetting an origin's routes twice is forgetting them once. */
  lemma ForgetAgain(db: Db, table: Table, lsa: Lsa)
    ensures var table' := if lsa.key in db then TableAfterWithdrawal(db, table, lsa) else table;
            !(lsa.key in db && !Withdraws(db, lsa)) ==>
              WithoutRemote(table', lsa.key.endpointId, lsa.key.origin) == TableAfterWithdrawal(db, table, lsa)
    ensures Withdraws(db, lsa) ==> AfterWithdrawal(db, lsa) - {lsa.key} == AfterWithdrawal(db, lsa)
  {
    if Withdraws(db, lsa) && db[lsa.key].lsa.body.Router? {
      var ids := EndpointsOf(db, lsa.key.origin);
      ForgetOneMore(table, lsa.key.origin, ids, lsa.key.endpointId);
      assert ids + {lsa.key.endpointId} == ids;
    }
  }

  ghost predicate InUniverse(g: Graph, root: NodeId, queue: seq<Entry>, order: seq<NodeId>) {
    (forall e :: e in queue ==> e.node in Universe(g, root)) && forall n :: n in order ==> n in Universe(g, root)
  }

  lemma SettleUniverse(g: Graph, root: NodeId, queue: seq<Entry>, order: seq<NodeId>, t: Tree)
    requires InUniverse(g, root, queue, order) && queue != [] && QueueOk(t, queue, order)
    ensures var order' := order + [queue[0].node];
            InUniverse(g, root, queue[1..], order') &&
            Universe(g, root) - Elements(order') < Universe(g, root) - Elements(order)
  {
    var u := queue[0].node;
    assert queue[0] in queue;
    assert u in Universe(g, root) - Elements(order);
    assert Elements(order + [u]) == Elements(order) + {u};
  }

  /** The node just settled is the root or already has a next hop. */
  lemma LastIsSettled(g: Graph, t: Tree, root: NodeId, links: Links, queue: seq<Entry>, order: seq<NodeId>, done: nat)
    requires RunOk(g, t, root, links, queue, order, done) && order != []
    ensures var u := order[|order| - 1]; u in t.cost && t.cost[u] < MAX_COST && (u == root || u in t.nextHop)
  {
    assert order[|order| - 1] in order && Reached(t, order[|order| - 1]);
  }

  lemma EnumeratesOne(sent: seq<Outgoing>, batch: map<ConnectionId, Lsa>, c: ConnectionId, copy: Lsa)
    requires Enumerates(sent, batch) && c !in batch
    ensures Enumerates(sent + [Outgoing(c, LsaMessage(copy))], batch[c := copy])
  {
    var sent', batch' := sent + [Outgoing(c, LsaMessage(copy))], batch[c := copy];
    forall d | d in batch' ensures Outgoing(d, LsaMessage(batch'[d])) in sent' {
      assert sent'[|sent|] in sent';
      assert d != c ==> Outgoing(d, LsaMessage(batch[d])) in sent;
    }
    forall i, j | 0 <= i < j < |sent'| ensures sent'[i].conn != sent'[j].conn {
      assert sent'[i] in sent;
    }
  }
}
