/** The router: a state machine that owns the database and publishes forwarding tables. */
module Routers {
  import opened Routing
  import opened Routes
  import opened Paths
  import opened Spf
  import opened SpfTheorems
  import opened LinkState
  import opened Forwarding
  import opened Database

  datatype Registration = Registration(id: EndpointId, info: EndpointInfo, sender: Listener)

  datatype RouterMsg =
    | Register(request: Registration)
    | DeadLink(id: EndpointId)
    | RegisterPeer(link: Link)
    | UnRegisterPeer(conn: ConnectionId)
    | LsaInbound(conn: ConnectionId, lsa: Lsa)
    | LsaAckInbound(conn: ConnectionId, key: LsaKey, seq_: nat)
    | SetCost(id: EndpointId, sender: Listener, cost: Cost)
    | Stop

  // What wakes the router up while it listens.
  datatype Wake = Msg(msg: RouterMsg) | ChannelClosed | Timer

  datatype State =
    | Start
    | Listen
    | HandleBrokerMsg(msg: RouterMsg)
    | RegisterEndpoint(request: Registration)
    | RouteChange(notify: Option<Registration>)
    | Tick
    | Shutdown

  datatype Reply = Succeeded(sender: Listener, id: EndpointId) | Failed(sender: Listener, id: EndpointId)

  /** A table freshly built from the database, for some choice among parallel links. */
  ghost predicate FreshFib(db: Db, self: NodeId, links: Links, table: Table, fib: ForwardingTable) {
    exists g, t :: IsTopology(db, g) && IsSpf(g, self, links, t) && IsFib(self, links, t, table, fib)
  }

  ghost predicate NoMulticast(table: Table) {
    forall e :: e in table ==> table[e].kind != Multicast
  }

  lemma NoMulticastKept(table: Table, table': Table, kind: RouteKind)
    requires NoMulticast(table) && KindsFrom(table, table', kind) && kind != Multicast
    ensures NoMulticast(table')
  {
    forall e | e in table' ensures table'[e].kind != Multicast {
      assert KindAt(table, table', kind, e);
    }
  }

  /** A registered listener, at the cost it asked for. */
  ghost predicate HasListener(table: Table, request: Registration) {
    && request.id in table && table[request.id].kind == request.info.kind
    && exists r :: r in table[request.id].routes && r.via == ToListener(request.sender) && r.cost == request.info.cost
  }

  /** A table that serves a registered listener: alone when unicast, among the
      others when broadcast, through one best choice when anycast. */
  ghost predicate Serves(fib: ForwardingTable, request: Registration) {
    request.id in fib.table &&
    var entry := fib.table[request.id];
    match request.info.kind
    case Unicast => entry == Single(Local(request.sender))
    case Broadcast => entry.MultiCast? && Local(request.sender) in entry.hops
    case _ => entry.Single?
  }

  // What the messages of a router change, its queues and trees aside.
  datatype Snapshot = Snapshot(db: Db, links: Links, table: Table)

  function Applied(v: Snapshot, self: NodeId, cost: map<NodeId, Cost>, m: RouterMsg, closed: set<Listener>,
                   now: nat): Snapshot
    requires SelfKey(self) in v.db && v.db[SelfKey(self)].lsa.body.Router?
  {
    match m
    case DeadLink(id) =>
      v.(db := AfterRemoval(v.db, self, v.table, id, closed, now), table := WithoutListeners(v.table, id, closed))
    case RegisterPeer(link) =>
      v.(db := WithAdjacency(v.db, self, link, now), links := v.links[link.connectionId := link])
    case UnRegisterPeer(conn) =>
      if conn !in v.links then v else v.(db := WithoutAdjacency(v.db, self, conn, now), links := v.links - {conn})
    case LsaInbound(_, lsa) =>
      v.(db := Handled(v.db, self, lsa, now), table := HandledTable(v.db, v.table, self, cost, lsa))
    case SetCost(id, sender, c) =>
      v.(db := AfterCostChange(v.db, self, v.table, id, sender, c, now), table := WithCost(v.table, id, sender, c))
    case _ => v
  }

  /** A lost peer's link is gone and so is its adjacency; the others stay. */
  lemma LostPeerIsGone(v: Snapshot, self: NodeId, cost: map<NodeId, Cost>, conn: ConnectionId, closed: set<Listener>,
                       now: nat)
    requires OwnRouterOk(v.db, v.links, self)
    ensures var v' := Applied(v, self, cost, UnRegisterPeer(conn), closed, now);
            && v'.links == v.links - {conn}
            && SelfKey(self) in v'.db && v'.db[SelfKey(self)].lsa.body.Router?
            && forall a :: a in v'.db[SelfKey(self)].lsa.body.adjacencies <==>
                           a in v.db[SelfKey(self)].lsa.body.adjacencies && a.connectionId != conn
  {
  }

  /** A new peer's link is there and so is its adjacency, with the others. */
  lemma NewPeerIsIn(v: Snapshot, self: NodeId, cost: map<NodeId, Cost>, link: Link, closed: set<Listener>, now: nat)
    requires OwnRouterOk(v.db, v.links, self)
    ensures var v' := Applied(v, self, cost, RegisterPeer(link), closed, now);
            && v'.links == v.links[link.connectionId := link]
            && SelfKey(self) in v'.db && v'.db[SelfKey(self)].lsa.body.Router?
            && forall a :: a in v'.db[SelfKey(self)].lsa.body.adjacencies <==>
                           a in v.db[SelfKey(self)].lsa.body.adjacencies ||
                           a == Adjacency(link.connectionId, link.peerId, link.cost, link.realms)
  {
  }

  /** A fresh foreign advertisement is stored as it is, a changed cost set, a closed
      listener dropped, and no listener else. */
  lemma MessagesTakeEffect(v: Snapshot, self: NodeId, cost: map<NodeId, Cost>, m: RouterMsg, closed: set<Listener>,
                           now: nat, e: EndpointId, r: Route)
    requires SelfKey(self) in v.db && v.db[SelfKey(self)].lsa.body.Router?
    ensures var v' := Applied(v, self, cost, m, closed, now);
            match m
            case LsaInbound(_, lsa) =>
              lsa.key.origin != self && !lsa.dead && Newer(v.db, lsa) ==>
                v'.db == v.db[lsa.key := LsaRecord(lsa, now)]
            case SetCost(id, sender, c) =>
              CostChanges(v.table, id, sender, c) ==> HasListenerAt(v'.table, id, sender, c)
            case DeadLink(id) =>
              e in v'.table && r in v'.table[e].routes <==>
                e in v.table && r in v.table[e].routes && !(e == id && r.via.ToListener? && r.via.listener in closed)
            case _ => v'.table == v.table
  {
    match m
    case SetCost(id, sender, c) =>
      if CostChanges(v.table, id, sender, c) {
        CostIsSet(v.table, id, sender, c);
      }
    case DeadLink(id) => OnlyClosedGo(v.table, id, closed, e, r);
    case _ =>
  }

  /** Nothing happens before a refresh is due; then own records are renewed, and a
      rebuild follows exactly when a record has been purged. */
  ghost predicate TickedTo(db: Db, self: NodeId, lifetime: nat, lastRefresh: nat, now: nat, db': Db, rebuild: bool) {
    if now <= lastRefresh + lifetime / 3 then db' == db && !rebuild
    else
      var renewed := Refreshed(db, self, lifetime, now);
      (rebuild <==> db' != renewed) && exists gone :: Purged(renewed, lifetime, now, db', gone)
  }

  function After(m: RouterMsg, table: Table): State {
    match m
    case Register(request) => RegisterEndpoint(request)
    case LsaAckInbound(_, _, _) => Listen
    case SetCost(id, sender, c) => if CostChanges(table, id, sender, c) then RouteChange(None) else Listen
    case Stop => Shutdown
    case _ => RouteChange(None)
  }

  /** Sequence numbers and times do not enter a forwarding table. */
  lemma FreshAfterRefresh(db: Db, db': Db, self: NodeId, links: Links, table: Table, fib: ForwardingTable)
    requires SameBodies(db, db') && FreshFib(db, self, links, table, fib)
    ensures FreshFib(db', self, links, table, fib)
  {
    var g, t :| IsTopology(db, g) && IsSpf(g, self, links, t) && IsFib(self, links, t, table, fib);
    forall n | n in g ensures exists k :: k in db' && k.origin == n && db'[k].lsa.body == Router(g[n]) {
      var k :| k in db && k.origin == n && db[k].lsa.body == Router(g[n]);
      assert db'[k].lsa.body == Router(g[n]);
    }
    assert IsTopology(db', g);
  }

  lemma FreshAfterTick(db: Db, self: NodeId, lifetime: nat, now: nat, db': Db, links: Links, table: Table,
                       fib: ForwardingTable)
    requires FreshFib(db, self, links, table, fib) && (db' == db || db' == Refreshed(db, self, lifetime, now))
    ensures FreshFib(db', self, links, table, fib)
  {
    FreshAfterRefresh(db, db', self, links, table, fib);
  }

  /** A freshly built table serves every registered listener, an anycast one
      through a route that costs no more. */
  lemma ListenerIsServed(self: NodeId, links: Links, t: Tree, table: Table, fib: ForwardingTable, request: Registration)
    requires IsFib(self, links, t, table, fib) && HasListener(table, request) && TableOk(table) && NoMulticast(table)
    requires request.info.kind != Node
    ensures Serves(fib, request)
    ensures request.info.kind == Anycast ==>
              exists i: nat ::
                BestAnycast(t, table[request.id].routes, i) &&
                AnycastTotal(t, table[request.id].routes[i]).value <= request.info.cost &&
                               FibForward(t, table[request.id].routes[i]) == Some(fib.table[request.id].hop)
  {
    var entry := table[request.id];
    var r :| r in entry.routes && r.via == ToListener(request.sender) && r.cost == request.info.cost;
    assert EntryOk(entry) && IsFibEntry(t, entry, Lookup(fib, request.id));
    match entry.kind
    case Unicast => OneRouteEntry(t, entry.routes, Lookup(fib, request.id));
    case Broadcast => LocalHopsHas(entry.routes, r);
    case Anycast =>
      assert AnycastTotal(t, r).Some?;
      var i := AnycastEntry(t, entry.routes, Lookup(fib, request.id), r);
    case _ =>
  }

  lemma {:induction false} LocalHopsHas(routes: seq<Route>, r: Route)
    requires r in routes && r.via.ToListener?
    ensures Local(r.via.listener) in LocalHops(routes)
  {
    if r != routes[0] {
      LocalHopsHas(routes[1..], r);
    }
  }

  class Router {
    const lsdb: LsDb
    var fib: ForwardingTable
    var replies: seq<Reply>

    ghost predicate Sound()
      reads this, lsdb, lsdb.routes
    {
      lsdb.Valid() && NoMulticast(lsdb.routes.table) && fib.ourId == lsdb.selfId
    }

    /** The published table is fresh whenever no change is being applied. */
    ghost predicate Inv(s: State)
      reads this, lsdb, lsdb.routes
    {
      && Sound()
      && match s
         case RouteChange(notify) =>
           notify.Some? && notify.value.info.kind != Node ==> HasListener(lsdb.routes.table, notify.value)
         case Shutdown => true
         case _ =>
           && FreshFib(lsdb.db, lsdb.selfId, lsdb.links, lsdb.routes.table, fib)
           && lsdb.rebuildRequested.None?
           && Admissible(s)
    }

    /** What the rest of the program guarantees about messages: connection ids
        are fresh among live links and endpoint ids are no node ids. */
    ghost predicate Admissible(s: State)
      reads this, lsdb
    {
      match s
      case HandleBrokerMsg(m) => AdmissibleMsg(m)
      case RegisterEndpoint(r) => r.id != lsdb.selfId && r.info.kind != Multicast
      case _ => true
    }

    predicate AdmissibleMsg(m: RouterMsg)
      reads this, lsdb
    {
      match m
      case Register(r) => r.id != lsdb.selfId && r.info.kind != Multicast
      case DeadLink(id) => id != lsdb.selfId
      case RegisterPeer(link) => link.connectionId !in lsdb.links
      case LsaInbound(_, lsa) => BodyKind(lsa.body) != Multicast
      case _ => true
    }

    constructor (self: NodeId, now: nat)
      ensures Inv(State.Start) && fresh(lsdb) && fresh(lsdb.routes) && lsdb.selfId == self
      ensures fib == ForwardingTable(self, map[], map[], map[]) && replies == []
    {
      lsdb := new LsDb(self, now);
      fib := ForwardingTable(self, map[], map[], map[]);
      replies := [];
      new;
      EmptyIsFresh(lsdb.db, self, fib);
    }

    ghost function View(): Snapshot
      reads lsdb, lsdb.routes
    {
      Snapshot(lsdb.db, lsdb.links, lsdb.routes.table)
    }

    /** Nothing is stored any more. */
    ghost predicate Forgotten()
      reads lsdb, lsdb.routes
    {
      View() == Snapshot(map[], map[], map[])
    }

    /** What a step in state `s` has made of the router, whose state was `before`. */
    ghost predicate Stepped(s: State, closed: set<Listener>, now: nat, before: Snapshot, cost: map<NodeId, Cost>,
                            lastRefresh: nat, fib0: ForwardingTable, next: Option<State>)
      requires SelfKey(lsdb.selfId) in before.db && before.db[SelfKey(lsdb.selfId)].lsa.body.Router?
      reads this, lsdb, lsdb.routes
    {
      && (next.Some? ==> Inv(next.value))
      && (!s.RouteChange? ==> fib == fib0)
      && match s
         case RegisterEndpoint(request) =>
           if next == Some(Listen) then View() == before
           else
             && Registered(before.table, lsdb.routes.table, request.id, request.info, request.sender)
             && lsdb.db == AfterRegistration(before.db, lsdb.selfId, before.table, request.id, request.info, now)
         case HandleBrokerMsg(m) => View() == Applied(before, lsdb.selfId, cost, m, closed, now)
         case RouteChange(notify) =>
           View() == before && (notify.Some? && notify.value.info.kind != Node ==> Serves(fib, notify.value))
         case Tick =>
           && lsdb.links == before.links && lsdb.routes.table == before.table
           && TickedTo(before.db, lsdb.selfId, lsdb.lsaTimeout, lastRefresh, now, lsdb.db,
                       next == Some(RouteChange(None)))
         case Shutdown => View() == Snapshot(map[], map[], map[])
         case _ => View() == before
    }

    /** One step of the state machine. */
    method Next(s: State, wake: Wake, closed: set<Listener>, now: nat) returns (next: Option<State>)
      requires Inv(s) && (s == Listen && wake.Msg? ==> AdmissibleMsg(wake.msg))
      modifies this`fib, this`replies, lsdb, lsdb.routes
      ensures Stepped(s, closed, now, old(View()), old(lsdb.cost), old(lsdb.lastRefresh), old(fib), next)
      ensures StepsTo(s, wake, old(lsdb.routes.table), next) && Replies(s, next, old(replies), replies)
    {
      match s
      case Start() =>
        return Some(Listen);
      case Listen =>
        return match wake
          case Msg(m) => Some(HandleBrokerMsg(m))
          case ChannelClosed => Some(Shutdown)
          case Timer => Some(Tick);
      case RouteChange(notify) =>
        Publish(notify);
        return Some(Listen);
      case Shutdown =>
        var _ := lsdb.Shutdown();
        return None;
      case HandleBrokerMsg(_) =>
        next := StepMsg(s, wake, closed, now);
      case RegisterEndpoint(_) =>
        next := StepRegistration(s, wake, closed, now);
      case Tick =>
        next := HandleTick(now);
    }

    /** A message has been taken in. */
    method StepMsg(s: State, wake: Wake, closed: set<Listener>, now: nat) returns (next: Option<State>)
      requires Inv(s) && s.HandleBrokerMsg?
      modifies this`replies, lsdb, lsdb.routes
      ensures Stepped(s, closed, now, old(View()), old(lsdb.cost), old(lsdb.lastRefresh), old(fib), next)
      ensures StepsTo(s, wake, old(lsdb.routes.table), next) && Replies(s, next, old(replies), replies)
    {
      var after := HandleMsg(s.msg, closed, now);
      return Some(after);
    }

    /** An endpoint is to be registered. */
    method StepRegistration(s: State, wake: Wake, closed: set<Listener>, now: nat) returns (next: Option<State>)
      requires Inv(s) && s.RegisterEndpoint?
      modifies this`replies, lsdb, lsdb.routes
      ensures Stepped(s, closed, now, old(View()), old(lsdb.cost), old(lsdb.lastRefresh), old(fib), next)
      ensures StepsTo(s, wake, old(lsdb.routes.table), next) && Replies(s, next, old(replies), replies)
    {
      var after := HandleRegistration(s.request, now);
      return Some(after);
    }

    /** Publishes a fresh table, then tells the registrant. */
    method Publish(notify: Option<Registration>)
      requires Inv(RouteChange(notify))
      modifies this`fib, this`replies, lsdb
      ensures Inv(Listen) && View() == old(View())
      ensures replies == old(replies) + if notify.Some? then [Succeeded(notify.value.sender, notify.value.id)] else []
      ensures notify.Some? && notify.value.info.kind != Node ==> Serves(fib, notify.value)
    {
      fib := lsdb.BuildFib();
      if notify.Some? {
        replies := replies + [Succeeded(notify.value.sender, notify.value.id)];
        if notify.value.info.kind != Node {
          ListenerIsServed(lsdb.selfId, lsdb.links, lsdb.SpfTree(), lsdb.routes.table, fib, notify.value);
        }
      }
    }

    method HandleTick(now: nat) returns (next: Option<State>)
      requires Inv(State.Tick)
      modifies lsdb
      ensures next == Some(Listen) || next == Some(RouteChange(None))
      ensures Inv(next.value) && lsdb.links == old(lsdb.links)
      ensures TickedTo(old(lsdb.db), lsdb.selfId, lsdb.lsaTimeout, old(lsdb.lastRefresh), now, lsdb.db,
                       next == Some(RouteChange(None)))
    {
      var rebuild := lsdb.Tick(now);
      if rebuild {
        return Some(RouteChange(None));
      }
      FreshAfterTick(old(lsdb.db), lsdb.selfId, lsdb.lsaTimeout, now, lsdb.db, lsdb.links, lsdb.routes.table, fib);
      return Some(Listen);
    }

    method HandleRegistration(request: Registration, now: nat) returns (next: State)
      requires Inv(RegisterEndpoint(request))
      modifies this`replies, lsdb, lsdb.routes
      ensures Inv(next)
      ensures if next == Listen then
                replies == old(replies) + [Failed(request.sender, request.id)] && View() == old(View())
              else
                && next == RouteChange(Some(request)) && replies == old(replies)
                && Registered(old(lsdb.routes.table), lsdb.routes.table, request.id, request.info, request.sender)
                && lsdb.db == AfterRegistration(old(lsdb.db), lsdb.selfId, old(lsdb.routes.table), request.id,
                                                request.info, now)
    {
      var ok := lsdb.AddEndpoint(request.id, request.info, request.sender, now);
      if !ok {
        replies := replies + [Failed(request.sender, request.id)];
        return Listen;
      }
      return RouteChange(Some(request));
    }

    method HandleMsg(m: RouterMsg, closed: set<Listener>, now: nat) returns (next: State)
      requires Inv(HandleBrokerMsg(m))
      modifies lsdb, lsdb.routes
      ensures Inv(next)
      ensures next == After(m, old(lsdb.routes.table))
      ensures View() == Applied(old(View()), lsdb.selfId, old(lsdb.cost), m, closed, now)
    {
      match m
      case Register(request) =>
        return RegisterEndpoint(request);
      case DeadLink(id) =>
        HandleDeadLink(m, closed, now);
        return RouteChange(None);
      case RegisterPeer(link) =>
        HandleNewPeer(m, closed, now);
        return RouteChange(None);
      case UnRegisterPeer(conn) =>
        HandleLostPeer(m, closed, now);
        return RouteChange(None);
      case LsaInbound(conn, lsa) =>
        HandleLsaMsg(m, closed, now);
        return RouteChange(None);
      case LsaAckInbound(_, _, _) =>
        return Listen;
      case SetCost(id, sender, cost) =>
        next := HandleCost(m, closed, now);
      case Stop =>
        return Shutdown;
    }

    method HandleDeadLink(m: RouterMsg, closed: set<Listener>, now: nat)
      requires Sound() && AdmissibleMsg(m) && m.DeadLink?
      modifies lsdb, lsdb.routes
      ensures Sound() && View() == Applied(old(View()), lsdb.selfId, old(lsdb.cost), m, closed, now)
    {
      lsdb.RemoveEndpoint(m.id, closed, now);
    }

    method HandleCost(m: RouterMsg, closed: set<Listener>, now: nat) returns (next: State)
      requires Sound() && m.SetCost?
      modifies lsdb, lsdb.routes
      ensures Sound() && next == After(m, old(lsdb.routes.table))
      ensures View() == Applied(old(View()), lsdb.selfId, old(lsdb.cost), m, closed, now)
      ensures next == Listen ==> View() == old(View()) && lsdb.rebuildRequested == old(lsdb.rebuildRequested)
    {
      var res := lsdb.SetAnycastCost(m.id, m.sender, m.cost, now);
      return if res.Changed? then RouteChange(None) else Listen;
    }

    method HandleNewPeer(m: RouterMsg, closed: set<Listener>, now: nat)
      requires Sound() && AdmissibleMsg(m) && m.RegisterPeer?
      modifies lsdb
      ensures Sound() && View() == Applied(old(View()), lsdb.selfId, old(lsdb.cost), m, closed, now)
    {
      lsdb.AddPeer(m.link, now);
    }

    method HandleLostPeer(m: RouterMsg, closed: set<Listener>, now: nat)
      requires Sound() && AdmissibleMsg(m) && m.UnRegisterPeer?
      modifies lsdb
      ensures Sound() && View() == Applied(old(View()), lsdb.selfId, old(lsdb.cost), m, closed, now)
    {
      lsdb.RemovePeer(m.conn, now);
    }

    method HandleLsaMsg(m: RouterMsg, closed: set<Listener>, now: nat)
      requires Sound() && AdmissibleMsg(m) && m.LsaInbound?
      modifies lsdb, lsdb.routes
      ensures Sound() && View() == Applied(old(View()), lsdb.selfId, old(lsdb.cost), m, closed, now)
    {
      lsdb.HandleLsa(m.lsa, m.conn, now);
      HandledKinds(old(lsdb.db), old(lsdb.routes.table), lsdb.selfId, old(lsdb.cost), m.lsa);
      NoMulticastKept(old(lsdb.routes.table), lsdb.routes.table, BodyKind(m.lsa.body));
    }

    /** One step, seen through the registrations it takes in and answers. */
    method Advance(s: State, input: Input) returns (next: Option<State>)
      requires Inv(s) && (s == Listen ==> AdmissibleWake(input.wake))
      modifies this`fib, this`replies, lsdb, lsdb.routes
      ensures next.Some? ==> Inv(next.value)
      ensures s != Listen && next.Some? ==> StepsLeft(next.value) < StepsLeft(s)
      ensures old(replies) <= replies
      ensures Answered(replies) + Pending(next) ==
              Answered(old(replies)) + Pending(Some(s)) + if s == Listen then AskedBy(input.wake) else []
      ensures next == None ==> Forgotten()
      ensures Leads(s, input.wake, next)
    {
      next := Next(s, input.wake, input.closed, input.now);
      Accounts(s, input.wake, old(lsdb.routes.table), next, old(replies), replies);
      StepsLead(s, input.wake, old(lsdb.routes.table), next);
    }

    /** Runs until the inputs are used up or the router has shut down, which it does at
        the first request to stop, forgetting everything. Every registration received is
        answered exactly once, in order, before the next input is read. */
    method Run(inputs: seq<Input>) returns (used: nat, state: Option<State>)
      requires Inv(State.Start) && replies == []
      modifies this`fib, this`replies, lsdb, lsdb.routes
      ensures used <= |inputs|
      ensures state == None || (state == Some(Listen) && Inv(Listen))
      ensures state == Some(Listen) ==> used == |inputs| || !AdmissibleWake(inputs[used].wake)
      ensures Answered(replies) == Asked(inputs[..used])
      ensures OnCourse(inputs[..used], state)
      ensures state == None ==> Forgotten()
    {
      state := Some(State.Start);
      used := 0;
      var input := Input(Timer, {}, 0);
      while state.Some?
        invariant used <= |inputs|
        invariant state.Some? ==> Inv(state.value)
        invariant Answered(replies) + Pending(state) == Asked(inputs[..used])
        invariant OnCourse(inputs[..used], state)
        invariant state == None ==> Forgotten()
        decreases |inputs| - used, if state.Some? then StepsLeft(state.value) else 0
      {
        var s, read := state.value, used;
        if s == Listen {
          if used == |inputs| || !AdmissibleWake(inputs[used].wake) {
            return;
          }
          input := inputs[used];
          AskedOneMore(inputs, used);
          used := used + 1;
        }
        state := Advance(s, input);
        KeepsCourse(inputs, read, s, input, state);
      }
    }

    predicate AdmissibleWake(wake: Wake)
      reads this, lsdb
    {
      wake.Msg? ==> AdmissibleMsg(wake.msg)
    }
  }

  // What the environment offers while the router listens.
  datatype Input = Input(wake: Wake, closed: set<Listener>, now: nat)

  /** A request to stop, or nobody left to make one. */
  predicate Ends(wake: Wake) {
    wake == Msg(Stop) || wake.ChannelClosed?
  }

  /** On the way out, or out. */
  predicate Leaving(s: Option<State>) {
    match s
    case None => true
    case Some(Shutdown) => true
    case Some(HandleBrokerMsg(m)) => m == Stop
    case _ => false
  }

  /** The only way out is such a request. */
  predicate Leads(s: State, wake: Wake, next: Option<State>) {
    Leaving(next) <==> Leaving(Some(s)) || (s == Listen && Ends(wake))
  }

  /** No request but the last one read ends the run, and that one does. */
  predicate OnCourse(read: seq<Input>, s: Option<State>) {
    && (forall i :: 0 <= i < |read| - 1 ==> !Ends(read[i].wake))
    && (Leaving(s) <==> read != [] && Ends(read[|read| - 1].wake))
  }

  lemma KeepsCourse(inputs: seq<Input>, read: nat, s: State, input: Input, next: Option<State>)
    requires read <= |inputs| && OnCourse(inputs[..read], Some(s)) && Leads(s, input.wake, next)
    requires s == Listen ==> read < |inputs| && input == inputs[read]
    ensures OnCourse(inputs[..if s == Listen then read + 1 else read], next)
  {
    if s == Listen {
      assert inputs[..read + 1] == inputs[..read] + [input];
    }
  }

  function StepsLeft(s: State): nat {
    match s
    case HandleBrokerMsg(_) => 4
    case RegisterEndpoint(_) => 3
    case Tick => 3
    case RouteChange(_) => 2
    case Start => 2
    case Listen => 1
    case Shutdown => 1
  }

  /** Who asked for which endpoint, in order. */
  function Asked(inputs: seq<Input>): seq<(Listener, EndpointId)> {
    if inputs == [] then []
    else Asked(inputs[..|inputs| - 1]) + AskedBy(inputs[|inputs| - 1].wake)
  }

  function AskedBy(wake: Wake): seq<(Listener, EndpointId)> {
    if wake.Msg? && wake.msg.Register? then [(wake.msg.request.sender, wake.msg.request.id)] else []
  }

  function Answered(replies: seq<Reply>): seq<(Listener, EndpointId)> {
    if replies == [] then []
    else Answered(replies[..|replies| - 1]) + [(replies[|replies| - 1].sender, replies[|replies| - 1].id)]
  }

  /** The registration being worked on. */
  function Pending(s: Option<State>): seq<(Listener, EndpointId)> {
    match s
    case Some(HandleBrokerMsg(Register(r))) => [(r.sender, r.id)]
    case Some(RegisterEndpoint(r)) => [(r.sender, r.id)]
    case Some(RouteChange(Some(r))) => [(r.sender, r.id)]
    case _ => []
  }

  lemma AskedOneMore(inputs: seq<Input>, used: nat)
    requires used < |inputs|
    ensures Asked(inputs[..used + 1]) == Asked(inputs[..used]) + AskedBy(inputs[used].wake)
  {
    assert inputs[..used + 1][..used] == inputs[..used];
  }

  lemma {:induction false} AnsweredMore(a: seq<Reply>, b: seq<Reply>)
    ensures Answered(a + b) == Answered(a) + Answered(b)
  {
    if b == [] {
      assert a + b == a;
    } else {
      AnsweredMore(a, b[..|b| - 1]);
      assert (a + b)[..|a + b| - 1] == a + b[..|b| - 1];
    }
  }

  /** Which state follows which. */
  predicate StepsTo(s: State, wake: Wake, table: Table, next: Option<State>) {
    match s
    case Start => next == Some(Listen)
    case Listen =>
      next == (match wake
        case Msg(m) => Some(HandleBrokerMsg(m))
        case ChannelClosed => Some(Shutdown)
        case Timer => Some(Tick))
    case HandleBrokerMsg(m) => next == Some(After(m, table))
    case RegisterEndpoint(r) => next == Some(Listen) || next == Some(RouteChange(Some(r)))
    case RouteChange(_) => next == Some(Listen)
    case Tick => next == Some(Listen) || next == Some(RouteChange(None))
    case Shutdown => next == None
  }

  lemma StepsLead(s: State, wake: Wake, table: Table, next: Option<State>)
    requires StepsTo(s, wake, table, next)
    ensures Leads(s, wake, next)
  {
  }

  /** A refusal is answered at once, a success only after the table is published. */
  predicate Replies(s: State, next: Option<State>, before: seq<Reply>, after: seq<Reply>) {
    after == before +
      match s
      case RegisterEndpoint(r) => if next == Some(Listen) then [Failed(r.sender, r.id)] else []
      case RouteChange(Some(r)) => [Succeeded(r.sender, r.id)]
      case _ => []
  }

  /** Success is told only by the step that publishes the table, to the one who waits for
      it, and failure only by the step that refuses. */
  lemma RepliesAreHonest(s: State, next: Option<State>, before: seq<Reply>, after: seq<Reply>, i: nat)
    requires Replies(s, next, before, after) && |before| <= i < |after|
    ensures match after[i]
            case Succeeded(sender, id) =>
              s.RouteChange? && s.notify.Some? && s.notify.value.sender == sender && s.notify.value.id == id
            case Failed(sender, id) =>
              s.RegisterEndpoint? && next == Some(Listen) && s.request.sender == sender && s.request.id == id
  {
  }

  /** Each step answers what it no longer carries. */
  lemma Accounts(s: State, wake: Wake, table: Table, next: Option<State>, before: seq<Reply>, after: seq<Reply>)
    requires StepsTo(s, wake, table, next) && Replies(s, next, before, after)
    ensures s != Listen && next.Some? ==> StepsLeft(next.value) < StepsLeft(s)
    ensures Answered(after) + Pending(next) ==
            Answered(before) + Pending(Some(s)) + if s == Listen then AskedBy(wake) else []
  {
    var more := after[|before|..];
    assert after == before + more;
    AnsweredMore(before, more);
    assert |more| == 1 ==> Answered(more) == Answered([]) + [(more[0].sender, more[0].id)];
  }

  /** What the router publishes is a built table for as long as it stays published. */
  lemma PublishedIsBuilt(db: Db, self: NodeId, links: Links, table: Table, orphans: set<LsaKey>, fib: ForwardingTable)
    requires StateOk(db, links, table, self, orphans) && FreshFib(db, self, links, table, fib)
    ensures Built(self, fib)
  {
  }

  lemma EmptyIsFresh(db: Db, self: NodeId, fib: ForwardingTable)
    requires db.Keys == {SelfKey(self)} && db[SelfKey(self)].lsa.body == Router([])
    requires fib == ForwardingTable(self, map[], map[], map[])
    ensures FreshFib(db, self, map[], map[], fib)
  {
    var g: Graph := map[self := []];
    var t := Tree(map[self := 0], map[], map[]);
    assert IsTopology(db, g) by {
      assert db[SelfKey(self)].lsa.body == Router(g[self]);
    }
    assert Settled(g, self, map[], t, [self]);
    assert IsTopology(db, g) && IsSpf(g, self, map[], t) && IsFib(self, map[], t, map[], fib);
  }
}
