/** The route table: local listeners and remote origins of every endpoint. */
module Routes {
  import opened Routing

  datatype ForwardTo = ToListener(listener: Listener) | ToNode(node: NodeId)
  datatype Route = Route(via: ForwardTo, cost: Cost, realm: Realm, kind: RouteKind)
  datatype RouteEntry = RouteEntry(routes: seq<Route>, kind: RouteKind)

  // What the link-state database has to do after a change of the table.
  datatype Effects =
    | AddLsa(id: EndpointId, info: EndpointInfo)
    | UpdateLsa(id: EndpointId, cost: Cost)
    | RemoveLsa(id: EndpointId)
    | RebuildFib
    | Noop

  datatype Error = MismatchedRouteKind | DuplicateUnicast
  datatype Result = Ok(effect: Effects) | Err(error: Error)

  datatype CostOutcome =
    | Unchanged
    | Changed(previous: Cost, current: Cost, advertise: Option<Cost>)
    | NotAnycast
    | NotRegistered

  // --------------------------------------------------------------- helpers

  /** The least cost of a local listener. */
  function MinLocalCost(routes: seq<Route>): Option<Cost> {
    if routes == [] then None
    else
      var rest := MinLocalCost(routes[1..]);
      if routes[0].via.ToNode? then rest
      else if rest.Some? && rest.value < routes[0].cost then rest
      else Some(routes[0].cost)
  }

  predicate HasLocal(routes: seq<Route>) {
    exists r :: r in routes && r.via.ToListener?
  }

  /** Position of the first route through `via`, or the length of the list. */
  function IndexOf(routes: seq<Route>, via: ForwardTo): (i: nat)
    ensures i <= |routes|
    ensures i < |routes| ==> routes[i].via == via
    ensures forall j :: 0 <= j < i ==> routes[j].via != via
  {
    if routes == [] then 0
    else if routes[0].via == via then 0
    else 1 + IndexOf(routes[1..], via)
  }

  /** The routes that do not go through any of `gone`, in order. */
  function Without(routes: seq<Route>, gone: set<ForwardTo>): (kept: seq<Route>)
    ensures |kept| <= |routes|
    ensures forall r :: r in kept <==> r in routes && r.via !in gone
    ensures |kept| == |routes| <==> forall r :: r in routes ==> r.via !in gone
    ensures |kept| == |routes| ==> kept == routes
  {
    if routes == [] then []
    else
      assert forall r :: r in routes <==> r == routes[0] || r in routes[1..];
      if routes[0].via in gone then Without(routes[1..], gone)
      else [routes[0]] + Without(routes[1..], gone)
  }

  function EntryOr(table: Table, id: EndpointId, kind: RouteKind): RouteEntry {
    if id in table then table[id] else RouteEntry([], kind)
  }

  type Table = map<EndpointId, RouteEntry>

  /** The table once `origin` advertises `info` for an endpoint: its one route is
      refreshed or added, unless the kind differs or a unicast place is taken. */
  function WithRemote(table: Table, id: EndpointId, origin: NodeId, info: EndpointInfo): Table {
    var entry := EntryOr(table, id, info.kind);
    var i := IndexOf(entry.routes, ToNode(origin));
    if entry.kind != info.kind then table
    else if i < |entry.routes| then
      table[id := entry.(routes := entry.routes[i := entry.routes[i].(cost := info.cost, realm := info.realm)])]
    else if info.kind == Unicast && entry.routes != [] then table
    else table[id := entry.(routes := entry.routes + [Route(ToNode(origin), info.cost, info.realm, info.kind)])]
  }

  /** The table without an origin's route to an endpoint. */
  function WithoutRemote(table: Table, id: EndpointId, origin: NodeId): Table {
    if id !in table then table
    else
      var kept := Without(table[id].routes, {ToNode(origin)});
      if kept == [] then table - {id} else table[id := table[id].(routes := kept)]
  }

  /** The table without an origin's routes to any of `ids`. */
  function Forget(table: Table, origin: NodeId, ids: set<EndpointId>): Table {
    map e | e in table && !(e in ids && Without(table[e].routes, {ToNode(origin)}) == []) ::
      if e in ids then table[e].(routes := Without(table[e].routes, {ToNode(origin)})) else table[e]
  }

  /** Forgetting one endpoint after others is forgetting them all. */
  lemma ForgetOneMore(table: Table, origin: NodeId, ids: set<EndpointId>, id: EndpointId)
    ensures WithoutRemote(Forget(table, origin, ids), id, origin) == Forget(table, origin, ids + {id})
  {
  }

  /** The routes of an endpoint once the closed listeners are gone. */
  function OpenRoutes(table: Table, id: EndpointId, closed: set<Listener>): seq<Route>
    requires id in table
  {
    Without(table[id].routes, set s | s in closed :: ToListener(s))
  }

  function WithoutListeners(table: Table, id: EndpointId, closed: set<Listener>): Table {
    if id !in table then table
    else if OpenRoutes(table, id, closed) == [] then table - {id}
    else table[id := table[id].(routes := OpenRoutes(table, id, closed))]
  }

  ghost predicate Listens(routes: seq<Route>, l: Listener) {
    exists r :: r in routes && r.via == ToListener(l)
  }

  ghost predicate IsListener(table: Table, l: Listener) {
    exists e :: e in table && Listens(table[e].routes, l)
  }

  function Listeners(routes: seq<Route>): seq<Listener> {
    if routes == [] then []
    else (if routes[0].via.ToListener? then [routes[0].via.listener] else []) + Listeners(routes[1..])
  }

  lemma {:induction false} ListenersAre(routes: seq<Route>)
    ensures forall l :: l in Listeners(routes) <==> Listens(routes, l)
  {
    if routes != [] {
      ListenersAre(routes[1..]);
      assert forall r :: r in routes <==> r == routes[0] || r in routes[1..];
      forall l ensures l in Listeners(routes) <==> Listens(routes, l) {
        if Listens(routes[1..], l) {
          var r :| r in routes[1..] && r.via == ToListener(l);
          assert r in routes;
        }
      }
    }
  }

  /** Listeners are left, and the least cost among them is another one. */
  predicate MinimumMoves(before: seq<Route>, kept: seq<Route>) {
    MinLocalCost(kept).Some? && MinLocalCost(kept) != MinLocalCost(before)
  }

  /** What a removal that keeps only `kept` calls for. */
  function RemovalEffect(before: RouteEntry, id: EndpointId, kept: seq<Route>): Effects {
    if kept == [] then RemoveLsa(id)
    else if before.kind == Anycast && MinimumMoves(before.routes, kept)
    then UpdateLsa(id, MinLocalCost(kept).value)
    else if kept == before.routes then Noop
    else RebuildFib
  }

  /** Is this listener registered on an anycast endpoint at another cost? */
  predicate CostChanges(table: Table, id: EndpointId, sender: Listener, cost: Cost) {
    id in table && table[id].kind == Anycast &&
    var i := IndexOf(table[id].routes, ToListener(sender));
    i < |table[id].routes| && table[id].routes[i].cost != cost
  }

  function WithCost(table: Table, id: EndpointId, sender: Listener, cost: Cost): Table {
    if !CostChanges(table, id, sender, cost) then table
    else
      var i := IndexOf(table[id].routes, ToListener(sender));
      table[id := table[id].(routes := table[id].routes[i := table[id].routes[i].(cost := cost)])]
  }

  predicate HasListenerAt(table: Table, id: EndpointId, sender: Listener, cost: Cost) {
    id in table && exists r :: r in table[id].routes && r.via == ToListener(sender) && r.cost == cost
  }

  /** A removal takes exactly the closed listeners of the endpoint away. */
  lemma OnlyClosedGo(table: Table, id: EndpointId, closed: set<Listener>, e: EndpointId, r: Route)
    ensures var table' := WithoutListeners(table, id, closed);
            e in table' && r in table'[e].routes <==>
              e in table && r in table[e].routes && !(e == id && r.via.ToListener? && r.via.listener in closed)
  {
  }

  /** One route of the sender costs the new amount, and nothing else has changed. */
  ghost predicate CostMoved(before: seq<Route>, after: seq<Route>, sender: Listener, cost: Cost, i: nat) {
    && i < |before| == |after|
    && before[i].via == ToListener(sender) && after[i] == before[i].(cost := cost)
    && forall j :: 0 <= j < |before| && j != i ==> after[j] == before[j]
  }

  /** A changed cost is the sender's, and leaves every other route as it was. */
  lemma CostIsSet(table: Table, id: EndpointId, sender: Listener, cost: Cost)
    requires CostChanges(table, id, sender, cost)
    ensures var table' := WithCost(table, id, sender, cost);
            && HasListenerAt(table', id, sender, cost) && table' == table[id := table'[id]]
            && id in table && table'[id].kind == table[id].kind
            && exists i :: CostMoved(table[id].routes, table'[id].routes, sender, cost, i)
  {
    var i := IndexOf(table[id].routes, ToListener(sender));
    var routes := WithCost(table, id, sender, cost)[id].routes;
    assert routes[i] in routes;
    assert CostMoved(table[id].routes, routes, sender, cost, i);
  }

  /** The routes of local listeners, in order. */
  function LocalRoutes(routes: seq<Route>): seq<Route> {
    if routes == [] then []
    else (if routes[0].via.ToListener? then [routes[0]] else []) + LocalRoutes(routes[1..])
  }

  function LocalRoutesAt(table: Table, e: EndpointId): seq<Route> {
    if e in table then LocalRoutes(table[e].routes) else []
  }

  lemma {:induction false} LocalsPlus(routes: seq<Route>, more: seq<Route>)
    ensures LocalRoutes(routes + more) == LocalRoutes(routes) + LocalRoutes(more)
  {
    if routes == [] {
      assert routes + more == more;
    } else {
      LocalsPlus(routes[1..], more);
      assert (routes + more)[1..] == routes[1..] + more;
    }
  }

  lemma {:induction false} LocalsWithout(routes: seq<Route>, origin: NodeId)
    ensures LocalRoutes(Without(routes, {ToNode(origin)})) == LocalRoutes(routes)
  {
    if routes != [] {
      LocalsWithout(routes[1..], origin);
      LocalsPlus([routes[0]], Without(routes[1..], {ToNode(origin)}));
      assert [routes[0]] + routes[1..] == routes;
    }
  }

  lemma LocalsUpdate(routes: seq<Route>, i: nat, r: Route)
    requires i < |routes| && routes[i].via.ToNode? && r.via.ToNode?
    ensures LocalRoutes(routes[i := r]) == LocalRoutes(routes)
  {
    var front, back := routes[..i], routes[i + 1..];
    assert routes == front + ([routes[i]] + back) && routes[i := r] == front + ([r] + back);
    LocalsPlus(front, [routes[i]] + back);
    LocalsPlus(front, [r] + back);
  }

  /** What an origin advertises displaces no local listener, */
  lemma RemoteSparesLocals(table: Table, id: EndpointId, origin: NodeId, info: EndpointInfo, e: EndpointId)
    ensures LocalRoutesAt(WithRemote(table, id, origin, info), e) == LocalRoutesAt(table, e)
  {
    var entry := EntryOr(table, id, info.kind);
    var i := IndexOf(entry.routes, ToNode(origin));
    if i < |entry.routes| {
      LocalsUpdate(entry.routes, i, entry.routes[i].(cost := info.cost, realm := info.realm));
    } else {
      LocalsPlus(entry.routes, [Route(ToNode(origin), info.cost, info.realm, info.kind)]);
    }
  }

  /** what it no longer advertises takes none along, be it one endpoint */
  lemma RemovalSparesLocals(table: Table, id: EndpointId, origin: NodeId, e: EndpointId)
    ensures LocalRoutesAt(WithoutRemote(table, id, origin), e) == LocalRoutesAt(table, e)
  {
    if e == id && e in table {
      LocalsWithout(table[e].routes, origin);
    }
  }

  /** or many. */
  lemma ForgettingSparesLocals(table: Table, origin: NodeId, ids: set<EndpointId>, e: EndpointId)
    ensures LocalRoutesAt(Forget(table, origin, ids), e) == LocalRoutesAt(table, e)
  {
    if e in ids && e in table {
      LocalsWithout(table[e].routes, origin);
    }
  }

  // ------------------------------------------------------------- invariants

  ghost predicate OnePerOrigin(routes: seq<Route>) {
    forall i, j :: 0 <= i < j < |routes| && routes[i].via.ToNode? ==> routes[i].via != routes[j].via
  }

  /** One kind per entry, one route per origin, one route for a unicast endpoint,
      no listener on a node route. */
  ghost predicate EntryOk(e: RouteEntry) {
    && (forall r :: r in e.routes ==> r.kind == e.kind)
    && OnePerOrigin(e.routes)
    && (e.kind == Unicast ==> |e.routes| <= 1)
    && (e.kind == Node ==> !HasLocal(e.routes))
  }

  ghost predicate TableOk(table: Table) {
    forall e {:trigger EntryOk(table[e])} :: e in table ==> EntryOk(table[e])
  }

  lemma {:induction false} WithoutKeepsOrigins(routes: seq<Route>, gone: set<ForwardTo>)
    requires OnePerOrigin(routes)
    ensures OnePerOrigin(Without(routes, gone))
  {
    if routes != [] {
      WithoutKeepsOrigins(routes[1..], gone);
      var tail := Without(routes[1..], gone);
      if routes[0].via.ToNode? {
        forall j | 0 <= j < |tail| ensures tail[j].via != routes[0].via {
          assert tail[j] in routes[1..];
        }
      }
    }
  }

  /** The minimum exists exactly when there is a listener, and no listener is cheaper. */
  lemma {:induction false} MinLocalIsLeast(routes: seq<Route>)
    ensures MinLocalCost(routes).Some? <==> HasLocal(routes)
    ensures MinLocalCost(routes).Some? ==>
              && (exists r :: r in routes && r.via.ToListener? && r.cost == MinLocalCost(routes).value)
              && (forall r :: r in routes && r.via.ToListener? ==> MinLocalCost(routes).value <= r.cost)
  {
    if routes != [] {
      MinLocalIsLeast(routes[1..]);
      assert routes == [routes[0]] + routes[1..];
      if MinLocalCost(routes) == MinLocalCost(routes[1..]) && HasLocal(routes[1..]) {
        var r :| r in routes[1..] && r.via.ToListener? && r.cost == MinLocalCost(routes[1..]).value;
        assert r in routes;
      } else if routes[0].via.ToListener? {
        assert routes[0] in routes;
      }
    }
  }

  lemma {:induction false} MinLocalAppend(routes: seq<Route>, r: Route)
    ensures MinLocalCost(routes + [r]) ==
            if r.via.ToNode? then MinLocalCost(routes)
            else match MinLocalCost(routes)
              case None => Some(r.cost)
              case Some(m) => Some(if r.cost < m then r.cost else m)
  {
    if routes == [] {
      assert routes + [r] == [r];
    } else {
      MinLocalAppend(routes[1..], r);
      assert (routes + [r])[1..] == routes[1..] + [r];
    }
  }

  /** Remote routes do not touch the local minimum. */
  lemma {:induction false} MinLocalIgnoresUpdate(routes: seq<Route>, i: nat, r: Route)
    requires i < |routes| && routes[i].via.ToNode? && r.via.ToNode?
    ensures MinLocalCost(routes[i := r]) == MinLocalCost(routes)
  {
    if i > 0 {
      MinLocalIgnoresUpdate(routes[1..], i - 1, r);
      assert routes[i := r][1..] == routes[1..][i - 1 := r];
    } else {
      assert routes[i := r][1..] == routes[1..];
    }
  }

  lemma {:induction false} MinLocalIgnoresRemoval(routes: seq<Route>, origin: NodeId)
    ensures MinLocalCost(Without(routes, {ToNode(origin)})) == MinLocalCost(routes)
  {
    if routes != [] {
      MinLocalIgnoresRemoval(routes[1..], origin);
      var tail := Without(routes[1..], {ToNode(origin)});
      assert ([routes[0]] + tail)[1..] == tail;
    }
  }

  // ------------------------------------------------------------------ class

  class RouteTable {
    var table: Table

    constructor ()
      ensures table == map[]
    {
      table := map[];
    }

    /** Tells every registered listener, route by route; nothing stays registered. */
    method Shutdown() returns (told: seq<Listener>)
      modifies this
      ensures table == map[]
      ensures forall l :: l in told <==> IsListener(old(table), l)
    {
      told := [];
      var todo := table.Keys;
      while todo != {}
        invariant todo <= table.Keys && table == old(table)
        invariant forall l :: l in told <==> exists e :: e in table && e !in todo && Listens(table[e].routes, l)
      {
        var e :| e in todo;
        todo := todo - {e};
        var some := Listeners(table[e].routes);
        ListenersAre(table[e].routes);
        told := told + some;
      }
      table := map[];
    }

    /** Registers a local listener. The effect asks for a new advertisement
        exactly when the endpoint gets its first listener, and for a new cost
        exactly when an anycast minimum drops. */
    method AddEndpoint(id: EndpointId, info: EndpointInfo, sender: Listener) returns (res: Result)
      requires TableOk(table)
      modifies this
      ensures TableOk(table)
      ensures res.Err? <==>
                (id in old(table) &&
                 (old(table)[id].kind != info.kind || (info.kind == Unicast && old(table)[id].routes != [])))
      ensures res.Err? ==> table == old(table)
      ensures res.Ok? ==> id in table && table == old(table)[id := table[id]] && table[id].kind == info.kind
      ensures res.Ok? ==>
                table[id].routes ==
                EntryOr(old(table), id, info.kind).routes +
                if info.kind == Node then [] else [Route(ToListener(sender), info.cost, info.realm, info.kind)]
      ensures res.Ok? ==>
                var before := EntryOr(old(table), id, info.kind).routes;
                if info.kind == Node then res.effect == Noop
                else if !HasLocal(before) then res.effect == AddLsa(id, info)
                else if info.kind == Anycast && MinLocalCost(table[id].routes).Some? &&
                        MinLocalCost(table[id].routes) != MinLocalCost(before)
                  then res.effect == UpdateLsa(id, MinLocalCost(table[id].routes).value)
                else res.effect == Noop
    {
      var entry := EntryOr(table, id, info.kind);
      assert EntryOk(entry) by {
        assert id in table ==> EntryOk(table[id]);
      }
      if entry.kind != info.kind {
        return Err(MismatchedRouteKind);
      }
      var route := Route(ToListener(sender), info.cost, info.realm, info.kind);
      var effect := Noop;
      var routes := entry.routes;
      MinLocalIsLeast(routes);
      MinLocalAppend(routes, route);
      match info.kind {
        case Unicast =>
          if routes != [] {
            return Err(DuplicateUnicast);
          }
          effect := AddLsa(id, info);
          routes := routes + [route];
        case Anycast =>
          var previous := MinLocalCost(routes);
          routes := routes + [route];
          effect := match previous
            case None => AddLsa(id, info)
            case Some(p) => if info.cost < p then UpdateLsa(id, info.cost) else Noop;
        case Broadcast =>
          effect := if HasLocal(routes) then Noop else AddLsa(id, info);
          routes := routes + [route];
        case Multicast =>
          effect := if HasLocal(routes) then Noop else AddLsa(id, info);
          routes := routes + [route];
        case Node =>
      }
      table := table[id := RouteEntry(routes, info.kind)];
      return Ok(effect);
    }

    /** Changes the cost of one anycast listener; `advertise` carries the new
        minimum exactly when the minimum moved. */
    method SetAnycastCost(id: EndpointId, sender: Listener, cost: Cost) returns (res: CostOutcome)
      requires TableOk(table)
      modifies this
      ensures TableOk(table)
      ensures res.NotAnycast? <==> id in old(table) && old(table)[id].kind != Anycast
      ensures res.Changed? <==> CostChanges(old(table), id, sender, cost)
      ensures res.Unchanged? ==> HasListenerAt(old(table), id, sender, cost)
      ensures res.NotRegistered? <==>
                (id !in old(table) ||
                 (old(table)[id].kind == Anycast && forall r :: r in old(table)[id].routes ==>
                   r.via != ToListener(sender)))
      ensures table == WithCost(old(table), id, sender, cost)
      ensures res.Changed? ==>
                && res.previous != cost == res.current && HasListenerAt(old(table), id, sender, res.previous)
                && HasListenerAt(table, id, sender, cost)
                && res.advertise == if MinLocalCost(table[id].routes) == MinLocalCost(old(table)[id].routes) then None
                                    else MinLocalCost(table[id].routes)
    {
      if id !in table {
        return NotRegistered;
      }
      var entry := table[id];
      assert EntryOk(table[id]);
      if entry.kind != Anycast {
        return NotAnycast;
      }
      var previousMin := MinLocalCost(entry.routes);
      MinLocalIsLeast(entry.routes);
      var i := IndexOf(entry.routes, ToListener(sender));
      if i == |entry.routes| {
        return NotRegistered;
      }
      var route := entry.routes[i];
      assert route in entry.routes;
      if route.cost == cost {
        return Unchanged;
      }
      var routes := entry.routes[i := route.(cost := cost)];
      assert routes[i] in routes;
      table := table[id := entry.(routes := routes)];
      var newMin := MinLocalCost(routes);
      MinLocalIsLeast(routes);
      return Changed(route.cost, cost, if previousMin != newMin then newMin else None);
    }

    /** Drops the listeners whose channel has closed. */
    method RemoveEndpoint(id: EndpointId, closed: set<Listener>) returns (effect: Effects)
      requires TableOk(table)
      modifies this
      ensures TableOk(table)
      ensures table == WithoutListeners(old(table), id, closed)
      ensures effect ==
              if id !in old(table) then Noop else RemovalEffect(old(table)[id], id, OpenRoutes(old(table), id, closed))
    {
      if id !in table {
        return Noop;
      }
      var entry := table[id];
      assert EntryOk(table[id]);
      WithoutKeepsOrigins(entry.routes, set s | s in closed :: ToListener(s));
      var kept := Without(entry.routes, set s | s in closed :: ToListener(s));
      if kept == [] {
        table := table - {id};
        return RemoveLsa(id);
      }
      table := table[id := entry.(routes := kept)];
      effect := EffectOfRemoval(id, entry, kept);
    }

    /** A moved minimum is advertised, any other change asks for a new table. */
    static method EffectOfRemoval(id: EndpointId, entry: RouteEntry, kept: seq<Route>) returns (effect: Effects)
      requires kept != [] && |kept| <= |entry.routes| && (|kept| == |entry.routes| ==> kept == entry.routes)
      ensures effect == RemovalEffect(entry, id, kept)
    {
      if entry.kind == Anycast {
        match MinLocalCost(kept)
        case Some(cost) =>
          if MinLocalCost(entry.routes) != Some(cost) {
            return UpdateLsa(id, cost);
          }
        case None =>
      }
      return if |kept| != |entry.routes| then RebuildFib else Noop;
    }

    /** Records what an origin advertises for an endpoint. */
    method AddRemoteEndpoint(id: EndpointId, origin: NodeId, info: EndpointInfo) returns (res: Result)
      requires TableOk(table)
      modifies this
      ensures TableOk(table)
      ensures table == WithRemote(old(table), id, origin, info)
      ensures res == Err(MismatchedRouteKind) <==> EntryOr(old(table), id, info.kind).kind != info.kind
      ensures res == Err(DuplicateUnicast) <==>
                (&& EntryOr(old(table), id, info.kind).kind == info.kind == Unicast
                 && EntryOr(old(table), id, info.kind).routes != []
                 && IndexOf(EntryOr(old(table), id, info.kind).routes, ToNode(origin)) ==
                    |EntryOr(old(table), id, info.kind).routes|)
      ensures res.Ok? ==>
                var before := EntryOr(old(table), id, info.kind).routes;
                res.effect == if table == old(table) || (IndexOf(before, ToNode(origin)) == |before| && exists r ::
                  r in before && r.via.ToNode?)
                              then Noop else RebuildFib
    {
      var entry := EntryOr(table, id, info.kind);
      assert EntryOk(entry) by {
        assert id in table ==> EntryOk(table[id]);
      }
      if entry.kind != info.kind {
        return Err(MismatchedRouteKind);
      }
      var i := IndexOf(entry.routes, ToNode(origin));
      if i < |entry.routes| {
        var existing := entry.routes[i];
        assert existing in entry.routes;
        if existing.cost != info.cost || existing.realm != info.realm {
          table := table[id := entry.(routes := entry.routes[i := existing.(cost := info.cost, realm := info.realm)])];
          return Ok(RebuildFib);
        }
        assert entry.routes[i := existing.(cost := info.cost, realm := info.realm)] == entry.routes;
        assert table == table[id := entry];
        return Ok(Noop);
      }
      if entry.kind == Unicast && entry.routes != [] {
        return Err(DuplicateUnicast);
      }
      var effect := if forall r :: r in entry.routes ==> r.via.ToListener? then RebuildFib else Noop;
      table := table[id := entry.(routes := entry.routes + [Route(ToNode(origin), info.cost, info.realm, info.kind)])];
      return Ok(effect);
    }

    /** Forgets an origin's route to an endpoint. */
    method RemoveRemoteEndpoint(id: EndpointId, origin: NodeId) returns (effect: Effects)
      requires TableOk(table)
      modifies this
      ensures TableOk(table)
      ensures table == WithoutRemote(old(table), id, origin)
      ensures effect == if table == old(table) then Noop else RebuildFib
    {
      if id !in table {
        return Noop;
      }
      var entry := table[id];
      assert EntryOk(table[id]);
      var kept := Without(entry.routes, {ToNode(origin)});
      WithoutKeepsOrigins(entry.routes, {ToNode(origin)});
      if kept == [] {
        table := table - {id};
        return RebuildFib;
      }
      table := table[id := entry.(routes := kept)];
      return if |kept| != |entry.routes| then RebuildFib else Noop;
    }
  }
}
