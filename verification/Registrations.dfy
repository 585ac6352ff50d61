/** From registration to containment: an endpoint is advertised as its first listener
    registered it, and gets only over links that carry the realm of that registration. */
module Registrations {
  import opened Routing
  import opened Routes
  import opened LinkState
  import opened Operations
  import opened Realms

  /** The operation registers the first listener of an endpoint, and is not refused. */
  predicate Introduces(op: Operation, table: Table, id: EndpointId) {
    && op.AddEndpoint? && op.id == id && op.info.kind != Node
    && !HasLocal(EntryOr(table, id, op.info.kind).routes)
    && !(id in table && (table[id].kind != op.info.kind || (op.info.kind == Unicast && table[id].routes != [])))
  }

  /** A first announcement says exactly what was registered: kind, realm and cost. */
  lemma AnnouncedAsRegistered(op: Operation, self: NodeId, lifetime: nat, cost: map<NodeId, Cost>, db: Db, links: Links,
                              table: Table, now: nat, db': Db, table': Table, id: EndpointId)
    requires Results(op, self, lifetime, cost, db, links, table, now, db', table') && Introduces(op, table, id)
    ensures LsaKey(self, id) in db'
    ensures db'[LsaKey(self, id)] ==
            LsaRecord(Lsa(LsaKey(self, id), 0, false,
                          EndpointBody(EndpointInfo(op.info.kind, op.info.realm, op.info.cost))), now)
  {
  }

  /** No other operation advertises an own endpoint anew, or as another kind or in
      another realm. */
  lemma RealmStays(op: Operation, self: NodeId, lifetime: nat, cost: map<NodeId, Cost>, db: Db, links: Links,
                   table: Table, now: nat, db': Db, table': Table, id: EndpointId)
    requires Results(op, self, lifetime, cost, db, links, table, now, db', table') && !Introduces(op, table, id)
    requires LsaKey(self, id) in db' && db'[LsaKey(self, id)].lsa.body.EndpointBody?
    ensures LsaKey(self, id) in db && db[LsaKey(self, id)].lsa.body.EndpointBody?
    ensures var before, after := db[LsaKey(self, id)].lsa.body.info, db'[LsaKey(self, id)].lsa.body.info;
            before.kind == after.kind && before.realm == after.realm
  {
  }

  // ------------------------------------------------------------------ all histories

  // What happens next: a node performs an operation, or a message arrives or is lost.
  datatype Deed =
    | Performs(node: NodeId, op: Operation, lifetime: nat, cost: map<NodeId, Cost>, links: Links, now: nat)
    | Travels

  // The world and the route tables of its nodes.
  datatype Scene = Scene(world: World, tables: map<NodeId, Table>)

  ghost predicate Enacts(s: Scene, d: Deed, s': Scene) {
    match d
    case Performs(x, op, lifetime, cost, links, now) =>
      && x in s.tables && x in s'.tables && s'.tables == s.tables[x := s'.tables[x]]
      && (exists step :: Operates(s.world, s'.world, x, step))
      && Results(op, x, lifetime, cost, s.world.dbs[x], links, s.tables[x], now, s'.world.dbs[x], s'.tables[x])
    case Travels => Moves(s.world, s'.world) && s'.world.dbs == s.world.dbs && s'.tables == s.tables
  }

  /** Nodes start with nothing but their own router advertisements. */
  ghost predicate Chronicle(run: seq<Scene>, deeds: seq<Deed>) {
    && |run| == |deeds| + 1 && Begins(run[0].world)
    && (forall x, k :: x in run[0].world.dbs && k in run[0].world.dbs[x] ==> run[0].world.dbs[x][k].lsa.body.Router?)
    && forall i: nat {:trigger EnactsAt(run, deeds, i)} :: EnactsAt(run, deeds, i)
  }

  ghost predicate EnactsAt(run: seq<Scene>, deeds: seq<Deed>, i: nat) {
    i < |deeds| && i + 1 < |run| ==> Enacts(run[i], deeds[i], run[i + 1])
  }

  /** What a database object performs on what it has received is such a deed. */
  lemma PerformedIsDeed(s: Scene, x: NodeId, op: Operation, lifetime: nat, cost: map<NodeId, Cost>, links: Links,
                        now: nat, step: Step, table': Table)
    requires x in s.world.dbs && x in s.tables && step.was == s.world.dbs[x]
    requires Lawful(x, Heard(op), step) && Heard(op) <= HeardBy(s.world, x)
    requires Results(op, x, lifetime, cost, step.was, links, s.tables[x], now, step.db, table')
    ensures var w := s.world;
            var w' := World(w.dbs[x := step.db], w.inflight + Posted(step), w.received, w.used + CrossedBy(x, step));
            Enacts(s, Performs(x, op, lifetime, cost, links, now), Scene(w', s.tables[x := table']))
  {
    var w := s.world;
    var w' := World(w.dbs[x := step.db], w.inflight + Posted(step), w.received, w.used + CrossedBy(x, step));
    HeardMore(x, Heard(op), HeardBy(w, x), step);
    assert Operates(w, w', x, step);
  }

  /** The i-th deed registers the first listener of an endpoint at a node. */
  ghost predicate IntroducedBy(run: seq<Scene>, deeds: seq<Deed>, i: nat, x: NodeId, id: EndpointId) {
    && i < |deeds| && i < |run| && deeds[i].Performs? && deeds[i].node == x
    && x in run[i].tables && Introduces(deeds[i].op, run[i].tables[x], id)
  }

  /** A node's advertisement of an endpoint has the kind and the realm of the last
      registration of a first listener there. */
  lemma {:induction false} OwnIsAsRegistered(run: seq<Scene>, deeds: seq<Deed>, k: nat, x: NodeId, id: EndpointId)
      returns (i: nat)
    requires Chronicle(run, deeds) && k < |run| && x in run[k].world.dbs
    requires var db := run[k].world.dbs[x]; LsaKey(x, id) in db && db[LsaKey(x, id)].lsa.body.EndpointBody?
    ensures i < k && IntroducedBy(run, deeds, i, x, id)
    ensures forall m :: i < m < k ==> !IntroducedBy(run, deeds, m, x, id)
    ensures var info := run[k].world.dbs[x][LsaKey(x, id)].lsa.body.info;
            info.kind == deeds[i].op.info.kind && info.realm == deeds[i].op.info.realm
  {
    var s, d, s' := run[k - 1], deeds[k - 1], run[k];
    assert EnactsAt(run, deeds, k - 1);
    if IntroducedBy(run, deeds, k - 1, x, id) {
      AnnouncedAsRegistered(d.op, x, d.lifetime, d.cost, s.world.dbs[x], d.links, s.tables[x], d.now,
                            s'.world.dbs[x], s'.tables[x], id);
      return k - 1;
    }
    if d.Performs? && d.node == x {
      RealmStays(d.op, x, d.lifetime, d.cost, s.world.dbs[x], d.links, s.tables[x], d.now, s'.world.dbs[x],
                 s'.tables[x], id);
    }
    i := OwnIsAsRegistered(run, deeds, k - 1, x, id);
  }

  function Worlds(run: seq<Scene>): seq<World> {
    seq(|run|, i requires 0 <= i < |run| => run[i].world)
  }

  lemma WorldsMove(run: seq<Scene>, deeds: seq<Deed>)
    requires Chronicle(run, deeds)
    ensures History(Worlds(run))
  {
    forall i: nat ensures MovesAt(Worlds(run), i) {
      assert EnactsAt(run, deeds, i);
    }
  }

  /** In every history, an endpoint advertisement held away from its origin came over
      links that all carry the realm in which a first listener registered it there. */
  lemma RegisteredRealmContains(run: seq<Scene>, deeds: seq<Deed>, k: nat, x: NodeId, key: LsaKey)
      returns (j: Journey, i: nat)
    requires Chronicle(run, deeds) && k < |run| && x in run[k].world.dbs && key.origin != x
    requires var db := run[k].world.dbs[x]; key in db && db[key].lsa.body.EndpointBody?
    ensures i < k && IntroducedBy(run, deeds, i, key.origin, key.endpointId)
    ensures run[k].world.dbs[x][key].lsa.body.info.kind == deeds[i].op.info.kind
    ensures Travelled(run[k].world.used, j) && j.Crossed? && At(j) == x && Start(j).key == key
    ensures forall c :: c in Crossings(j) ==> deeds[i].op.info.realm in c.link.realms
  {
    WorldsMove(run, deeds);
    var issued: nat;
    j, issued := EndpointContained(Worlds(run), k, x, key);
    i := OwnIsAsRegistered(run, deeds, issued, key.origin, key.endpointId);
  }
}
