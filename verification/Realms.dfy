/** Realm containment: how an advertisement may travel, whatever mix of floods,
    synchronisations, withdrawals, refreshes, expiries and link changes moves it. */
module Realms {
  import opened Routing
  import opened LinkState

  // A link in use: who sends, who receives, and with which realms at that moment.
  datatype Crossing = Crossing(from: NodeId, to: NodeId, link: Link)

  // How an instance of an advertisement got where it is.
  datatype Journey = Issued(lsa: Lsa) | Crossed(prev: Journey, via: Crossing)

  function Start(j: Journey): Lsa {
    match j
    case Issued(lsa) => lsa
    case Crossed(prev, _) => Start(prev)
  }

  function At(j: Journey): NodeId {
    match j
    case Issued(lsa) => lsa.key.origin
    case Crossed(_, via) => via.to
  }

  function Crossings(j: Journey): seq<Crossing> {
    match j
    case Issued(_) => []
    case Crossed(prev, via) => Crossings(prev) + [via]
  }

  /** A journey over links that have been used, each leaving from where the last one led. */
  ghost predicate Travelled(used: set<Crossing>, j: Journey) {
    match j
    case Issued(_) => true
    case Crossed(prev, via) => via in used && via.from == At(prev) && Travelled(used, prev)
  }

  /** What is left of the advertisement after the journey: every link filters it. */
  function Carried(j: Journey): Option<Lsa> {
    match j
    case Issued(lsa) => Some(lsa)
    case Crossed(prev, via) =>
      match Carried(prev)
      case None => None
      case Some(lsa) => SendLsa(via.link, lsa)
  }

  // ------------------------------------------------------------ closed forms

  /** Filtering twice is filtering by both realm lists at once. */
  lemma {:induction false} RestrictTwice(adjacencies: seq<Adjacency>, r1: RealmList, r2: RealmList)
    ensures Restrict(Restrict(adjacencies, r1), r2) == Restrict(adjacencies, r1 * r2)
  {
    if adjacencies != [] {
      var a := adjacencies[0];
      var rest := Restrict(adjacencies[1..], r1);
      RestrictTwice(adjacencies[1..], r1, r2);
      assert a.realms * r1 * r2 == a.realms * (r1 * r2);
      if a.realms * r1 != {} {
        var head := a.(realms := a.realms * r1);
        assert ([head] + rest)[1..] == rest;
      }
    }
  }

  const AllRealms: RealmList := {Process, Userspace, LocalNet, Global}

  /** The realms that every link of a journey carries. */
  function Meet(crossings: seq<Crossing>): RealmList {
    if crossings == [] then AllRealms else Meet(crossings[..|crossings| - 1]) * crossings[|crossings| - 1].link.realms
  }

  lemma {:induction false} MeetIs(crossings: seq<Crossing>)
    ensures forall r: Realm :: r in Meet(crossings) <==> forall c :: c in crossings ==> r in c.link.realms
  {
    if crossings != [] {
      var front, last := crossings[..|crossings| - 1], crossings[|crossings| - 1];
      MeetIs(front);
      assert crossings == front + [last];
      assert forall c :: c in crossings <==> c in front || c == last;
    }
    forall r: Realm ensures r in AllRealms {
      EveryRealm(r);
    }
  }

  lemma EveryRealm(r: Realm)
    ensures r in AllRealms
  {
  }

  /** An endpoint advertisement survives a journey exactly when every link carries
      its realm, and then arrives unchanged. */
  lemma {:induction false} EndpointJourney(j: Journey)
    requires Start(j).body.EndpointBody?
    ensures Carried(j) == if Start(j).body.info.realm in Meet(Crossings(j)) then Some(Start(j)) else None
  {
    if j.Crossed? {
      EndpointJourney(j.prev);
      assert Crossings(j)[..|Crossings(j)| - 1] == Crossings(j.prev);
    } else {
      MeetIs([]);
    }
  }

  /** A router advertisement arrives with exactly the adjacencies that share a
      realm with every link, cut down to the shared realms, and is lost exactly
      when none does. */
  lemma {:induction false} RouterJourney(j: Journey)
    requires Start(j).body.Router? && j.Crossed?
    ensures var kept := Restrict(Start(j).body.adjacencies, Meet(Crossings(j)));
            Carried(j) == if kept == [] then None else Some(Start(j).(body := Router(kept)))
  {
    if j.prev.Crossed? {
      RouterJourney(j.prev);
      LaterLink(j);
    } else {
      assert Crossings(j) == [j.via];
      OneLinkMeet(j.via);
    }
  }

  /** One link after others cuts what these have left. */
  lemma LaterLink(j: Journey)
    requires Start(j).body.Router? && j.Crossed?
    requires var before := Restrict(Start(j).body.adjacencies, Meet(Crossings(j.prev)));
             Carried(j.prev) == if before == [] then None else Some(Start(j).(body := Router(before)))
    ensures var kept := Restrict(Start(j).body.adjacencies, Meet(Crossings(j)));
            Carried(j) == if kept == [] then None else Some(Start(j).(body := Router(kept)))
  {
    var realms := j.via.link.realms;
    assert Crossings(j)[..|Crossings(j)| - 1] == Crossings(j.prev);
    assert Meet(Crossings(j)) == Meet(Crossings(j.prev)) * realms;
    RestrictTwice(Start(j).body.adjacencies, Meet(Crossings(j.prev)), realms);
  }

  lemma OneLinkMeet(via: Crossing)
    ensures Meet([via]) == via.link.realms
  {
    assert [via][..0] == [];
    forall r: Realm ensures r in AllRealms {
      EveryRealm(r);
    }
  }

  // -------------------------------------------------------- what a node may do

  // What one operation makes of a node's records, the links in use while it sent, and
  // the messages it put on them.
  datatype Step = Step(was: Db, db: Db, links: Links, out: seq<Outgoing>)

  /** A record of these says the same, be it under another number or alive. */
  predicate Says(db: Db, lsa: Lsa) {
    lsa.key in db && db[lsa.key].lsa.body == lsa.body
  }

  /** What a node may pass on: of its own only what its records say, before or after; of
      others what it has stored and what it has heard. */
  ghost predicate MayTell(self: NodeId, was: Db, db: Db, heard: set<Lsa>, lsa: Lsa) {
    if lsa.key.origin == self then Says(was, lsa) || Says(db, lsa)
    else (lsa.key in db && db[lsa.key].lsa == lsa) || lsa in heard
  }

  /** A message is what its link makes of something the node may pass on. */
  ghost predicate Tells(self: NodeId, step: Step, heard: set<Lsa>, m: Outgoing) {
    m.message.LsaMessage? ==>
      && m.conn in step.links
      && exists lsa ::
           MayTell(self, step.was, step.db, heard, lsa) && SendLsa(step.links[m.conn], lsa) == Some(m.message.lsa)
  }

  /** Foreign records are kept, replaced by something heard, or dropped. */
  ghost predicate Keeps(self: NodeId, db: Db, heard: set<Lsa>, db': Db) {
    forall k :: k in db' && k.origin != self ==>
      && db'[k].lsa.key == k
      && ((k in db && db'[k].lsa == db[k].lsa) || db'[k].lsa in heard)
  }

  ghost predicate Lawful(self: NodeId, heard: set<Lsa>, step: Step) {
    && Keeps(self, step.was, heard, step.db)
    && forall m {:trigger Tells(self, step, heard, m)} :: m in step.out ==> Tells(self, step, heard, m)
  }

  // ------------------------------------------------------------------ all runs

  datatype Delivery = Delivery(to: NodeId, lsa: Lsa)

  datatype World = World(dbs: map<NodeId, Db>, inflight: set<Delivery>, received: set<Delivery>, used: set<Crossing>)

  function HeardBy(w: World, x: NodeId): set<Lsa> {
    set d | d in w.received && d.to == x :: d.lsa
  }

  /** The far nodes' copies of what a step sends, and the links it sends over. */
  function Posted(step: Step): set<Delivery> {
    set m | m in step.out && m.message.LsaMessage? && m.conn in step.links ::
      Delivery(step.links[m.conn].peerId, m.message.lsa)
  }

  function CrossedBy(x: NodeId, step: Step): set<Crossing> {
    set m | m in step.out && m.message.LsaMessage? && m.conn in step.links ::
      Crossing(x, step.links[m.conn].peerId, step.links[m.conn])
  }

  /** A node performs a lawful operation. */
  ghost predicate Operates(w: World, w': World, x: NodeId, step: Step) {
    && x in w.dbs && step.was == w.dbs[x] && Lawful(x, HeardBy(w, x), step)
    && w' == World(w.dbs[x := step.db], w.inflight + Posted(step), w.received, w.used + CrossedBy(x, step))
  }

  /** An operation of some node, or the arrival or loss of a message. */
  ghost predicate Moves(w: World, w': World) {
    || (exists x, step :: Operates(w, w', x, step))
    || (exists d :: d in w.inflight && w' == w.(inflight := w.inflight - {d}, received := w.received + {d}))
    || (exists d :: d in w.inflight && w' == w.(inflight := w.inflight - {d}))
  }

  /** Databases start with own records only. */
  ghost predicate Begins(w: World) {
    && w.inflight == {} && w.received == {}
    && forall x, k :: x in w.dbs && k in w.dbs[x] ==> k.origin == x
  }

  /** What the nodes' own records say at some moment. */
  function OwnWords(w: World): set<(LsaKey, LsaBody)> {
    set x, k | x in w.dbs && k in w.dbs[x] && k.origin == x :: (k, w.dbs[x][k].lsa.body)
  }

  /** A journey of something its origin has had in its records leads to `lsa` at `x`. */
  ghost predicate Explained(said: set<(LsaKey, LsaBody)>, used: set<Crossing>, x: NodeId, lsa: Lsa) {
    exists j :: Leads(said, used, j, x, lsa)
  }

  ghost predicate Leads(said: set<(LsaKey, LsaBody)>, used: set<Crossing>, j: Journey, x: NodeId, lsa: Lsa) {
    && Travelled(used, j) && At(j) == x && Carried(j) == Some(lsa)
    && (Start(j).key, Start(j).body) in said
  }

  ghost predicate RecordExplained(said: set<(LsaKey, LsaBody)>, w: World, x: NodeId, k: LsaKey)
    requires x in w.dbs && k in w.dbs[x]
  {
    w.dbs[x][k].lsa.key == k && Explained(said, w.used, x, w.dbs[x][k].lsa)
  }

  ghost predicate MessageExplained(said: set<(LsaKey, LsaBody)>, w: World, d: Delivery) {
    Explained(said, w.used, d.to, d.lsa)
  }

  ghost predicate AllExplained(said: set<(LsaKey, LsaBody)>, w: World) {
    && (forall x, k {:trigger RecordExplained(said, w, x, k)} :: x in w.dbs && k in w.dbs[x] && k.origin != x ==>
      RecordExplained(said, w, x, k))
    && (forall d {:trigger MessageExplained(said, w, d)} :: d in w.inflight || d in w.received ==>
      MessageExplained(said, w, d))
  }

  lemma {:induction false} TravelledMore(used: set<Crossing>, more: set<Crossing>, j: Journey)
    requires Travelled(used, j) && used <= more
    ensures Travelled(more, j)
  {
    if j.Crossed? {
      TravelledMore(used, more, j.prev);
    }
  }

  lemma ExplainedMore(said: set<(LsaKey, LsaBody)>, said': set<(LsaKey, LsaBody)>, used: set<Crossing>,
                      more: set<Crossing>, x: NodeId, lsa: Lsa)
    requires Explained(said, used, x, lsa) && said <= said' && used <= more
    ensures Explained(said', more, x, lsa)
  {
    var j :| Leads(said, used, j, x, lsa);
    TravelledMore(used, more, j);
    assert Leads(said', more, j, x, lsa);
  }

  lemma OperationExplained(said: set<(LsaKey, LsaBody)>, w: World, w': World, x: NodeId, step: Step)
    requires AllExplained(said, w) && Operates(w, w', x, step)
    ensures AllExplained(said + OwnWords(w) + OwnWords(w'), w')
  {
    var said' := said + OwnWords(w) + OwnWords(w');
    forall k | k in step.db && k.origin != x ensures Explained(said, w.used, x, step.db[k].lsa) {
      RecordStaysExplained(said, w, x, step, k);
    }
    forall y, l | Explained(said, w.used, y, l) ensures Explained(said', w'.used, y, l) {
      ExplainedMore(said, said', w.used, w'.used, y, l);
    }
    forall y, k | y in w'.dbs && k in w'.dbs[y] && k.origin != y ensures RecordExplained(said', w', y, k) {
      assert y != x ==> RecordExplained(said, w, y, k);
    }
    forall d | d in w'.inflight || d in w'.received ensures MessageExplained(said', w', d) {
      if d in w.inflight || d in w.received {
        assert MessageExplained(said, w, d);
      } else {
        PostExplained(said, w, w', x, step, d);
      }
    }
  }

  lemma RecordStaysExplained(said: set<(LsaKey, LsaBody)>, w: World, x: NodeId, step: Step, k: LsaKey)
    requires AllExplained(said, w) && x in w.dbs && step.was == w.dbs[x] && Lawful(x, HeardBy(w, x), step)
    requires k in step.db && k.origin != x
    ensures Explained(said, w.used, x, step.db[k].lsa)
  {
    if step.db[k].lsa in HeardBy(w, x) {
      assert MessageExplained(said, w, Delivery(x, step.db[k].lsa));
    } else {
      assert RecordExplained(said, w, x, k);
    }
  }

  /** What a node tells is explained where it is told: by its own records, by what it
      stores or by what it has heard. */
  lemma ToldIsExplained(said: set<(LsaKey, LsaBody)>, w: World, w': World, x: NodeId, step: Step, lsa: Lsa)
    requires AllExplained(said, w) && Operates(w, w', x, step)
    requires MayTell(x, step.was, step.db, HeardBy(w, x), lsa)
    ensures Explained(said + OwnWords(w) + OwnWords(w'), w.used, x, lsa)
  {
    var said' := said + OwnWords(w) + OwnWords(w');
    if lsa.key.origin == x {
      assert w'.dbs[x] == step.db;
      assert Says(step.was, lsa) ==> (lsa.key, lsa.body) in OwnWords(w);
      assert Says(step.db, lsa) ==> (lsa.key, lsa.body) in OwnWords(w');
      assert Leads(said', w.used, Issued(lsa), x, lsa);
    } else {
      if lsa in HeardBy(w, x) {
        assert MessageExplained(said, w, Delivery(x, lsa));
      } else {
        RecordStaysExplained(said, w, x, step, lsa.key);
      }
      ExplainedMore(said, said', w.used, w.used, x, lsa);
    }
  }

  lemma PostExplained(said: set<(LsaKey, LsaBody)>, w: World, w': World, x: NodeId, step: Step, d: Delivery)
    requires AllExplained(said, w) && Operates(w, w', x, step) && d in Posted(step)
    ensures Explained(said + OwnWords(w) + OwnWords(w'), w'.used, d.to, d.lsa)
  {
    var said' := said + OwnWords(w) + OwnWords(w');
    var m :| m in step.out && m.message.LsaMessage? && m.conn in step.links &&
             d == Delivery(step.links[m.conn].peerId, m.message.lsa);
    assert Tells(x, step, HeardBy(w, x), m);
    var lsa :| MayTell(x, step.was, step.db, HeardBy(w, x), lsa) &&
               SendLsa(step.links[m.conn], lsa) == Some(m.message.lsa);
    ToldIsExplained(said, w, w', x, step, lsa);
    var j :| Leads(said', w.used, j, x, lsa);
    var via := Crossing(x, step.links[m.conn].peerId, step.links[m.conn]);
    assert via in w'.used;
    TravelledMore(w.used, w'.used, j);
    assert Leads(said', w'.used, Crossed(j, via), d.to, d.lsa);
  }

  lemma MoveKeeps(said: set<(LsaKey, LsaBody)>, w: World, w': World)
    requires AllExplained(said, w) && Moves(w, w')
    ensures AllExplained(said + OwnWords(w) + OwnWords(w'), w')
  {
    if x, step :| Operates(w, w', x, step) {
      OperationExplained(said, w, w', x, step);
    } else {
      var said' := said + OwnWords(w) + OwnWords(w');
      forall x, k | x in w'.dbs && k in w'.dbs[x] && k.origin != x ensures RecordExplained(said', w', x, k) {
        assert RecordExplained(said, w, x, k);
        ExplainedMore(said, said', w.used, w'.used, x, w.dbs[x][k].lsa);
      }
      forall d | d in w'.inflight || d in w'.received ensures MessageExplained(said', w', d) {
        assert MessageExplained(said, w, d);
        ExplainedMore(said, said', w.used, w'.used, d.to, d.lsa);
      }
    }
  }

  ghost predicate History(run: seq<World>) {
    run != [] && Begins(run[0]) && forall i: nat {:trigger MovesAt(run, i)} :: MovesAt(run, i)
  }

  ghost predicate MovesAt(run: seq<World>, i: nat) {
    i + 1 < |run| ==> Moves(run[i], run[i + 1])
  }

  /** What the nodes' own records have said up to a moment. */
  function SaidBy(run: seq<World>, k: nat): set<(LsaKey, LsaBody)>
    requires k < |run|
  {
    if k == 0 then OwnWords(run[0]) else SaidBy(run, k - 1) + OwnWords(run[k])
  }

  /** At some moment up to k the origin had a record of the key with this body. */
  ghost predicate SaidAt(run: seq<World>, i: nat, key: LsaKey, body: LsaBody) {
    i < |run| && key.origin in run[i].dbs && key in run[i].dbs[key.origin] &&
    run[i].dbs[key.origin][key].lsa.body == body
  }

  lemma {:induction false} SaidWhen(run: seq<World>, k: nat, key: LsaKey, body: LsaBody) returns (i: nat)
    requires k < |run| && (key, body) in SaidBy(run, k)
    ensures i <= k && SaidAt(run, i, key, body)
  {
    if (key, body) in OwnWords(run[k]) {
      return k;
    }
    i := SaidWhen(run, k - 1, key, body);
  }

  lemma {:induction false} SaidNow(run: seq<World>, k: nat)
    requires k < |run|
    ensures OwnWords(run[k]) <= SaidBy(run, k)
  {
  }

  lemma {:induction false} ExplainedAlong(run: seq<World>, k: nat)
    requires History(run) && k < |run|
    ensures AllExplained(SaidBy(run, k), run[k])
  {
    if k > 0 {
      ExplainedAlong(run, k - 1);
      assert MovesAt(run, k - 1);
      MoveKeeps(SaidBy(run, k - 1), run[k - 1], run[k]);
      SaidNow(run, k - 1);
      assert SaidBy(run, k) == SaidBy(run, k - 1) + OwnWords(run[k - 1]) + OwnWords(run[k]);
    }
  }

  /** In every run, an endpoint advertisement held away from its origin is one that the
      origin has had in its own records, and came over links that all carry its realm. */
  lemma EndpointContained(run: seq<World>, k: nat, x: NodeId, key: LsaKey) returns (j: Journey, i: nat)
    requires History(run) && k < |run| && x in run[k].dbs && key in run[k].dbs[x] && key.origin != x
    requires run[k].dbs[x][key].lsa.body.EndpointBody?
    ensures Travelled(run[k].used, j) && At(j) == x && Start(j) == run[k].dbs[x][key].lsa && j.Crossed?
    ensures Start(j).key == key
    ensures forall c :: c in Crossings(j) ==> run[k].dbs[x][key].lsa.body.info.realm in c.link.realms
    ensures i <= k && SaidAt(run, i, key, run[k].dbs[x][key].lsa.body)
  {
    ExplainedAlong(run, k);
    assert RecordExplained(SaidBy(run, k), run[k], x, key);
    j :| Leads(SaidBy(run, k), run[k].used, j, x, run[k].dbs[x][key].lsa);
    BodyKindKept(j);
    EndpointJourney(j);
    MeetIs(Crossings(j));
    i := SaidWhen(run, k, key, Start(j).body);
  }

  /** In every run, an adjacency held away from its origin carries only realms that
      the origin has given it in its own records and that every link it crossed carries. */
  lemma AdjacencyContained(run: seq<World>, k: nat, x: NodeId, key: LsaKey, a: Adjacency)
      returns (j: Journey, b: Adjacency, i: nat)
    requires History(run) && k < |run| && x in run[k].dbs && key in run[k].dbs[x] && key.origin != x
    requires run[k].dbs[x][key].lsa.body.Router? && a in run[k].dbs[x][key].lsa.body.adjacencies
    ensures Travelled(run[k].used, j) && At(j) == x && Start(j).key == key && Start(j).body.Router?
    ensures b in Start(j).body.adjacencies && a == b.(realms := a.realms) && a.realms <= b.realms && a.realms != {}
    ensures forall c :: c in Crossings(j) ==> a.realms <= c.link.realms
    ensures i <= k && SaidAt(run, i, key, Start(j).body)
  {
    ExplainedAlong(run, k);
    assert RecordExplained(SaidBy(run, k), run[k], x, key);
    j :| Leads(SaidBy(run, k), run[k].used, j, x, run[k].dbs[x][key].lsa);
    BodyKindKept(j);
    RouterJourney(j);
    RestrictIs(Start(j).body.adjacencies, Meet(Crossings(j)));
    MeetIs(Crossings(j));
    i := SaidWhen(run, k, key, Start(j).body);
    b :| b in Start(j).body.adjacencies && a == b.(realms := b.realms * Meet(Crossings(j)));
    forall c | c in Crossings(j) ensures a.realms <= c.link.realms {
      forall r | r in a.realms ensures r in c.link.realms {
        assert r in Meet(Crossings(j));
      }
    }
  }

  lemma {:induction false} BodyKindKept(j: Journey)
    requires Carried(j).Some?
    ensures Carried(j).value.key == Start(j).key
    ensures Carried(j).value.body.Router? <==> Start(j).body.Router?
  {
    if j.Crossed? {
      BodyKindKept(j.prev);
    }
  }
}
