/** Where a flood gets to while the trees stay as they are: a node has a fresh endpoint
    advertisement in the end if and only if links that no node leaves out lead to it.
    Trees of nodes that agree leave out so little that it gets everywhere. */
module Coverage {
  import opened Routing
  import opened Paths
  import opened Spf
  import opened SpfTheorems
  import opened LinkState
  import opened PacketNet
  import opened Flooding

  /** Every node floods by the tree it has from the start, and nothing is lost. */
  ghost predicate FloodRun(fabric: Fabric, run: seq<FloodState>, events: seq<Event>) {
    && run != [] && |events| + 1 == |run|
    && forall i: nat {:trigger HandlesAt(fabric, run, events, i)} :: HandlesAt(fabric, run, events, i)
  }

  ghost predicate HandlesAt(fabric: Fabric, run: seq<FloodState>, events: seq<Event>, i: nat) {
    i < |events| && i + 1 < |run| ==> ByTrees(fabric, run[i], events[i], run[i + 1])
  }

  ghost predicate ByTrees(fabric: Fabric, st: FloodState, e: Event, st': FloodState) {
    match e
    case Arrival(copy) =>
      copy.at.node in fabric.speakers && Handles(fabric, st, copy, fabric.speakers[copy.at.node].tree.nextHop, st')
    case Loss(_) => false
    case Act(_, _, _) => Happens(fabric, st, e, st')
  }

  lemma FloodRunIsRun(fabric: Fabric, run: seq<FloodState>, events: seq<Event>)
    requires FloodRun(fabric, run, events)
    ensures AnyRun(fabric, run, events)
  {
    forall i: nat ensures StepsAt(fabric, run, events, i) {
      assert HandlesAt(fabric, run, events, i);
    }
  }

  function ByTree(fabric: Fabric, st: FloodState, copy: Copy, now: nat): FloodState
    requires copy.at.node in fabric.speakers && copy.at.node in st.dbs
  {
    Handle(fabric, st, copy, fabric.speakers[copy.at.node].tree.nextHop, now)
  }

  function IssueByTree(fabric: Fabric, st: FloodState, lsa: Lsa, skip: Option<ConnectionId>, now: nat): FloodState
    requires lsa.key.origin in fabric.speakers && lsa.key.origin in st.dbs
  {
    Issue(fabric, st, lsa, skip, fabric.speakers[lsa.key.origin].tree.nextHop, now)
  }

  ghost predicate Holds(st: FloodState, x: NodeId, lsa: Lsa) {
    Has(st, x, lsa.key, lsa.seq_)
  }

  /** A withdrawal that may remove the record of a key somewhere. */
  predicate Recalls(lsa: Lsa, key: LsaKey) {
    lsa.dead && lsa.key.origin == key.origin
  }

  /** No other instance of the key is as new as `lsa`, and nothing of its origin is
      being withdrawn. Other advertisements and other withdrawals may be about. */
  ghost predicate Newest(st: FloodState, lsa: Lsa) {
    forall c :: c in st.inflight ==>
      && !Recalls(c.lsa, lsa.key)
      && (c.lsa.key == lsa.key ==> c.lsa.seq_ < lsa.seq_ || c.lsa == lsa)
  }

  /** What nodes do of their own accord leaves the advertisement alone. */
  ghost predicate Aside(st: FloodState, e: Event, lsa: Lsa) {
    e.Act? ==>
      && (lsa.key in e.db && e.db[lsa.key].lsa.seq_ >= lsa.seq_ <==> Holds(st, e.node, lsa))
      && forall c :: c in e.sent ==>
           !Recalls(c.lsa, lsa.key) && (c.lsa.key == lsa.key ==> c.lsa.seq_ < lsa.seq_)
  }

  ghost predicate Undisturbed(run: seq<FloodState>, events: seq<Event>, lsa: Lsa) {
    forall m {:trigger events[m]} :: 0 <= m < |events| && m < |run| ==> Aside(run[m], events[m], lsa)
  }

  // ------------------------------------------------------------- where links lead

  ghost predicate LeftOut(fabric: Fabric, y: NodeId, x: NodeId, origin: NodeId) {
    && y in fabric.speakers && origin in fabric.speakers[y].tree.nextHop
    && fabric.speakers[y].tree.nextHop[origin].peerId == x
  }

  /** A link over which a node that has the advertisement passes it on. */
  ghost predicate Open(fabric: Fabric, lsa: Lsa, skip: Option<ConnectionId>, a: End) {
    && a in fabric.wires && a.node in fabric.speakers && a.conn in fabric.speakers[a.node].links
    && SendLsa(fabric.speakers[a.node].links[a.conn], lsa) == Some(lsa)
    && fabric.wires[a].node != lsa.key.origin
    && !LeftOut(fabric, a.node, fabric.wires[a].node, lsa.key.origin)
    && !(a.node == lsa.key.origin && skip == Some(a.conn))
  }

  /** Open links lead from the origin to x. */
  ghost predicate LeadsBy(fabric: Fabric, lsa: Lsa, skip: Option<ConnectionId>, path: seq<End>, x: NodeId) {
    if path == [] then x == lsa.key.origin
    else
      var a := path[|path| - 1];
      && Open(fabric, lsa, skip, a) && fabric.wires[a].node == x
      && LeadsBy(fabric, lsa, skip, path[..|path| - 1], a.node)
  }

  ghost predicate LedTo(fabric: Fabric, lsa: Lsa, skip: Option<ConnectionId>, x: NodeId) {
    exists path :: LeadsBy(fabric, lsa, skip, path, x)
  }

  lemma LedOn(fabric: Fabric, lsa: Lsa, skip: Option<ConnectionId>, a: End)
    requires LedTo(fabric, lsa, skip, a.node) && Open(fabric, lsa, skip, a)
    ensures LedTo(fabric, lsa, skip, fabric.wires[a].node)
  {
    var path :| LeadsBy(fabric, lsa, skip, path, a.node);
    assert (path + [a])[..|path|] == path;
    assert LeadsBy(fabric, lsa, skip, path + [a], fabric.wires[a].node);
  }

  // ------------------------------------------------------------------ invariant

  /** A live endpoint advertisement, which every link lets through as it is or not at all. */
  predicate Plain(lsa: Lsa) {
    lsa.body.EndpointBody? && !lsa.dead
  }

  /** The far end of an open link of a node that has the advertisement: its node has
      it too, or gets it over this link. */
  ghost predicate PassedOn(fabric: Fabric, st: FloodState, lsa: Lsa, skip: Option<ConnectionId>, a: End) {
    Open(fabric, lsa, skip, a) && Holds(st, a.node, lsa) ==>
      Holds(st, fabric.wires[a].node, lsa) || Copy(fabric.wires[a], lsa) in st.inflight
  }

  /** A copy has come over an open link from a node that has the advertisement. */
  ghost predicate SentOpenly(fabric: Fabric, st: FloodState, lsa: Lsa, skip: Option<ConnectionId>, c: Copy) {
    && c.at in fabric.wires && Holds(st, fabric.wires[c.at].node, lsa)
    && Open(fabric, lsa, skip, fabric.wires[c.at]) && fabric.wires[fabric.wires[c.at]] == c.at
  }

  ghost predicate FloodInv(fabric: Fabric, st: FloodState, lsa: Lsa, skip: Option<ConnectionId>) {
    && Newest(st, lsa) && Holds(st, lsa.key.origin, lsa)
    && (forall c {:trigger SentOpenly(fabric, st, lsa, skip, c)} :: c in st.inflight && c.lsa == lsa ==>
      SentOpenly(fabric, st, lsa, skip, c))
    && (forall a {:trigger PassedOn(fabric, st, lsa, skip, a)} :: PassedOn(fabric, st, lsa, skip, a))
    && (forall x {:trigger LedTo(fabric, lsa, skip, x)} :: Holds(st, x, lsa) ==> LedTo(fabric, lsa, skip, x))
  }

  /** A node takes the advertisement: it stores it and floods it, never back to `inConn`. */
  ghost predicate Taken(fabric: Fabric, st: FloodState, st': FloodState, lsa: Lsa, x: NodeId, now: nat,
                        gone: multiset<Copy>, inConn: Option<ConnectionId>) {
    && x in fabric.speakers && x in st.dbs && gone <= st.inflight && !Holds(st, x, lsa)
    && st' == FloodState(
         st.dbs[x := st.dbs[x][lsa.key := LsaRecord(lsa, now)]],
         st.inflight - gone + Launch(fabric, x,
                                     FloodBatch(fabric.speakers[x].links, fabric.speakers[x].tree.nextHop, lsa,
                                                inConn)))
    && (forall c :: c in gone ==> c.at.node == x)
  }

  /** The origin skips `skip`, any other node the link the advertisement came over,
      from a node that has it. */
  ghost predicate Skips(fabric: Fabric, st: FloodState, lsa: Lsa, skip: Option<ConnectionId>, x: NodeId,
                        inConn: Option<ConnectionId>) {
    if x == lsa.key.origin then inConn == skip
    else inConn.Some? && End(x, inConn.value) in fabric.wires &&
         Holds(st, fabric.wires[End(x, inConn.value)].node, lsa)
  }

  /** A flood uses open links and no others. */
  lemma LaunchIsOpen(fabric: Fabric, st: FloodState, lsa: Lsa, skip: Option<ConnectionId>, x: NodeId,
                     inConn: Option<ConnectionId>, c: Copy)
    requires FabricOk(fabric) && Plain(lsa) && x in fabric.speakers && Skips(fabric, st, lsa, skip, x, inConn)
    requires var s := fabric.speakers[x];
             c in Launch(fabric, x, FloodBatch(s.links, s.tree.nextHop, lsa, inConn))
    ensures c.lsa == lsa && c.at in fabric.wires
    ensures var a := fabric.wires[c.at]; a.node == x && Open(fabric, lsa, skip, a) && fabric.wires[a] == c.at
  {
    var s := fabric.speakers[x];
    var batch := FloodBatch(s.links, s.tree.nextHop, lsa, inConn);
    var d :| d in batch && End(x, d) in fabric.wires && c == Copy(fabric.wires[End(x, d)], batch[d]);
    assert PairedWire(fabric, End(x, d)) && PairedLink(fabric, x, d);
  }

  lemma OpenIsLaunched(fabric: Fabric, lsa: Lsa, skip: Option<ConnectionId>, x: NodeId, inConn: Option<ConnectionId>,
                       a: End)
    requires FabricOk(fabric) && Plain(lsa) && Open(fabric, lsa, skip, a) && a.node == x && inConn != Some(a.conn)
    ensures var s := fabric.speakers[x];
            Copy(fabric.wires[a], lsa) in Launch(fabric, x, FloodBatch(s.links, s.tree.nextHop, lsa, inConn))
  {
    assert PairedLink(fabric, x, a.conn);
    var s := fabric.speakers[x];
    var batch := FloodBatch(s.links, s.tree.nextHop, lsa, inConn);
    assert a.conn in batch && batch[a.conn] == lsa && End(x, a.conn) == a;
    var copies := set c | c in batch && End(x, c) in fabric.wires :: Copy(fabric.wires[End(x, c)], batch[c]);
    assert Copy(fabric.wires[End(x, a.conn)], batch[a.conn]) in copies;
  }

  lemma TakenPasses(fabric: Fabric, st: FloodState, st': FloodState, lsa: Lsa, skip: Option<ConnectionId>, x: NodeId,
                    now: nat, gone: multiset<Copy>, inConn: Option<ConnectionId>, a: End)
    requires FabricOk(fabric) && Plain(lsa) && Taken(fabric, st, st', lsa, x, now, gone, inConn)
    requires Skips(fabric, st, lsa, skip, x, inConn) && a.node == x
    ensures PassedOn(fabric, st', lsa, skip, a)
  {
    if Open(fabric, lsa, skip, a) && inConn != Some(a.conn) {
      OpenIsLaunched(fabric, lsa, skip, x, inConn, a);
    }
  }

  /** Storing and flooding the advertisement at a node keeps the invariant. */
  lemma AcceptKeeps(fabric: Fabric, st: FloodState, st': FloodState, lsa: Lsa, skip: Option<ConnectionId>, x: NodeId,
                    now: nat, gone: multiset<Copy>, inConn: Option<ConnectionId>)
    requires FabricOk(fabric) && Plain(lsa) && FloodInv(fabric, st, lsa, skip) && x != lsa.key.origin
    requires Taken(fabric, st, st', lsa, x, now, gone, inConn) && Skips(fabric, st, lsa, skip, x, inConn)
    requires LedTo(fabric, lsa, skip, x)
    ensures FloodInv(fabric, st', lsa, skip)
  {
    TakenCopies(fabric, st, st', lsa, skip, x, now, gone, inConn);
    forall a ensures PassedOn(fabric, st', lsa, skip, a) {
      if a.node == x {
        TakenPasses(fabric, st, st', lsa, skip, x, now, gone, inConn, a);
      } else {
        TakenSpares(fabric, st, st', lsa, skip, x, now, gone, inConn, a);
      }
    }
  }

  lemma TakenSpares(fabric: Fabric, st: FloodState, st': FloodState, lsa: Lsa, skip: Option<ConnectionId>, x: NodeId,
                    now: nat, gone: multiset<Copy>, inConn: Option<ConnectionId>, a: End)
    requires Taken(fabric, st, st', lsa, x, now, gone, inConn) && PassedOn(fabric, st, lsa, skip, a) && a.node != x
    ensures PassedOn(fabric, st', lsa, skip, a)
  {
  }

  lemma TakenCopies(fabric: Fabric, st: FloodState, st': FloodState, lsa: Lsa, skip: Option<ConnectionId>, x: NodeId,
                    now: nat, gone: multiset<Copy>, inConn: Option<ConnectionId>)
    requires FabricOk(fabric) && Plain(lsa) && Newest(st, lsa)
    requires forall c {:trigger SentOpenly(fabric, st, lsa, skip, c)} :: c in st.inflight && c.lsa == lsa ==>
               SentOpenly(fabric, st, lsa, skip, c)
    requires Taken(fabric, st, st', lsa, x, now, gone, inConn) && Skips(fabric, st, lsa, skip, x, inConn)
    ensures Newest(st', lsa)
    ensures forall c {:trigger SentOpenly(fabric, st', lsa, skip, c)} :: c in st'.inflight && c.lsa == lsa ==>
              SentOpenly(fabric, st', lsa, skip, c)
  {
    forall c | c in st'.inflight && c !in st.inflight ensures c.lsa == lsa && SentOpenly(fabric, st', lsa, skip, c) {
      LaunchIsOpen(fabric, st, lsa, skip, x, inConn, c);
    }
    forall c | c in st.inflight && c.lsa == lsa ensures SentOpenly(fabric, st', lsa, skip, c) {
      assert SentOpenly(fabric, st, lsa, skip, c);
    }
  }

  /** A new instance, newer than any other about. */
  ghost predicate Announces(fabric: Fabric, st: FloodState, lsa: Lsa) {
    Plain(lsa) && IsNew(fabric, st, lsa) && Newest(st, lsa)
  }

  lemma IssueKeeps(fabric: Fabric, st: FloodState, lsa: Lsa, skip: Option<ConnectionId>, now: nat)
    requires FabricOk(fabric) && Announces(fabric, st, lsa)
    ensures FloodInv(fabric, IssueByTree(fabric, st, lsa, skip, now), lsa, skip)
  {
    var o := lsa.key.origin;
    var st' := IssueByTree(fabric, st, lsa, skip, now);
    assert Taken(fabric, st, st', lsa, o, now, multiset{}, skip) && Skips(fabric, st, lsa, skip, o, skip);
    TakenCopies(fabric, st, st', lsa, skip, o, now, multiset{}, skip);
    OnlyOrigin(fabric, st, st', lsa, skip, now);
    forall a ensures PassedOn(fabric, st', lsa, skip, a) {
      if a.node == o {
        TakenPasses(fabric, st, st', lsa, skip, o, now, multiset{}, skip, a);
      }
    }
  }

  lemma OnlyOrigin(fabric: Fabric, st: FloodState, st': FloodState, lsa: Lsa, skip: Option<ConnectionId>, now: nat)
    requires forall y :: !Has(st, y, lsa.key, lsa.seq_)
    requires lsa.key.origin in st.dbs
    requires st'.dbs == st.dbs[lsa.key.origin := st.dbs[lsa.key.origin][lsa.key := LsaRecord(lsa, now)]]
    ensures forall x :: Holds(st', x, lsa) <==> x == lsa.key.origin
    ensures forall x :: Holds(st', x, lsa) ==> LedTo(fabric, lsa, skip, x)
  {
    assert LeadsBy(fabric, lsa, skip, [], lsa.key.origin);
    forall x ensures Holds(st', x, lsa) <==> x == lsa.key.origin {
      assert !Has(st, x, lsa.key, lsa.seq_);
    }
  }

  lemma HandleKeeps(fabric: Fabric, st: FloodState, lsa: Lsa, skip: Option<ConnectionId>, copy: Copy, now: nat)
    requires FabricOk(fabric) && Plain(lsa) && FloodInv(fabric, st, lsa, skip)
    requires copy in st.inflight && copy.at.node in fabric.speakers && copy.at.node in st.dbs
    ensures FloodInv(fabric, ByTree(fabric, st, copy, now), lsa, skip)
  {
    var x := copy.at.node;
    var st' := ByTree(fabric, st, copy, now);
    if copy.lsa == lsa && x != lsa.key.origin && Newer(st.dbs[x], lsa) {
      assert SentOpenly(fabric, st, lsa, skip, copy);
      var a := fabric.wires[copy.at];
      assert LedTo(fabric, lsa, skip, a.node);
      LedOn(fabric, lsa, skip, a);
      AcceptKeeps(fabric, st, st', lsa, skip, x, now, multiset{copy}, Some(copy.at.conn));
    } else {
      OtherKeeps(fabric, st, lsa, skip, copy, now);
    }
  }

  predicate SameInstance(c: Copy, d: Copy) {
    c.lsa.key == d.lsa.key && c.lsa.seq_ == d.lsa.seq_ && c.lsa.dead == d.lsa.dead
  }

  /** Handling any other copy, or a late one, changes nothing for `lsa`. */
  lemma OtherKeeps(fabric: Fabric, st: FloodState, lsa: Lsa, skip: Option<ConnectionId>, copy: Copy, now: nat)
    requires Plain(lsa) && FloodInv(fabric, st, lsa, skip)
    requires copy in st.inflight && copy.at.node in fabric.speakers && copy.at.node in st.dbs
    requires copy.lsa == lsa ==> copy.at.node == lsa.key.origin || !Newer(st.dbs[copy.at.node], lsa)
    ensures FloodInv(fabric, ByTree(fabric, st, copy, now), lsa, skip)
  {
    var x := copy.at.node;
    var st' := ByTree(fabric, st, copy, now);
    forall c | c in st'.inflight
      ensures c in st.inflight || (copy.lsa != lsa && SameInstance(c, copy))
    {
      if c !in st.inflight {
        LaunchSends(fabric, x, fabric.speakers[x].tree.nextHop, copy.lsa,
                    if copy.lsa.dead then None else Some(copy.at.conn), c);
      }
    }
    OthersHold(fabric, st, lsa, copy, now);
    StillExact(fabric, st, st', lsa, skip);
  }

  lemma OthersHold(fabric: Fabric, st: FloodState, lsa: Lsa, copy: Copy, now: nat)
    requires Newest(st, lsa) && copy in st.inflight && copy.at.node in fabric.speakers && copy.at.node in st.dbs
    requires copy.lsa == lsa ==> copy.at.node == lsa.key.origin || !Newer(st.dbs[copy.at.node], lsa)
    ensures forall y :: Holds(st, y, lsa) <==> Holds(ByTree(fabric, st, copy, now), y, lsa)
  {
  }

  /** Nothing has changed but other copies, and copies to nodes that have the advertisement. */
  lemma StillExact(fabric: Fabric, st: FloodState, st': FloodState, lsa: Lsa, skip: Option<ConnectionId>)
    requires FloodInv(fabric, st, lsa, skip) && Newest(st', lsa)
    requires forall y :: Holds(st, y, lsa) <==> Holds(st', y, lsa)
    requires forall c :: c in st'.inflight && c.lsa == lsa ==> c in st.inflight
    requires forall c :: c in st.inflight && c.lsa == lsa ==>
               c in st'.inflight || Holds(st, c.at.node, lsa)
    ensures FloodInv(fabric, st', lsa, skip)
  {
    forall c | c in st'.inflight && c.lsa == lsa ensures SentOpenly(fabric, st', lsa, skip, c) {
      assert SentOpenly(fabric, st, lsa, skip, c);
    }
    forall a ensures PassedOn(fabric, st', lsa, skip, a) {
      assert PassedOn(fabric, st, lsa, skip, a);
    }
  }

  lemma StepKeeps(fabric: Fabric, st: FloodState, lsa: Lsa, skip: Option<ConnectionId>, e: Event, st': FloodState)
    requires FabricOk(fabric) && Plain(lsa) && FloodInv(fabric, st, lsa, skip)
    requires ByTrees(fabric, st, e, st') && Aside(st, e, lsa)
    ensures FloodInv(fabric, st', lsa, skip)
  {
    if e.Arrival? {
      var now :| st' == Handle(fabric, st, e.copy, fabric.speakers[e.copy.at.node].tree.nextHop, now);
      HandleKeeps(fabric, st, lsa, skip, e.copy, now);
    } else {
      StillExact(fabric, st, st', lsa, skip);
    }
  }

  lemma {:induction false} InvAlongFlood(fabric: Fabric, run: seq<FloodState>, events: seq<Event>, lsa: Lsa,
                                         skip: Option<ConnectionId>, k: nat)
    requires FabricOk(fabric) && Plain(lsa) && FloodRun(fabric, run, events) && Undisturbed(run, events, lsa)
    requires FloodInv(fabric, run[0], lsa, skip) && k < |run|
    ensures FloodInv(fabric, run[k], lsa, skip)
  {
    if k > 0 {
      InvAlongFlood(fabric, run, events, lsa, skip, k - 1);
      assert HandlesAt(fabric, run, events, k - 1);
      StepKeeps(fabric, run[k - 1], lsa, skip, events[k - 1], run[k]);
    }
  }

  // ------------------------------------------------------------------- coverage

  /** With no copy left, the advertisement has gone wherever open links lead. */
  lemma {:induction false} GoesAllTheWay(fabric: Fabric, st: FloodState, lsa: Lsa, skip: Option<ConnectionId>,
                                         path: seq<End>, x: NodeId)
    requires FloodInv(fabric, st, lsa, skip) && forall c :: c in st.inflight ==> c.lsa != lsa
    requires LeadsBy(fabric, lsa, skip, path, x)
    ensures Holds(st, x, lsa)
  {
    if path != [] {
      var a := path[|path| - 1];
      GoesAllTheWay(fabric, st, lsa, skip, path[..|path| - 1], a.node);
      assert PassedOn(fabric, st, lsa, skip, a);
    }
  }

  /** Exactly where a flood gets, by whatever trees, in every interleaving with other
      traffic and whatever else nodes do, while nothing of its origin is withdrawn:
      once no copy is left, a node has a fresh endpoint advertisement if and only if
      links that carry its realm and are left out by nobody lead to it from the origin. */
  lemma FloodReachesExactly(fabric: Fabric, st: FloodState, lsa: Lsa, skip: Option<ConnectionId>, now: nat,
                            run: seq<FloodState>, events: seq<Event>, k: nat, x: NodeId)
    requires FabricOk(fabric) && Announces(fabric, st, lsa)
    requires FloodRun(fabric, run, events) && run[0] == IssueByTree(fabric, st, lsa, skip, now)
    requires Undisturbed(run, events, lsa)
    requires k < |run| && forall c :: c in run[k].inflight ==> c.lsa != lsa
    ensures Holds(run[k], x, lsa) <==> LedTo(fabric, lsa, skip, x)
  {
    IssueKeeps(fabric, st, lsa, skip, now);
    InvAlongFlood(fabric, run, events, lsa, skip, k);
    if LedTo(fabric, lsa, skip, x) {
      var path :| LeadsBy(fabric, lsa, skip, path, x);
      GoesAllTheWay(fabric, run[k], lsa, skip, path, x);
    }
  }

  // ------------------------------------------------------------ trees that agree

  /** All links carry the advertisement's realm. */
  ghost predicate Carries(fabric: Fabric, lsa: Lsa) {
    Plain(lsa) &&
    forall x, c :: x in fabric.speakers && c in fabric.speakers[x].links ==>
      lsa.body.info.realm in fabric.speakers[x].links[c].realms
  }

  /** Speakers agree on positive edges and have computed their trees from them. */
  ghost predicate TreesAgree(fabric: Fabric, g: Graph) {
    && Positive(g)
    && forall x {:trigger SpeakerOk(fabric, g, x)} :: x in fabric.speakers ==> SpeakerOk(fabric, g, x)
  }

  ghost predicate SpeakerOk(fabric: Fabric, g: Graph, x: NodeId)
    requires x in fabric.speakers
  {
    var s := fabric.speakers[x];
    SameEdges(s.graph, g) && IsSpf(s.graph, x, s.links, s.tree)
  }

  /** Towards the origin every next hop is strictly nearer. */
  lemma NextHopIsNearer(fabric: Fabric, g: Graph, x: NodeId, origin: NodeId)
    requires TreesAgree(fabric, g) && x in fabric.speakers && origin in fabric.speakers[x].tree.nextHop
    ensures var y := fabric.speakers[x].tree.nextHop[origin].peerId;
            y in fabric.speakers ==>
              CostOf(fabric.speakers[y].tree.cost, origin) < CostOf(fabric.speakers[x].tree.cost, origin)
    ensures fabric.speakers[x].tree.nextHop[origin] in fabric.speakers[x].links.Values
  {
    assert SpeakerOk(fabric, g, x);
    var s := fabric.speakers[x];
    TreeIsSound(s.graph, x, s.links, s.tree, origin);
    var w, q := NextHopSplits(s.graph, x, s.links, s.tree, origin);
    var y := s.tree.nextHop[origin].peerId;
    assert Edge(g, x, y, w);
    SameEdgesPath(s.graph, g, q);
    if y in fabric.speakers {
      assert SpeakerOk(fabric, g, y);
      var r := fabric.speakers[y];
      CostsAreExact(r.graph, y, r.links, r.tree);
      SameEdgesExact(r.graph, g, y, r.tree.cost);
    }
  }

  lemma HasNextHop(fabric: Fabric, g: Graph, x: NodeId, origin: NodeId)
    requires TreesAgree(fabric, g) && x in fabric.speakers && x != origin
    requires CostOf(fabric.speakers[x].tree.cost, origin) < MAX_COST
    ensures origin in fabric.speakers[x].tree.nextHop
  {
    assert SpeakerOk(fabric, g, x);
    var s := fabric.speakers[x];
    TreeIsSound(s.graph, x, s.links, s.tree, origin);
  }

  /** Open links lead from the origin against the next hops to everyone who can reach it. */
  lemma {:induction false} NextHopsAreOpen(fabric: Fabric, g: Graph, lsa: Lsa, skip: Option<ConnectionId>, x: NodeId)
    requires FabricOk(fabric) && TreesAgree(fabric, g) && Carries(fabric, lsa) && lsa.key.origin in fabric.speakers
    requires skip.Some? ==> skip.value !in fabric.speakers[lsa.key.origin].links
    requires x in fabric.speakers && CostOf(fabric.speakers[x].tree.cost, lsa.key.origin) < MAX_COST
    ensures LedTo(fabric, lsa, skip, x)
    decreases CostOf(fabric.speakers[x].tree.cost, lsa.key.origin)
  {
    var origin := lsa.key.origin;
    if x == origin {
      assert LeadsBy(fabric, lsa, skip, [], x);
    } else {
      HasNextHop(fabric, g, x, origin);
      NextHopIsNearer(fabric, g, x, origin);
      var link := fabric.speakers[x].tree.nextHop[origin];
      var c :| c in fabric.speakers[x].links && fabric.speakers[x].links[c] == link;
      assert PairedLink(fabric, x, c) && PairedWire(fabric, End(x, c));
      var a := fabric.wires[End(x, c)];
      NextHopsAreOpen(fabric, g, lsa, skip, a.node);
      if LeftOut(fabric, a.node, x, origin) {
        NextHopIsNearer(fabric, g, a.node, origin);
      }
      LedOn(fabric, lsa, skip, a);
    }
  }

  lemma UndisturbedIsSpared(fabric: Fabric, run: seq<FloodState>, events: seq<Event>, lsa: Lsa,
                            skip: Option<ConnectionId>)
    requires FabricOk(fabric) && Plain(lsa) && FloodRun(fabric, run, events) && Undisturbed(run, events, lsa)
    requires FloodInv(fabric, run[0], lsa, skip)
    ensures Spared(run, events, lsa.key, lsa.seq_)
  {
    forall m | 0 <= m < |events| ensures Keeps(run[m], events[m], lsa.key, lsa.seq_) {
      InvAlongFlood(fabric, run, events, lsa, skip, m);
      assert HandlesAt(fabric, run, events, m) && Aside(run[m], events[m], lsa);
    }
    forall m | 0 <= m < |events| && events[m].Act?
      ensures forall c :: c in events[m].sent ==> !Of(c, lsa.key, lsa.seq_)
    {
      assert Aside(run[m], events[m], lsa);
    }
  }

  /** Pruned flooding still covers: nodes that agree and whose links all carry the
      realm get a fresh endpoint advertisement to every node that can reach its origin,
      with at most as many messages as there are link ends. */
  lemma FloodCovers(fabric: Fabric, g: Graph, st: FloodState, lsa: Lsa, skip: Option<ConnectionId>, now: nat,
                    run: seq<FloodState>, events: seq<Event>, k: nat, x: NodeId)
    requires FabricOk(fabric) && TreesAgree(fabric, g) && Carries(fabric, lsa) && Announces(fabric, st, lsa)
    requires skip.Some? ==> skip.value !in fabric.speakers[lsa.key.origin].links
    requires FloodRun(fabric, run, events) && run[0] == IssueByTree(fabric, st, lsa, skip, now)
    requires Undisturbed(run, events, lsa) && k < |run|
    requires x in fabric.speakers && CostOf(fabric.speakers[x].tree.cost, lsa.key.origin) < MAX_COST
    ensures (forall c :: c in run[k].inflight ==> c.lsa != lsa) ==> Holds(run[k], x, lsa)
    ensures HandledOf(events[..k], lsa.key, lsa.seq_) + Count(run[k].inflight, lsa.key, lsa.seq_) <=
            Degrees(fabric, fabric.speakers.Keys)
  {
    if forall c :: c in run[k].inflight ==> c.lsa != lsa {
      NextHopsAreOpen(fabric, g, lsa, skip, x);
      FloodReachesExactly(fabric, st, lsa, skip, now, run, events, k, x);
    }
    FloodRunIsRun(fabric, run, events);
    IssueKeeps(fabric, st, lsa, skip, now);
    UndisturbedIsSpared(fabric, run, events, lsa, skip);
    FloodTerminates(fabric, st, lsa, skip, fabric.speakers[lsa.key.origin].tree.nextHop, now, run, events, k);
  }
}
