/** Floods whose copies are filtered on the way, as a router's advertisement is: who has
    the instance in the end, what each node has of it, and when that depends on which
    copy comes first. */
module Filtering {
  import opened Routing
  import opened Spf
  import opened LinkState
  import opened PacketNet
  import opened Flooding
  import opened Coverage
  import Realms

  // ------------------------------------------------------------------ definitions

  /** What a node has of the instance of `lsa`, if it has it. */
  function Kept(st: FloodState, x: NodeId, lsa: Lsa): Option<Lsa> {
    if x in st.dbs && lsa.key in st.dbs[x] && st.dbs[x][lsa.key].lsa.seq_ >= lsa.seq_
    then Some(st.dbs[x][lsa.key].lsa) else None
  }

  /** What is left of something on a link. */
  function Over(fabric: Fabric, a: End, b: Option<Lsa>): Option<Lsa> {
    if b.Some? && a.node in fabric.speakers && a.conn in fabric.speakers[a.node].links
    then SendLsa(fabric.speakers[a.node].links[a.conn], b.value) else None
  }

  /** A link that nobody leaves out of the flood. */
  ghost predicate Way(fabric: Fabric, lsa: Lsa, skip: Option<ConnectionId>, a: End) {
    && a in fabric.wires && a.node in fabric.speakers && a.conn in fabric.speakers[a.node].links
    && fabric.wires[a].node != lsa.key.origin
    && !LeftOut(fabric, a.node, fabric.wires[a].node, lsa.key.origin)
    && !(a.node == lsa.key.origin && skip == Some(a.conn))
  }

  /** Such links lead from the origin to x. */
  ghost predicate Leads(fabric: Fabric, lsa: Lsa, skip: Option<ConnectionId>, path: seq<End>, x: NodeId) {
    if path == [] then x == lsa.key.origin
    else
      var a := path[|path| - 1];
      && Way(fabric, lsa, skip, a) && fabric.wires[a].node == x
      && Leads(fabric, lsa, skip, path[..|path| - 1], a.node)
  }

  /** What is left of the advertisement at the end of a path. */
  function Left(fabric: Fabric, lsa: Lsa, path: seq<End>): Option<Lsa> {
    if path == [] then Some(lsa) else Over(fabric, path[|path| - 1], Left(fabric, lsa, path[..|path| - 1]))
  }

  /** What each node on the path has gets over the next link just as the next node has it. */
  ghost predicate Along(fabric: Fabric, st: FloodState, lsa: Lsa, skip: Option<ConnectionId>, path: seq<End>,
                        x: NodeId) {
    if path == [] then x == lsa.key.origin
    else
      var a := path[|path| - 1];
      && Way(fabric, lsa, skip, a) && fabric.wires[a].node == x
      && Kept(st, x, lsa).Some? && Over(fabric, a, Kept(st, a.node, lsa)) == Kept(st, x, lsa)
      && Along(fabric, st, lsa, skip, path[..|path| - 1], a.node)
  }

  ghost predicate Reached(fabric: Fabric, st: FloodState, lsa: Lsa, skip: Option<ConnectionId>, x: NodeId) {
    exists path :: Along(fabric, st, lsa, skip, path, x)
  }

  // -------------------------------------------------------------------- invariant

  /** No other instance of the key is as new, and nothing of its origin is being withdrawn. */
  ghost predicate NoneNewer(st: FloodState, lsa: Lsa) {
    forall c :: c in st.inflight ==>
      !Recalls(c.lsa, lsa.key) && (c.lsa.key == lsa.key ==> c.lsa.seq_ < lsa.seq_ || Of(c, lsa.key, lsa.seq_))
  }

  /** What nodes do of their own accord leaves the instance alone where it is. */
  ghost predicate Leaves(st: FloodState, e: Event, lsa: Lsa) {
    e.Act? ==>
      && (if Kept(st, e.node, lsa).Some? then lsa.key in e.db && Some(e.db[lsa.key].lsa) == Kept(st, e.node, lsa)
          else !(lsa.key in e.db && e.db[lsa.key].lsa.seq_ >= lsa.seq_))
      && forall c :: c in e.sent ==> !Recalls(c.lsa, lsa.key) && (c.lsa.key == lsa.key ==> c.lsa.seq_ < lsa.seq_)
  }

  /** A copy has come over such a link from a node that has it so. */
  ghost predicate Came(fabric: Fabric, st: FloodState, lsa: Lsa, skip: Option<ConnectionId>, c: Copy) {
    && c.at in fabric.wires
    && var a := fabric.wires[c.at];
       && Way(fabric, lsa, skip, a) && fabric.wires[a] == c.at
       && Over(fabric, a, Kept(st, a.node, lsa)) == Some(c.lsa)
  }

  /** What gets over a link of a node that has the instance is on its way, unless it
      is not needed. */
  ghost predicate Passed(fabric: Fabric, st: FloodState, lsa: Lsa, skip: Option<ConnectionId>, a: End) {
    Way(fabric, lsa, skip, a) && Kept(st, fabric.wires[a].node, lsa) == None ==>
      var b := Over(fabric, a, Kept(st, a.node, lsa));
      b.Some? ==> Copy(fabric.wires[a], b.value) in st.inflight
  }

  ghost predicate Inv(fabric: Fabric, st: FloodState, lsa: Lsa, skip: Option<ConnectionId>) {
    && !lsa.dead && NoneNewer(st, lsa) && Kept(st, lsa.key.origin, lsa) == Some(lsa)
    && (forall c {:trigger Came(fabric, st, lsa, skip, c)} :: c in st.inflight && Of(c, lsa.key, lsa.seq_) ==>
      Came(fabric, st, lsa, skip, c))
    && (forall a {:trigger Passed(fabric, st, lsa, skip, a)} :: Passed(fabric, st, lsa, skip, a))
    && (forall x {:trigger Reached(fabric, st, lsa, skip, x)} :: Kept(st, x, lsa).Some? ==>
      Reached(fabric, st, lsa, skip, x))
  }

  // ------------------------------------------------------------------------ steps

  /** Every node that had the instance has it still, as it was. */
  ghost predicate SameKept(st: FloodState, st': FloodState, lsa: Lsa) {
    forall y {:trigger Kept(st', y, lsa)} :: Kept(st, y, lsa).Some? ==> Kept(st', y, lsa) == Kept(st, y, lsa)
  }

  lemma {:induction false} AlongStays(fabric: Fabric, st: FloodState, st': FloodState, lsa: Lsa,
                                      skip: Option<ConnectionId>, path: seq<End>, x: NodeId)
    requires SameKept(st, st', lsa) && Along(fabric, st, lsa, skip, path, x)
    ensures Along(fabric, st', lsa, skip, path, x)
  {
    if path != [] {
      AlongStays(fabric, st, st', lsa, skip, path[..|path| - 1], path[|path| - 1].node);
    }
  }

  lemma ReachedStays(fabric: Fabric, st: FloodState, st': FloodState, lsa: Lsa, skip: Option<ConnectionId>, x: NodeId)
    requires SameKept(st, st', lsa) && Reached(fabric, st, lsa, skip, x)
    ensures Reached(fabric, st', lsa, skip, x)
  {
    var path :| Along(fabric, st, lsa, skip, path, x);
    AlongStays(fabric, st, st', lsa, skip, path, x);
  }

  /** Nothing has changed but other copies, and copies to nodes that have the instance. */
  lemma Unaffected(fabric: Fabric, st: FloodState, st': FloodState, lsa: Lsa, skip: Option<ConnectionId>)
    requires Inv(fabric, st, lsa, skip) && NoneNewer(st', lsa)
    requires forall y :: Kept(st', y, lsa) == Kept(st, y, lsa)
    requires forall c :: c in st'.inflight && Of(c, lsa.key, lsa.seq_) ==> c in st.inflight
    requires forall c :: c in st.inflight && Of(c, lsa.key, lsa.seq_) ==>
               c in st'.inflight || Kept(st, c.at.node, lsa).Some?
    ensures Inv(fabric, st', lsa, skip)
  {
    forall c | c in st'.inflight && Of(c, lsa.key, lsa.seq_) ensures Came(fabric, st', lsa, skip, c) {
      assert Came(fabric, st, lsa, skip, c);
    }
    forall a ensures Passed(fabric, st', lsa, skip, a) {
      assert Passed(fabric, st, lsa, skip, a);
      CopyIsOf(fabric, st, lsa, skip, a);
    }
    forall x | Kept(st', x, lsa).Some? ensures Reached(fabric, st', lsa, skip, x) {
      assert Reached(fabric, st, lsa, skip, x);
      ReachedStays(fabric, st, st', lsa, skip, x);
    }
  }

  lemma CopyIsOf(fabric: Fabric, st: FloodState, lsa: Lsa, skip: Option<ConnectionId>, a: End)
    requires Inv(fabric, st, lsa, skip)
    ensures var b := Over(fabric, a, Kept(st, a.node, lsa));
            b.Some? ==> b.value.key == lsa.key && b.value.seq_ == lsa.seq_ && !b.value.dead
  {
    if Kept(st, a.node, lsa).Some? {
      assert Reached(fabric, st, lsa, skip, a.node);
      var path :| Along(fabric, st, lsa, skip, path, a.node);
      AlongLeaves(fabric, st, lsa, skip, path, a.node);
      LeftIsOf(fabric, lsa, path);
    }
  }

  /** A path along which the instance has been taken leaves what the node has. */
  lemma {:induction false} AlongLeaves(fabric: Fabric, st: FloodState, lsa: Lsa, skip: Option<ConnectionId>,
                                       path: seq<End>, x: NodeId)
    requires Kept(st, lsa.key.origin, lsa) == Some(lsa) && Along(fabric, st, lsa, skip, path, x)
    ensures Leads(fabric, lsa, skip, path, x) && Left(fabric, lsa, path) == Kept(st, x, lsa)
    ensures Kept(st, x, lsa).Some?
  {
    if path != [] {
      AlongLeaves(fabric, st, lsa, skip, path[..|path| - 1], path[|path| - 1].node);
    }
  }

  lemma {:induction false} LeftIsOf(fabric: Fabric, lsa: Lsa, path: seq<End>)
    ensures var b := Left(fabric, lsa, path);
            b.Some? ==> b.value.key == lsa.key && b.value.seq_ == lsa.seq_ && b.value.dead == lsa.dead
  {
    if path != [] {
      LeftIsOf(fabric, lsa, path[..|path| - 1]);
    }
  }

  /** A node that lacks the instance takes a copy: it stores it and floods it. */
  ghost predicate TakesIn(fabric: Fabric, st: FloodState, st': FloodState, lsa: Lsa, x: NodeId, body: Lsa, now: nat,
                          gone: multiset<Copy>, inConn: Option<ConnectionId>) {
    && x in fabric.speakers && x in st.dbs && gone <= st.inflight && Kept(st, x, lsa) == None
    && body.key == lsa.key && body.seq_ == lsa.seq_ && !body.dead
    && st' == FloodState(
         st.dbs[x := st.dbs[x][lsa.key := LsaRecord(body, now)]],
         st.inflight - gone +
         Launch(fabric, x, FloodBatch(fabric.speakers[x].links, fabric.speakers[x].tree.nextHop, body, inConn)))
    && (forall c :: c in gone ==> c.at.node == x)
  }

  /** The origin skips `skip`, any other node the link by which it got the copy, from a
      node that has the instance. */
  ghost predicate Omits(fabric: Fabric, st: FloodState, lsa: Lsa, skip: Option<ConnectionId>, x: NodeId,
                        inConn: Option<ConnectionId>) {
    if x == lsa.key.origin then inConn == skip
    else inConn.Some? && End(x, inConn.value) in fabric.wires &&
         Kept(st, fabric.wires[End(x, inConn.value)].node, lsa).Some?
  }

  lemma TakenIsKept(fabric: Fabric, st: FloodState, st': FloodState, lsa: Lsa, x: NodeId, body: Lsa, now: nat,
                    gone: multiset<Copy>, inConn: Option<ConnectionId>)
    requires TakesIn(fabric, st, st', lsa, x, body, now, gone, inConn)
    ensures Kept(st', x, lsa) == Some(body) && SameKept(st, st', lsa)
    ensures forall y :: y != x ==> Kept(st', y, lsa) == Kept(st, y, lsa)
  {
  }

  /** What it floods goes over ways, cut down by the links. */
  lemma SentAreCuts(fabric: Fabric, st: FloodState, st': FloodState, lsa: Lsa, skip: Option<ConnectionId>, x: NodeId,
                    body: Lsa, now: nat, gone: multiset<Copy>, inConn: Option<ConnectionId>, c: Copy)
    requires FabricOk(fabric) && TakesIn(fabric, st, st', lsa, x, body, now, gone, inConn)
    requires Omits(fabric, st, lsa, skip, x, inConn)
    requires c in Launch(fabric, x,
                         FloodBatch(fabric.speakers[x].links, fabric.speakers[x].tree.nextHop, body, inConn))
    ensures Came(fabric, st', lsa, skip, c) && Of(c, lsa.key, lsa.seq_)
  {
    var s := fabric.speakers[x];
    var batch := FloodBatch(s.links, s.tree.nextHop, body, inConn);
    var d :| d in batch && End(x, d) in fabric.wires && c == Copy(fabric.wires[End(x, d)], batch[d]);
    assert PairedWire(fabric, End(x, d)) && PairedLink(fabric, x, d);
    SendsFiltered(s.links[d], body);
    TakenIsKept(fabric, st, st', lsa, x, body, now, gone, inConn);
  }

  /** And over every way on which something is left. */
  lemma CutsAreSent(fabric: Fabric, st: FloodState, st': FloodState, lsa: Lsa, skip: Option<ConnectionId>, x: NodeId,
                    body: Lsa, now: nat, gone: multiset<Copy>, inConn: Option<ConnectionId>, a: End)
    requires FabricOk(fabric) && TakesIn(fabric, st, st', lsa, x, body, now, gone, inConn)
    requires Omits(fabric, st, lsa, skip, x, inConn) && a.node == x
    ensures Passed(fabric, st', lsa, skip, a)
  {
    TakenIsKept(fabric, st, st', lsa, x, body, now, gone, inConn);
    if Way(fabric, lsa, skip, a) && inConn != Some(a.conn) && Over(fabric, a, Some(body)).Some? {
      assert PairedLink(fabric, x, a.conn);
      var s := fabric.speakers[x];
      var batch := FloodBatch(s.links, s.tree.nextHop, body, inConn);
      assert a.conn in batch && End(x, a.conn) == a;
      var copies := set c | c in batch && End(x, c) in fabric.wires :: Copy(fabric.wires[End(x, c)], batch[c]);
      assert Copy(fabric.wires[End(x, a.conn)], batch[a.conn]) in copies;
    }
  }

  lemma TakesInCopies(fabric: Fabric, st: FloodState, st': FloodState, lsa: Lsa, skip: Option<ConnectionId>, x: NodeId,
                      body: Lsa, now: nat, gone: multiset<Copy>, inConn: Option<ConnectionId>)
    requires FabricOk(fabric) && NoneNewer(st, lsa) && Omits(fabric, st, lsa, skip, x, inConn)
    requires forall c {:trigger Came(fabric, st, lsa, skip, c)} :: c in st.inflight && Of(c, lsa.key, lsa.seq_) ==>
               Came(fabric, st, lsa, skip, c)
    requires TakesIn(fabric, st, st', lsa, x, body, now, gone, inConn)
    ensures NoneNewer(st', lsa)
    ensures forall c {:trigger Came(fabric, st', lsa, skip, c)} :: c in st'.inflight && Of(c, lsa.key, lsa.seq_) ==>
              Came(fabric, st', lsa, skip, c)
  {
    TakenIsKept(fabric, st, st', lsa, x, body, now, gone, inConn);
    forall c | c in st'.inflight && c !in st.inflight
      ensures Of(c, lsa.key, lsa.seq_) && Came(fabric, st', lsa, skip, c)
    {
      SentAreCuts(fabric, st, st', lsa, skip, x, body, now, gone, inConn, c);
    }
    forall c | c in st.inflight && Of(c, lsa.key, lsa.seq_) ensures Came(fabric, st', lsa, skip, c) {
      assert Came(fabric, st, lsa, skip, c);
    }
  }

  /** Taking a copy that has come from a node with the instance keeps the invariant. */
  lemma TakingKeeps(fabric: Fabric, st: FloodState, st': FloodState, lsa: Lsa, skip: Option<ConnectionId>, x: NodeId,
                    body: Lsa, now: nat, gone: multiset<Copy>, inConn: Option<ConnectionId>, from: End)
    requires FabricOk(fabric) && Inv(fabric, st, lsa, skip) && x != lsa.key.origin
    requires TakesIn(fabric, st, st', lsa, x, body, now, gone, inConn) && Omits(fabric, st, lsa, skip, x, inConn)
    requires Way(fabric, lsa, skip, from) && fabric.wires[from].node == x
    requires Over(fabric, from, Kept(st, from.node, lsa)) == Some(body)
    ensures Inv(fabric, st', lsa, skip)
  {
    TakenIsKept(fabric, st, st', lsa, x, body, now, gone, inConn);
    TakesInCopies(fabric, st, st', lsa, skip, x, body, now, gone, inConn);
    forall a ensures Passed(fabric, st', lsa, skip, a) {
      if a.node == x {
        CutsAreSent(fabric, st, st', lsa, skip, x, body, now, gone, inConn, a);
      } else {
        assert Passed(fabric, st, lsa, skip, a);
      }
    }
    forall y | Kept(st', y, lsa).Some? ensures Reached(fabric, st', lsa, skip, y) {
      if y == x {
        ReachedOn(fabric, st, st', lsa, skip, from);
      } else {
        assert Reached(fabric, st, lsa, skip, y);
        ReachedStays(fabric, st, st', lsa, skip, y);
      }
    }
  }

  lemma ReachedOn(fabric: Fabric, st: FloodState, st': FloodState, lsa: Lsa, skip: Option<ConnectionId>, from: End)
    requires Inv(fabric, st, lsa, skip) && SameKept(st, st', lsa) && Way(fabric, lsa, skip, from)
    requires var x := fabric.wires[from].node;
             Kept(st', x, lsa).Some? && Over(fabric, from, Kept(st, from.node, lsa)) == Kept(st', x, lsa)
    ensures Reached(fabric, st', lsa, skip, fabric.wires[from].node)
  {
    assert Reached(fabric, st, lsa, skip, from.node);
    var path :| Along(fabric, st, lsa, skip, path, from.node);
    AlongStays(fabric, st, st', lsa, skip, path, from.node);
    assert (path + [from])[..|path|] == path;
    assert Along(fabric, st', lsa, skip, path + [from], fabric.wires[from].node);
  }

  /** A new instance, newer than any other about. */
  ghost predicate Starts(fabric: Fabric, st: FloodState, lsa: Lsa) {
    IsNew(fabric, st, lsa) && NoneNewer(st, lsa)
  }

  lemma IssueStarts(fabric: Fabric, st: FloodState, lsa: Lsa, skip: Option<ConnectionId>, now: nat)
    requires FabricOk(fabric) && Starts(fabric, st, lsa)
    ensures Inv(fabric, IssueByTree(fabric, st, lsa, skip, now), lsa, skip)
  {
    var o := lsa.key.origin;
    var st' := IssueByTree(fabric, st, lsa, skip, now);
    forall y ensures Kept(st, y, lsa) == None {
      assert !Has(st, y, lsa.key, lsa.seq_);
    }
    assert TakesIn(fabric, st, st', lsa, o, lsa, now, multiset{}, skip);
    TakenIsKept(fabric, st, st', lsa, o, lsa, now, multiset{}, skip);
    TakesInCopies(fabric, st, st', lsa, skip, o, lsa, now, multiset{}, skip);
    assert Along(fabric, st', lsa, skip, [], o);
    forall a ensures Passed(fabric, st', lsa, skip, a) {
      if a.node == o {
        CutsAreSent(fabric, st, st', lsa, skip, o, lsa, now, multiset{}, skip, a);
      }
    }
  }

  lemma ArrivalKeeps(fabric: Fabric, st: FloodState, lsa: Lsa, skip: Option<ConnectionId>, copy: Copy, now: nat)
    requires FabricOk(fabric) && Inv(fabric, st, lsa, skip)
    requires copy in st.inflight && copy.at.node in fabric.speakers && copy.at.node in st.dbs
    ensures Inv(fabric, ByTree(fabric, st, copy, now), lsa, skip)
  {
    var x := copy.at.node;
    var st' := ByTree(fabric, st, copy, now);
    if Of(copy, lsa.key, lsa.seq_) && Kept(st, x, lsa) == None {
      assert Came(fabric, st, lsa, skip, copy);
      TakingKeeps(fabric, st, st', lsa, skip, x, copy.lsa, now, multiset{copy}, Some(copy.at.conn),
                  fabric.wires[copy.at]);
    } else {
      forall c | c in st'.inflight
        ensures c in st.inflight || (!Of(copy, lsa.key, lsa.seq_) && SameInstance(c, copy))
      {
        if c !in st.inflight {
          LaunchSends(fabric, x, fabric.speakers[x].tree.nextHop, copy.lsa,
                      if copy.lsa.dead then None else Some(copy.at.conn), c);
        }
      }
      OthersKept(fabric, st, lsa, copy, now);
      Unaffected(fabric, st, st', lsa, skip);
    }
  }

  /** Handling any other copy, or a late one, leaves the instance alone everywhere. */
  lemma OthersKept(fabric: Fabric, st: FloodState, lsa: Lsa, copy: Copy, now: nat)
    requires NoneNewer(st, lsa) && copy in st.inflight && copy.at.node in fabric.speakers && copy.at.node in st.dbs
    requires Of(copy, lsa.key, lsa.seq_) ==> Kept(st, copy.at.node, lsa).Some?
    ensures forall y :: Kept(ByTree(fabric, st, copy, now), y, lsa) == Kept(st, y, lsa)
  {
  }

  lemma StepsKeep(fabric: Fabric, st: FloodState, lsa: Lsa, skip: Option<ConnectionId>, e: Event, st': FloodState)
    requires FabricOk(fabric) && Inv(fabric, st, lsa, skip) && ByTrees(fabric, st, e, st') && Leaves(st, e, lsa)
    ensures Inv(fabric, st', lsa, skip)
  {
    if e.Arrival? {
      var now :| st' == Handle(fabric, st, e.copy, fabric.speakers[e.copy.at.node].tree.nextHop, now);
      ArrivalKeeps(fabric, st, lsa, skip, e.copy, now);
    } else {
      Unaffected(fabric, st, st', lsa, skip);
    }
  }

  // ------------------------------------------------------------------------- runs

  /** A run that issues the advertisement and ends when no copy of it is left, whatever
      other traffic there is and whatever else nodes do. */
  ghost predicate Flood(fabric: Fabric, st: FloodState, lsa: Lsa, skip: Option<ConnectionId>, now: nat,
                        run: seq<FloodState>, events: seq<Event>) {
    && Starts(fabric, st, lsa)
    && FloodRun(fabric, run, events) && run[0] == IssueByTree(fabric, st, lsa, skip, now)
    && LeftAlone(run, events, lsa) && Settled(run[|run| - 1], lsa)
  }

  ghost predicate LeftAlone(run: seq<FloodState>, events: seq<Event>, lsa: Lsa) {
    forall m {:trigger events[m]} :: 0 <= m < |events| && m < |run| ==> Leaves(run[m], events[m], lsa)
  }

  ghost predicate Settled(st: FloodState, lsa: Lsa) {
    forall c :: c in st.inflight ==> !Of(c, lsa.key, lsa.seq_)
  }

  lemma {:induction false} InvAlong(fabric: Fabric, run: seq<FloodState>, events: seq<Event>, lsa: Lsa,
                                    skip: Option<ConnectionId>, k: nat)
    requires FabricOk(fabric) && FloodRun(fabric, run, events) && k < |run| && Inv(fabric, run[0], lsa, skip)
    requires LeftAlone(run, events, lsa)
    ensures Inv(fabric, run[k], lsa, skip)
  {
    if k > 0 {
      InvAlong(fabric, run, events, lsa, skip, k - 1);
      assert HandlesAt(fabric, run, events, k - 1);
      StepsKeep(fabric, run[k - 1], lsa, skip, events[k - 1], run[k]);
    }
  }

  lemma FloodEnds(fabric: Fabric, st: FloodState, lsa: Lsa, skip: Option<ConnectionId>, now: nat, run: seq<FloodState>,
                  events: seq<Event>)
    requires FabricOk(fabric) && Flood(fabric, st, lsa, skip, now, run, events)
    ensures Inv(fabric, run[|run| - 1], lsa, skip)
  {
    IssueStarts(fabric, st, lsa, skip, now);
    InvAlong(fabric, run, events, lsa, skip, |run| - 1);
  }

  /** A way into x on which something is left of what its near node has. */
  ghost predicate Feeds(fabric: Fabric, st: FloodState, lsa: Lsa, skip: Option<ConnectionId>, a: End, x: NodeId) {
    Way(fabric, lsa, skip, a) && fabric.wires[a].node == x && Over(fabric, a, Kept(st, a.node, lsa)).Some?
  }

  lemma FedHasIt(fabric: Fabric, st: FloodState, lsa: Lsa, skip: Option<ConnectionId>, a: End, x: NodeId)
    requires Inv(fabric, st, lsa, skip) && Settled(st, lsa) && Feeds(fabric, st, lsa, skip, a, x)
    ensures Kept(st, x, lsa).Some?
  {
    assert Passed(fabric, st, lsa, skip, a);
    CopyIsOf(fabric, st, lsa, skip, a);
  }

  /** Exactly where a flood of any live advertisement gets, in every interleaving: once no
      copy is left, a node other than the origin has the instance if and only if a link
      that is not left out leads to it on which something is left of what the near node
      has. And what a node has is what is left of the advertisement along such links,
      from the origin. */
  lemma FilteredFloodReachesExactly(fabric: Fabric, st: FloodState, lsa: Lsa, skip: Option<ConnectionId>, now: nat,
                                    run: seq<FloodState>, events: seq<Event>, x: NodeId)
    requires FabricOk(fabric) && Flood(fabric, st, lsa, skip, now, run, events)
    ensures var end := run[|run| - 1];
            && (Has(end, x, lsa.key, lsa.seq_) <==> x == lsa.key.origin || exists a ::
                  Feeds(fabric, end, lsa, skip, a, x))
            && (Has(end, x, lsa.key, lsa.seq_) ==>
                  exists path :: Leads(fabric, lsa, skip, path, x) &&
                                 Left(fabric, lsa, path) == Some(end.dbs[x][lsa.key].lsa))
  {
    var end := run[|run| - 1];
    FloodEnds(fabric, st, lsa, skip, now, run, events);
    if Has(end, x, lsa.key, lsa.seq_) {
      assert Kept(end, x, lsa).Some? && Reached(fabric, end, lsa, skip, x);
      var path :| Along(fabric, end, lsa, skip, path, x);
      AlongLeaves(fabric, end, lsa, skip, path, x);
      if path != [] {
        assert Feeds(fabric, end, lsa, skip, path[|path| - 1], x);
      }
    } else if a :| Feeds(fabric, end, lsa, skip, a, x) {
      FedHasIt(fabric, end, lsa, skip, a, x);
    }
  }

  // ------------------------------------------------------ whichever copy comes first

  /** All paths to a node on which something is left leave the same. */
  ghost predicate Confluent(fabric: Fabric, lsa: Lsa, skip: Option<ConnectionId>) {
    forall p, q, x {:trigger Leads(fabric, lsa, skip, p, x), Leads(fabric, lsa, skip, q, x)} ::
      Leads(fabric, lsa, skip, p, x) && Leads(fabric, lsa, skip, q, x) ==>
        Left(fabric, lsa, p) == None || Left(fabric, lsa, q) == None || Left(fabric, lsa, p) == Left(fabric, lsa, q)
  }

  /** Every node has what any path leaves to it. */
  ghost predicate AsLed(fabric: Fabric, st: FloodState, lsa: Lsa, skip: Option<ConnectionId>) {
    forall p, x {:trigger Leads(fabric, lsa, skip, p, x)} ::
      Leads(fabric, lsa, skip, p, x) && Left(fabric, lsa, p).Some? ==> Kept(st, x, lsa) == Left(fabric, lsa, p)
  }

  lemma {:induction false} ConfluentGoes(fabric: Fabric, st: FloodState, lsa: Lsa, skip: Option<ConnectionId>,
                                         path: seq<End>, x: NodeId)
    requires Inv(fabric, st, lsa, skip) && Settled(st, lsa) && Confluent(fabric, lsa, skip)
    requires Leads(fabric, lsa, skip, path, x) && Left(fabric, lsa, path).Some?
    ensures Kept(st, x, lsa) == Left(fabric, lsa, path)
  {
    if path != [] {
      var a := path[|path| - 1];
      ConfluentGoes(fabric, st, lsa, skip, path[..|path| - 1], a.node);
      FedHasIt(fabric, st, lsa, skip, a, x);
      assert Reached(fabric, st, lsa, skip, x);
      var q :| Along(fabric, st, lsa, skip, q, x);
      AlongLeaves(fabric, st, lsa, skip, q, x);
    }
  }

  lemma ConfluentIsAsLed(fabric: Fabric, st: FloodState, lsa: Lsa, skip: Option<ConnectionId>, now: nat,
                         run: seq<FloodState>, events: seq<Event>)
    requires FabricOk(fabric) && Flood(fabric, st, lsa, skip, now, run, events) && Confluent(fabric, lsa, skip)
    ensures AsLed(fabric, run[|run| - 1], lsa, skip)
  {
    var end := run[|run| - 1];
    FloodEnds(fabric, st, lsa, skip, now, run, events);
    forall p, x | Leads(fabric, lsa, skip, p, x) && Left(fabric, lsa, p).Some?
      ensures Kept(end, x, lsa) == Left(fabric, lsa, p)
    {
      ConfluentGoes(fabric, end, lsa, skip, p, x);
    }
  }

  /** Where all paths leave the same, a node has the instance in the end if and only if
      links lead to it along which something is left, and has just that. */
  lemma ConfluentFloodReaches(fabric: Fabric, st: FloodState, lsa: Lsa, skip: Option<ConnectionId>, now: nat,
                              run: seq<FloodState>, events: seq<Event>, x: NodeId)
    requires FabricOk(fabric) && Flood(fabric, st, lsa, skip, now, run, events) && Confluent(fabric, lsa, skip)
    ensures Has(run[|run| - 1], x, lsa.key, lsa.seq_) <==>
              exists path :: Leads(fabric, lsa, skip, path, x) && Left(fabric, lsa, path).Some?
    ensures forall path :: Leads(fabric, lsa, skip, path, x) && Left(fabric, lsa, path).Some? ==>
              Kept(run[|run| - 1], x, lsa) == Left(fabric, lsa, path)
  {
    ConfluentIsAsLed(fabric, st, lsa, skip, now, run, events);
    FilteredFloodReachesExactly(fabric, st, lsa, skip, now, run, events, x);
  }

  /** An endpoint's advertisement is left as it is or not at all. */
  lemma {:induction false} EndpointLeft(fabric: Fabric, lsa: Lsa, path: seq<End>)
    requires lsa.body.EndpointBody? && Left(fabric, lsa, path).Some?
    ensures Left(fabric, lsa, path) == Some(lsa)
  {
    if path != [] {
      EndpointLeft(fabric, lsa, path[..|path| - 1]);
    }
  }

  lemma EndpointsAreConfluent(fabric: Fabric, lsa: Lsa, skip: Option<ConnectionId>)
    requires lsa.body.EndpointBody?
    ensures Confluent(fabric, lsa, skip)
  {
    forall p, x | Leads(fabric, lsa, skip, p, x) && Left(fabric, lsa, p).Some?
      ensures Left(fabric, lsa, p) == Some(lsa)
    {
      EndpointLeft(fabric, lsa, p);
    }
  }

  /** With the same realms on every link, a router's advertisement is filtered once. */
  lemma {:induction false} UniformLeft(fabric: Fabric, lsa: Lsa, realms: RealmList, path: seq<End>)
    requires forall y, c :: y in fabric.speakers && c in fabric.speakers[y].links ==>
               fabric.speakers[y].links[c].realms == realms
    requires lsa.body.Router? && path != [] && Left(fabric, lsa, path).Some?
    ensures Left(fabric, lsa, path) == Some(lsa.(body := Router(Restrict(lsa.body.adjacencies, realms))))
  {
    if |path| > 1 {
      UniformLeft(fabric, lsa, realms, path[..|path| - 1]);
      Realms.RestrictTwice(lsa.body.adjacencies, realms, realms);
      assert realms * realms == realms;
    }
  }

  lemma UniformIsConfluent(fabric: Fabric, lsa: Lsa, skip: Option<ConnectionId>, realms: RealmList)
    requires forall y, c :: y in fabric.speakers && c in fabric.speakers[y].links ==>
               fabric.speakers[y].links[c].realms == realms
    ensures Confluent(fabric, lsa, skip)
  {
    if lsa.body.EndpointBody? {
      EndpointsAreConfluent(fabric, lsa, skip);
    } else {
      forall p, x | Leads(fabric, lsa, skip, p, x) && Left(fabric, lsa, p).Some? && p != []
        ensures x != lsa.key.origin
        ensures Left(fabric, lsa, p) == Some(lsa.(body := Router(Restrict(lsa.body.adjacencies, realms))))
      {
        UniformLeft(fabric, lsa, realms, p);
      }
    }
  }

  // ------------------------------------------------------------ exactly when it holds

  lemma OneMoreStep(fabric: Fabric, st: FloodState, e: Event, run: seq<FloodState>, events: seq<Event>)
    requires FloodRun(fabric, run, events) && ByTrees(fabric, st, e, run[0])
    ensures FloodRun(fabric, [st] + run, [e] + events)
    ensures ([st] + run)[0] == st && ([st] + run)[|run|] == run[|run| - 1]
  {
    var run', events' := [st] + run, [e] + events;
    forall i: nat ensures HandlesAt(fabric, run', events', i) {
      assert i > 0 ==> HandlesAt(fabric, run, events, i - 1);
    }
  }

  lemma StillLeftAlone(st: FloodState, e: Event, run: seq<FloodState>, events: seq<Event>, lsa: Lsa)
    requires LeftAlone(run, events, lsa) && e.Arrival?
    ensures LeftAlone([st] + run, [e] + events, lsa)
  {
    var run', events' := [st] + run, [e] + events;
    forall m | 0 <= m < |events'| && m < |run'| ensures Leaves(run'[m], events'[m], lsa) {
      assert m > 0 ==> Leaves(run[m - 1], events[m - 1], lsa);
    }
  }

  lemma OneIsHandled(fabric: Fabric, st: FloodState, lsa: Lsa, skip: Option<ConnectionId>, c: Copy)
    requires FabricOk(fabric) && Inv(fabric, st, lsa, skip) && fabric.speakers.Keys <= st.dbs.Keys
    requires c in st.inflight && Of(c, lsa.key, lsa.seq_)
    ensures c.at.node in fabric.speakers && ByTrees(fabric, st, Arrival(c), ByTree(fabric, st, c, 0))
    ensures var st' := ByTree(fabric, st, c, 0);
            && Inv(fabric, st', lsa, skip) && fabric.speakers.Keys <= st'.dbs.Keys
            && Pressure(fabric, st', lsa.key, lsa.seq_) < Pressure(fabric, st, lsa.key, lsa.seq_)
  {
    assert Came(fabric, st, lsa, skip, c) && PairedWire(fabric, fabric.wires[c.at]);
    ArrivalKeeps(fabric, st, lsa, skip, c, 0);
    HandlePressure(fabric, st, c, fabric.speakers[c.at.node].tree.nextHop, 0, lsa.key, lsa.seq_);
  }

  /** Handling the copies that are left, in any order, comes to an end. */
  lemma {:induction false} RunsOut(fabric: Fabric, st: FloodState, lsa: Lsa, skip: Option<ConnectionId>)
      returns (run: seq<FloodState>, events: seq<Event>)
    requires FabricOk(fabric) && Inv(fabric, st, lsa, skip) && fabric.speakers.Keys <= st.dbs.Keys
    ensures FloodRun(fabric, run, events) && run[0] == st && LeftAlone(run, events, lsa)
    ensures Settled(run[|run| - 1], lsa)
    decreases Pressure(fabric, st, lsa.key, lsa.seq_)
  {
    if c :| c in st.inflight && Of(c, lsa.key, lsa.seq_) {
      OneIsHandled(fabric, st, lsa, skip, c);
      var more, rest := RunsOut(fabric, ByTree(fabric, st, c, 0), lsa, skip);
      OneMoreStep(fabric, st, Arrival(c), more, rest);
      StillLeftAlone(st, Arrival(c), more, rest, lsa);
      run, events := [st] + more, [Arrival(c)] + rest;
    } else {
      run, events := [st], [];
    }
  }

  ghost predicate AlwaysAsLed(fabric: Fabric, st: FloodState, lsa: Lsa, skip: Option<ConnectionId>, now: nat) {
    forall run, events :: Flood(fabric, st, lsa, skip, now, run, events) ==> AsLed(fabric, run[|run| - 1], lsa, skip)
  }

  /** However the copies overtake each other, every node ends up with what any path
      leaves to it: exactly if all paths to a node leave the same. */
  lemma OrderMattersUnlessConfluent(fabric: Fabric, st: FloodState, lsa: Lsa, skip: Option<ConnectionId>, now: nat)
    requires FabricOk(fabric) && Starts(fabric, st, lsa) && fabric.speakers.Keys <= st.dbs.Keys
    ensures AlwaysAsLed(fabric, st, lsa, skip, now) <==> Confluent(fabric, lsa, skip)
  {
    if Confluent(fabric, lsa, skip) {
      forall run, events | Flood(fabric, st, lsa, skip, now, run, events)
        ensures AsLed(fabric, run[|run| - 1], lsa, skip)
      {
        ConfluentIsAsLed(fabric, st, lsa, skip, now, run, events);
      }
    }
    if AlwaysAsLed(fabric, st, lsa, skip, now) {
      IssueStarts(fabric, st, lsa, skip, now);
      var run, events := RunsOut(fabric, IssueByTree(fabric, st, lsa, skip, now), lsa, skip);
      assert Flood(fabric, st, lsa, skip, now, run, events);
      assert AsLed(fabric, run[|run| - 1], lsa, skip);
    }
  }

  // -------------------------------------------------------------- first come, first served

  // Node 1 has two links to node 2, in different realms, and node 2 one to node 3.
  const LAN: RealmList := {LocalNet}
  const WAN: RealmList := {Global}
  const NO_TREE: Tree := Tree(map[], map[], map[])
  const LINKS_OF_1: Links := map[1 := Link(2, 1, LAN, 1), 2 := Link(2, 2, WAN, 1)]
  const LINKS_OF_2: Links := map[1 := Link(1, 1, LAN, 1), 2 := Link(1, 2, WAN, 1), 3 := Link(3, 3, WAN, 1)]
  const LINKS_OF_3: Links := map[1 := Link(2, 1, WAN, 1)]
  const CHAIN: Fabric := Fabric(
    map[1 := Speaker(map[], LINKS_OF_1, NO_TREE), 2 := Speaker(map[], LINKS_OF_2, NO_TREE),
        3 := Speaker(map[], LINKS_OF_3, NO_TREE)],
    map[End(1, 1) := End(2, 1), End(2, 1) := End(1, 1), End(1, 2) := End(2, 2), End(2, 2) := End(1, 2),
        End(2, 3) := End(3, 1), End(3, 1) := End(2, 3)])

  const OVER_LAN: Adjacency := Adjacency(1, 2, 1, LAN)
  const OVER_WAN: Adjacency := Adjacency(2, 2, 1, WAN)

  /** What node 1 says of itself, as far as some adjacencies go. */
  function Ad(adjacencies: seq<Adjacency>): Lsa {
    Lsa(LsaKey(1, 1), 1, false, Router(adjacencies))
  }

  const WHOLE: Lsa := Ad([OVER_LAN, OVER_WAN])
  const BY_LAN: Copy := Copy(End(2, 1), Ad([OVER_LAN]))
  const BY_WAN: Copy := Copy(End(2, 2), Ad([OVER_WAN]))

  lemma ChainOk()
    ensures FabricOk(CHAIN)
  {
    forall x, c | x in CHAIN.speakers && c in CHAIN.speakers[x].links ensures PairedLink(CHAIN, x, c) {
    }
    forall a | a in CHAIN.wires ensures PairedWire(CHAIN, a) {
    }
  }

  lemma Cuts()
    ensures Restrict([OVER_LAN], LAN) == [OVER_LAN] && Restrict([OVER_LAN], WAN) == []
    ensures Restrict([OVER_WAN], LAN) == [] && Restrict([OVER_WAN], WAN) == [OVER_WAN]
    ensures Restrict([OVER_LAN, OVER_WAN], LAN) == [OVER_LAN] && Restrict([OVER_LAN, OVER_WAN], WAN) == [OVER_WAN]
  {
    assert LAN * LAN == LAN && WAN * WAN == WAN && LAN * WAN == {} && WAN * LAN == {};
    assert OVER_LAN.(realms := OVER_LAN.realms * LAN) == OVER_LAN;
    assert OVER_WAN.(realms := OVER_WAN.realms * WAN) == OVER_WAN;
    assert [OVER_LAN][1..] == [] && [OVER_WAN][1..] == [] && [OVER_LAN, OVER_WAN][1..] == [OVER_WAN];
  }

  lemma FirstFlood()
    ensures Launch(CHAIN, 1, FloodBatch(LINKS_OF_1, map[], WHOLE, None)) == multiset{BY_LAN, BY_WAN}
  {
    Cuts();
    var batch := FloodBatch(LINKS_OF_1, map[], WHOLE, None);
    assert batch.Keys == {1, 2} && batch[1] == BY_LAN.lsa && batch[2] == BY_WAN.lsa;
    var copies := set c | c in batch && End(1, c) in CHAIN.wires :: Copy(CHAIN.wires[End(1, c)], batch[c]);
    assert 1 in batch && 2 in batch && BY_LAN in copies && BY_WAN in copies;
    assert copies == {BY_LAN, BY_WAN};
  }

  lemma SecondFlood()
    ensures Launch(CHAIN, 2, FloodBatch(LINKS_OF_2, map[], BY_LAN.lsa, Some(1))) == multiset{}
  {
    Cuts();
    assert FloodBatch(LINKS_OF_2, map[], BY_LAN.lsa, Some(1)) == map[];
  }

  const EMPTY: FloodState := FloodState(map[1 := map[], 2 := map[], 3 := map[]], multiset{})
  const ISSUED: FloodState :=
    FloodState(map[1 := map[WHOLE.key := LsaRecord(WHOLE, 0)], 2 := map[], 3 := map[]], multiset{BY_LAN, BY_WAN})
  const TAKEN: FloodState :=
    FloodState(ISSUED.dbs[2 := map[WHOLE.key := LsaRecord(BY_LAN.lsa, 0)]], multiset{BY_WAN})
  const OVER: FloodState := FloodState(TAKEN.dbs, multiset{})

  lemma IssueStep()
    ensures IssueByTree(CHAIN, EMPTY, WHOLE, None, 0) == ISSUED
  {
    FirstFlood();
    assert multiset{} + multiset{BY_LAN, BY_WAN} == multiset{BY_LAN, BY_WAN};
  }

  lemma NothingBefore()
    ensures Starts(CHAIN, EMPTY, WHOLE)
  {
  }

  lemma TakeStep()
    ensures ByTrees(CHAIN, ISSUED, Arrival(BY_LAN), TAKEN)
  {
    SecondFlood();
    var left := ISSUED.inflight - multiset{BY_LAN} + multiset{};
    assert left == multiset{BY_WAN};
    assert ByTree(CHAIN, ISSUED, BY_LAN, 0) == TAKEN;
  }

  lemma DropStep()
    ensures ByTrees(CHAIN, TAKEN, Arrival(BY_WAN), OVER)
  {
    assert TAKEN.inflight - multiset{BY_WAN} == multiset{};
    assert ByTree(CHAIN, TAKEN, BY_WAN, 0) == OVER;
  }

  lemma RunOver(run: seq<FloodState>, events: seq<Event>)
    requires run == [ISSUED, TAKEN, OVER] && events == [Arrival(BY_LAN), Arrival(BY_WAN)]
    ensures FloodRun(CHAIN, run, events)
  {
    TakeStep();
    DropStep();
    assert FloodRun(CHAIN, [OVER], []);
    OneMoreStep(CHAIN, TAKEN, Arrival(BY_WAN), [OVER], []);
    OneMoreStep(CHAIN, ISSUED, Arrival(BY_LAN), [TAKEN] + [OVER], [Arrival(BY_WAN)] + []);
    assert run == [ISSUED] + ([TAKEN] + [OVER]) && events == [Arrival(BY_LAN)] + ([Arrival(BY_WAN)] + []);
  }

  lemma InTheEnd()
    ensures Settled(OVER, WHOLE) && !Has(OVER, 3, WHOLE.key, WHOLE.seq_)
  {
  }

  /** Who has a router's advertisement can depend on which copy comes first: node 2 takes
      the one that came over the local network, refuses the other, and has nothing that
      its link to node 3 would let through, though the other copy would have got there. */
  lemma FirstComeFirstServed() returns (run: seq<FloodState>, events: seq<Event>, path: seq<End>)
    ensures FabricOk(CHAIN) && Flood(CHAIN, EMPTY, WHOLE, None, 0, run, events)
    ensures Leads(CHAIN, WHOLE, None, path, 3) && Left(CHAIN, WHOLE, path).Some?
    ensures !Has(run[|run| - 1], 3, WHOLE.key, WHOLE.seq_)
  {
    run, events := [ISSUED, TAKEN, OVER], [Arrival(BY_LAN), Arrival(BY_WAN)];
    path := [End(1, 2), End(2, 3)];
    ChainOk();
    NothingBefore();
    IssueStep();
    RunOver(run, events);
    InTheEnd();
    LastLeg(path);
  }

  lemma LastLeg(path: seq<End>)
    requires path == [End(1, 2), End(2, 3)]
    ensures Leads(CHAIN, WHOLE, None, path, 3) && Left(CHAIN, WHOLE, path).Some?
  {
    Cuts();
    assert path[..1] == [End(1, 2)] && path[..1][..0] == [];
    assert Left(CHAIN, WHOLE, path[..1]) == Some(BY_WAN.lsa);
  }
}
