/** Advertisements flooding through a network: whatever else is going on and
    whatever trees the nodes have at each moment, an instance of an advertisement
    is taken once by each node, and the messages it causes are bounded. */
module Flooding {
  import opened Routing
  import opened Paths
  import opened Spf
  import opened SpfTheorems
  import opened LinkState
  import opened PacketNet

  // A node's links, and the topology and tree it would flood by while these stay.
  datatype Speaker = Speaker(graph: Graph, links: Links, tree: Tree)

  datatype Fabric = Fabric(speakers: map<NodeId, Speaker>, wires: map<End, End>)

  // A copy waiting to be handled at one end of a link.
  datatype Copy = Copy(at: End, lsa: Lsa)

  datatype FloodState = FloodState(dbs: map<NodeId, Db>, inflight: multiset<Copy>)

  // ------------------------------------------------------------------ semantics

  /** One copy per batch entry, at the far ends of the links. */
  function Launch(fabric: Fabric, x: NodeId, batch: map<ConnectionId, Lsa>): multiset<Copy>
  {
    multiset(set c | c in batch && End(x, c) in fabric.wires :: Copy(fabric.wires[End(x, c)], batch[c]))
  }

  /** A node handles an inbound advertisement: what changes its database is
      flooded on by the tree it has just then, anything else is dropped. */
  function Handle(fabric: Fabric, st: FloodState, copy: Copy, nextHop: map<NodeId, Link>, now: nat): FloodState
    requires copy.at.node in fabric.speakers && copy.at.node in st.dbs
  {
    var x, lsa := copy.at.node, copy.lsa;
    if !Fresh(st.dbs[x], x, lsa) then st.(inflight := st.inflight - multiset{copy})
    else FloodState(
      st.dbs[x := Handled(st.dbs[x], x, lsa, now)],
      st.inflight - multiset{copy} + Flooded(fabric, copy, nextHop))
  }

  function Flooded(fabric: Fabric, copy: Copy, nextHop: map<NodeId, Link>): multiset<Copy>
    requires copy.at.node in fabric.speakers
  {
    var x, lsa := copy.at.node, copy.lsa;
    Launch(fabric, x, FloodBatch(fabric.speakers[x].links, nextHop, lsa, if lsa.dead then None else Some(copy.at.conn)))
  }

  ghost predicate Handles(fabric: Fabric, st: FloodState, copy: Copy, nextHop: map<NodeId, Link>, st': FloodState) {
    && copy in st.inflight && copy.at.node in fabric.speakers && copy.at.node in st.dbs
    && exists now :: st' == Handle(fabric, st, copy, nextHop, now)
  }

  /** Handled by whatever tree the node has just then. */
  ghost predicate HandlesSomehow(fabric: Fabric, st: FloodState, copy: Copy, st': FloodState) {
    exists nextHop :: Handles(fabric, st, copy, nextHop, st')
  }

  // What may happen at a step: a copy is handled, or lost with its link or by a full
  // queue, or a node does anything else to its database and sends what it likes.
  datatype Event =
    | Arrival(copy: Copy)
    | Loss(copy: Copy)
    | Act(node: NodeId, db: Db, sent: multiset<Copy>)

  ghost predicate Happens(fabric: Fabric, st: FloodState, e: Event, st': FloodState) {
    match e
    case Arrival(copy) => HandlesSomehow(fabric, st, copy, st')
    case Loss(copy) => copy in st.inflight && st' == st.(inflight := st.inflight - multiset{copy})
    case Act(x, db, sent) => x in st.dbs && st' == FloodState(st.dbs[x := db], st.inflight + sent)
  }

  /** One event after another, in any order, by any trees. */
  ghost predicate AnyRun(fabric: Fabric, run: seq<FloodState>, events: seq<Event>) {
    && run != [] && |events| + 1 == |run|
    && forall i: nat {:trigger StepsAt(fabric, run, events, i)} :: StepsAt(fabric, run, events, i)
  }

  ghost predicate StepsAt(fabric: Fabric, run: seq<FloodState>, events: seq<Event>, i: nat) {
    i < |events| && i + 1 < |run| ==> Happens(fabric, run[i], events[i], run[i + 1])
  }

  lemma ArrivalOf(fabric: Fabric, run: seq<FloodState>, events: seq<Event>, i: nat)
      returns (nextHop: map<NodeId, Link>, now: nat)
    requires AnyRun(fabric, run, events) && i < |events| && events[i].Arrival?
    ensures var copy := events[i].copy;
            copy in run[i].inflight && copy.at.node in fabric.speakers && copy.at.node in run[i].dbs &&
            run[i + 1] == Handle(fabric, run[i], copy, nextHop, now)
  {
    assert StepsAt(fabric, run, events, i);
    nextHop :| Handles(fabric, run[i], events[i].copy, nextHop, run[i + 1]);
    now :| run[i + 1] == Handle(fabric, run[i], events[i].copy, nextHop, now);
  }

  // ------------------------------------------------------------------ instances

  /** A copy of one instance of an advertisement, however its realms were filtered. */
  predicate Of(c: Copy, key: LsaKey, n: nat) {
    c.lsa.key == key && c.lsa.seq_ == n && !c.lsa.dead
  }

  /** A node that needs this instance no more. */
  ghost predicate Has(st: FloodState, x: NodeId, key: LsaKey, n: nat) {
    x in st.dbs && key in st.dbs[x] && st.dbs[x][key].lsa.seq_ >= n
  }

  /** The withdrawal removes the record of the key where it comes in. */
  ghost predicate ErasesAt(st: FloodState, copy: Copy, key: LsaKey) {
    && copy.at.node in st.dbs && copy.lsa.key.origin != copy.at.node
    && Erases(st.dbs[copy.at.node], copy.lsa, key)
  }

  /** The event withdraws no record of the key, and no node forgets the instance. */
  ghost predicate Keeps(st: FloodState, e: Event, key: LsaKey, n: nat) {
    match e
    case Arrival(copy) => !ErasesAt(st, copy, key)
    case Loss(_) => true
    case Act(x, db, _) => Has(st, x, key, n) ==> key in db && db[key].lsa.seq_ >= n
  }

  /** Steps i to k - 1 keep the instance where it is. */
  ghost predicate Kept(run: seq<FloodState>, events: seq<Event>, key: LsaKey, n: nat, i: nat, k: nat) {
    forall m {:trigger events[m]} :: i <= m < k && m < |events| && m < |run| ==> Keeps(run[m], events[m], key, n)
  }

  /** And no node sends copies of the instance of its own accord. */
  ghost predicate Spared(run: seq<FloodState>, events: seq<Event>, key: LsaKey, n: nat) {
    && Kept(run, events, key, n, 0, |events|)
    && forall m :: 0 <= m < |events| && events[m].Act? ==> forall c :: c in events[m].sent ==> !Of(c, key, n)
  }

  /** The node at which a live copy is handled takes it and floods it on. */
  ghost predicate Takes(st: FloodState, copy: Copy) {
    && !copy.lsa.dead && copy.at.node in st.dbs
    && copy.lsa.key.origin != copy.at.node && Newer(st.dbs[copy.at.node], copy.lsa)
  }

  /** What a flood puts on the wires are filtered copies of the same instance. */
  lemma LaunchSends(fabric: Fabric, x: NodeId, nextHop: map<NodeId, Link>, lsa: Lsa, inConn: Option<ConnectionId>,
                    copy: Copy)
    requires x in fabric.speakers
    requires copy in Launch(fabric, x, FloodBatch(fabric.speakers[x].links, nextHop, lsa, inConn))
    ensures copy.lsa.key == lsa.key && copy.lsa.seq_ == lsa.seq_ && copy.lsa.dead == lsa.dead
    ensures lsa.body.EndpointBody? ==> copy.lsa == lsa
    ensures exists c :: End(x, c) in fabric.wires && copy.at == fabric.wires[End(x, c)] && c in fabric.speakers[x].links
  {
  }

  /** Stored sequence numbers never go back, withdrawals aside. */
  lemma HandleMonotone(fabric: Fabric, st: FloodState, copy: Copy, nextHop: map<NodeId, Link>, now: nat, x: NodeId,
                       key: LsaKey)
    requires copy.at.node in fabric.speakers && copy.at.node in st.dbs && x in st.dbs && key in st.dbs[x]
    requires copy.at.node == x ==> !ErasesAt(st, copy, key)
    ensures var st' := Handle(fabric, st, copy, nextHop, now);
            x in st'.dbs && key in st'.dbs[x] && st.dbs[x][key].lsa.seq_ <= st'.dbs[x][key].lsa.seq_
  {
  }

  lemma StepKeepsHas(fabric: Fabric, st: FloodState, e: Event, st': FloodState, key: LsaKey, n: nat, x: NodeId)
    requires Happens(fabric, st, e, st') && Keeps(st, e, key, n) && Has(st, x, key, n)
    ensures Has(st', x, key, n)
  {
    if e.Arrival? {
      var nextHop :| Handles(fabric, st, e.copy, nextHop, st');
      var now :| st' == Handle(fabric, st, e.copy, nextHop, now);
      HandleMonotone(fabric, st, e.copy, nextHop, now, x, key);
    }
  }

  lemma {:induction false} HasStays(fabric: Fabric, run: seq<FloodState>, events: seq<Event>, key: LsaKey, n: nat,
                                    x: NodeId, i: nat, k: nat)
    requires AnyRun(fabric, run, events) && i <= k < |run| && Has(run[i], x, key, n) && Kept(run, events, key, n, i, k)
    ensures Has(run[k], x, key, n)
    decreases k - i
  {
    if i < k {
      HasStays(fabric, run, events, key, n, x, i, k - 1);
      assert StepsAt(fabric, run, events, k - 1);
      StepKeepsHas(fabric, run[k - 1], events[k - 1], run[k], key, n, x);
    }
  }

  /** A record that a node does not drop of its own accord goes only through a
      withdrawal: of its own key and numbered above it, or of a router record of its
      origin and numbered above that. */
  lemma {:induction false} ErasedBy(fabric: Fabric, run: seq<FloodState>, events: seq<Event>, x: NodeId, key: LsaKey,
                                    i: nat, k: nat) returns (m: nat)
    requires AnyRun(fabric, run, events) && i <= k < |run| && x in run[i].dbs && key in run[i].dbs[x]
    requires forall j {:trigger events[j]} :: i <= j < k && events[j].Act? ==> events[j].node != x
    requires x !in run[k].dbs || key !in run[k].dbs[x]
    ensures i <= m < k && events[m].Arrival? && events[m].copy.at.node == x && x in run[m].dbs
    ensures var db, lsa := run[m].dbs[x], events[m].copy.lsa;
            && lsa.dead && lsa.key in db && db[lsa.key].lsa.seq_ < lsa.seq_
            && ((lsa.key == key && run[i].dbs[x][key].lsa.seq_ < lsa.seq_) ||
                (lsa.key.origin == key.origin && db[lsa.key].lsa.body.Router?))
    decreases k - i
  {
    assert StepsAt(fabric, run, events, i);
    if events[i].Arrival? {
      var nextHop, now := ArrivalOf(fabric, run, events, i);
      var copy := events[i].copy;
      if copy.at.node == x {
        ErasedExactly(run[i].dbs[x], x, copy.lsa, now, key);
      }
      if copy.at.node == x && key !in run[i + 1].dbs[x] {
        return i;
      }
      HandleMonotone(fabric, run[i], copy, nextHop, now, x, key);
    }
    m := ErasedBy(fabric, run, events, x, key, i + 1, k);
  }

  /** A node takes and re-floods an instance at most once, and nothing older after
      it, as long as its record is not withdrawn and the node does not forget it in
      between. */
  lemma TakenOnce(fabric: Fabric, run: seq<FloodState>, events: seq<Event>, i: nat, j: nat)
    requires AnyRun(fabric, run, events) && i < j < |events| && events[i].Arrival? && events[j].Arrival?
    requires var a, b := events[i].copy, events[j].copy;
             a.lsa.key == b.lsa.key && b.lsa.seq_ <= a.lsa.seq_ && a.at.node == b.at.node
    requires Takes(run[i], events[i].copy)
    requires Kept(run, events, events[i].copy.lsa.key, events[i].copy.lsa.seq_, i, j)
    ensures !Takes(run[j], events[j].copy)
  {
    var a := events[i].copy;
    var nextHop, now := ArrivalOf(fabric, run, events, i);
    HasStays(fabric, run, events, a.lsa.key, a.lsa.seq_, a.at.node, i + 1, j);
  }

  // ------------------------------------------------------------------- counting

  ghost function Count(m: multiset<Copy>, key: LsaKey, n: nat): nat
    decreases |m|
  {
    if m == multiset{} then 0
    else
      var c :| c in m;
      (if Of(c, key, n) then 1 else 0) + Count(m - multiset{c}, key, n)
  }

  lemma TakeBoth(m: multiset<Copy>, c: Copy, d: Copy)
    requires c in m && d in m && c != d
    ensures c in m - multiset{d} && d in m - multiset{c}
    ensures m - multiset{d} - multiset{c} == m - multiset{c} - multiset{d}
    ensures |m - multiset{d}| < |m| && |m - multiset{c}| < |m|
  {
  }

  lemma {:induction false} CountMinus(m: multiset<Copy>, c: Copy, key: LsaKey, n: nat)
    requires c in m
    ensures Count(m, key, n) == (if Of(c, key, n) then 1 else 0) + Count(m - multiset{c}, key, n)
    decreases |m|
  {
    var d :| d in m && Count(m, key, n) == (if Of(d, key, n) then 1 else 0) + Count(m - multiset{d}, key, n);
    if d != c {
      TakeBoth(m, c, d);
      CountMinus(m - multiset{d}, c, key, n);
      CountMinus(m - multiset{c}, d, key, n);
    }
  }

  lemma {:induction false} CountPlus(m: multiset<Copy>, more: multiset<Copy>, key: LsaKey, n: nat)
    ensures Count(m + more, key, n) == Count(m, key, n) + Count(more, key, n)
    decreases |more|
  {
    if more == multiset{} {
      assert m + more == m;
    } else {
      var c :| c in more;
      CountMinus(more, c, key, n);
      CountMinus(m + more, c, key, n);
      assert m + more - multiset{c} == m + (more - multiset{c});
      CountPlus(m, more - multiset{c}, key, n);
    }
  }

  lemma {:induction false} CountBounds(m: multiset<Copy>, key: LsaKey, n: nat)
    ensures Count(m, key, n) <= |m|
    ensures (forall c :: c in m ==> !Of(c, key, n)) ==> Count(m, key, n) == 0
    decreases |m|
  {
    if m != multiset{} {
      var c :| c in m;
      CountMinus(m, c, key, n);
      CountBounds(m - multiset{c}, key, n);
    }
  }

  function Degree(fabric: Fabric, x: NodeId): nat
    requires x in fabric.speakers
  {
    |fabric.speakers[x].links|
  }

  /** The number of link ends at these nodes. */
  ghost function Degrees(fabric: Fabric, xs: set<NodeId>): nat
    requires xs <= fabric.speakers.Keys
  {
    if xs == {} then 0
    else
      var x :| x in xs;
      Degree(fabric, x) + Degrees(fabric, xs - {x})
  }

  lemma {:induction false} DegreesMinus(fabric: Fabric, xs: set<NodeId>, y: NodeId)
    requires xs <= fabric.speakers.Keys && y in xs
    ensures Degrees(fabric, xs) == Degree(fabric, y) + Degrees(fabric, xs - {y})
  {
    var x :| x in xs && Degrees(fabric, xs) == Degree(fabric, x) + Degrees(fabric, xs - {x});
    if x != y {
      DegreesMinus(fabric, xs - {x}, y);
      DegreesMinus(fabric, xs - {y}, x);
      assert xs - {x} - {y} == xs - {y} - {x};
    }
  }

  lemma {:induction false} FewerDegrees(fabric: Fabric, xs: set<NodeId>, ys: set<NodeId>)
    requires xs <= ys <= fabric.speakers.Keys
    ensures Degrees(fabric, xs) <= Degrees(fabric, ys)
    decreases |ys|
  {
    if y :| y in ys && y !in xs {
      DegreesMinus(fabric, ys, y);
      FewerDegrees(fabric, xs, ys - {y});
    } else {
      assert xs == ys;
    }
  }

  /** The nodes that may still take the instance. */
  ghost function Lacking(fabric: Fabric, st: FloodState, key: LsaKey, n: nat): set<NodeId> {
    set x | x in fabric.speakers && x in st.dbs && !Has(st, x, key, n)
  }

  lemma {:induction false} LaunchSize(fabric: Fabric, x: NodeId, batch: map<ConnectionId, Lsa>,
                                      conns: set<ConnectionId>)
    requires conns <= batch.Keys
    ensures |set c | c in conns && End(x, c) in fabric.wires :: Copy(fabric.wires[End(x, c)], batch[c])| <= |conns|
    decreases conns
  {
    if conns != {} {
      var d :| d in conns;
      var rest := conns - {d};
      LaunchSize(fabric, x, batch, rest);
      var all := set c | c in conns && End(x, c) in fabric.wires :: Copy(fabric.wires[End(x, c)], batch[c]);
      var some := set c | c in rest && End(x, c) in fabric.wires :: Copy(fabric.wires[End(x, c)], batch[c]);
      if End(x, d) in fabric.wires {
        assert all == some + {Copy(fabric.wires[End(x, d)], batch[d])};
      } else {
        assert all == some;
      }
    }
  }

  lemma {:induction false} SmallerSet(a: set<ConnectionId>, b: set<ConnectionId>)
    requires a <= b
    ensures |a| <= |b|
  {
    if a != {} {
      var c :| c in a;
      SmallerSet(a - {c}, b - {c});
    }
  }

  lemma FloodSize(fabric: Fabric, copy: Copy, nextHop: map<NodeId, Link>)
    requires copy.at.node in fabric.speakers
    ensures |Flooded(fabric, copy, nextHop)| <= Degree(fabric, copy.at.node)
  {
    var x, lsa := copy.at.node, copy.lsa;
    var batch := FloodBatch(fabric.speakers[x].links, nextHop, lsa, if lsa.dead then None else Some(copy.at.conn));
    assert (set c | c in batch && End(x, c) in fabric.wires :: Copy(fabric.wires[End(x, c)], batch[c])) ==
           (set c | c in batch.Keys && End(x, c) in fabric.wires :: Copy(fabric.wires[End(x, c)], batch[c]));
    LaunchSize(fabric, x, batch, batch.Keys);
    SmallerSet(batch.Keys, fabric.speakers[x].links.Keys);
  }

  /** Copies in flight, and all that nodes which lack the instance can still send. */
  ghost function Pressure(fabric: Fabric, st: FloodState, key: LsaKey, n: nat): nat {
    Count(st.inflight, key, n) + Degrees(fabric, Lacking(fabric, st, key, n))
  }

  lemma LackingShrinks(fabric: Fabric, st: FloodState, copy: Copy, nextHop: map<NodeId, Link>, now: nat, key: LsaKey,
                       n: nat)
    requires copy.at.node in fabric.speakers && copy.at.node in st.dbs && !ErasesAt(st, copy, key)
    ensures var st' := Handle(fabric, st, copy, nextHop, now);
            && Lacking(fabric, st', key, n) <= Lacking(fabric, st, key, n)
            && (Of(copy, key, n) && Fresh(st.dbs[copy.at.node], copy.at.node, copy.lsa) ==>
                  copy.at.node in Lacking(fabric, st, key, n) && copy.at.node !in Lacking(fabric, st', key, n))
  {
    var st' := Handle(fabric, st, copy, nextHop, now);
    forall x | x in Lacking(fabric, st', key, n) ensures x in Lacking(fabric, st, key, n) {
      if x in st.dbs && key in st.dbs[x] {
        HandleMonotone(fabric, st, copy, nextHop, now, x, key);
      }
    }
  }

  lemma HandlePressure(fabric: Fabric, st: FloodState, copy: Copy, nextHop: map<NodeId, Link>, now: nat, key: LsaKey,
                       n: nat)
    requires copy in st.inflight && copy.at.node in fabric.speakers && copy.at.node in st.dbs
    requires !ErasesAt(st, copy, key)
    ensures Pressure(fabric, Handle(fabric, st, copy, nextHop, now), key, n) + (if Of(copy, key, n) then 1 else 0) <=
            Pressure(fabric, st, key, n)
  {
    var x := copy.at.node;
    var st' := Handle(fabric, st, copy, nextHop, now);
    var before, after := Lacking(fabric, st, key, n), Lacking(fabric, st', key, n);
    LackingShrinks(fabric, st, copy, nextHop, now, key, n);
    CountMinus(st.inflight, copy, key, n);
    if !Fresh(st.dbs[x], x, copy.lsa) {
      FewerDegrees(fabric, after, before);
    } else {
      CountPlus(st.inflight - multiset{copy}, Flooded(fabric, copy, nextHop), key, n);
      CountBounds(Flooded(fabric, copy, nextHop), key, n);
      if Of(copy, key, n) {
        FloodSize(fabric, copy, nextHop);
        DegreesMinus(fabric, before, x);
        FewerDegrees(fabric, after, before - {x});
      } else {
        OtherFlood(fabric, copy, nextHop, key, n);
        FewerDegrees(fabric, after, before);
      }
    }
  }

  lemma OtherFlood(fabric: Fabric, copy: Copy, nextHop: map<NodeId, Link>, key: LsaKey, n: nat)
    requires copy.at.node in fabric.speakers && !Of(copy, key, n)
    ensures forall c :: c in Flooded(fabric, copy, nextHop) ==> !Of(c, key, n)
  {
    forall c | c in Flooded(fabric, copy, nextHop) ensures !Of(c, key, n) {
      LaunchSends(fabric, copy.at.node, nextHop, copy.lsa, if copy.lsa.dead then None else Some(copy.at.conn), c);
    }
  }

  /** Does the event handle a copy of the instance? */
  predicate HandlesOf(e: Event, key: LsaKey, n: nat) {
    e.Arrival? && Of(e.copy, key, n)
  }

  /** How many copies of the instance have been handled. */
  function HandledOf(events: seq<Event>, key: LsaKey, n: nat): nat {
    if events == [] then 0
    else HandledOf(events[..|events| - 1], key, n) + if HandlesOf(events[|events| - 1], key, n) then 1 else 0
  }

  /** Losing a copy, or doing something else, sends no copy of the instance on its way. */
  lemma AsidePressure(fabric: Fabric, st: FloodState, e: Event, st': FloodState, key: LsaKey, n: nat)
    requires Happens(fabric, st, e, st') && !e.Arrival? && Keeps(st, e, key, n)
    requires e.Act? ==> forall c :: c in e.sent ==> !Of(c, key, n)
    ensures Pressure(fabric, st', key, n) <= Pressure(fabric, st, key, n)
  {
    match e
    case Loss(copy) =>
      CountMinus(st.inflight, copy, key, n);
      assert Lacking(fabric, st', key, n) == Lacking(fabric, st, key, n);
    case Act(x, db, sent) =>
      CountPlus(st.inflight, sent, key, n);
      CountBounds(sent, key, n);
      forall y | y in Lacking(fabric, st', key, n) ensures y in Lacking(fabric, st, key, n) {
        if Has(st, y, key, n) {
          StepKeepsHas(fabric, st, e, st', key, n, y);
        }
      }
      FewerDegrees(fabric, Lacking(fabric, st', key, n), Lacking(fabric, st, key, n));
  }

  lemma StepPressure(fabric: Fabric, st: FloodState, e: Event, st': FloodState, key: LsaKey, n: nat)
    requires Happens(fabric, st, e, st') && Keeps(st, e, key, n)
    requires e.Act? ==> forall c :: c in e.sent ==> !Of(c, key, n)
    ensures Pressure(fabric, st', key, n) + (if HandlesOf(e, key, n) then 1 else 0) <= Pressure(fabric, st, key, n)
  {
    if e.Arrival? {
      var nextHop :| Handles(fabric, st, e.copy, nextHop, st');
      var now :| st' == Handle(fabric, st, e.copy, nextHop, now);
      HandlePressure(fabric, st, e.copy, nextHop, now, key, n);
    } else {
      AsidePressure(fabric, st, e, st', key, n);
    }
  }

  lemma HandledOneMore(events: seq<Event>, k: nat, key: LsaKey, n: nat)
    requires k < |events|
    ensures HandledOf(events[..k + 1], key, n) ==
            HandledOf(events[..k], key, n) + if HandlesOf(events[k], key, n) then 1 else 0
  {
    assert events[..k + 1][..k] == events[..k];
  }

  lemma {:induction false} PressureAlongRun(fabric: Fabric, run: seq<FloodState>, events: seq<Event>, key: LsaKey,
      n: nat, k: nat)
    requires AnyRun(fabric, run, events) && Spared(run, events, key, n) && k < |run|
    ensures HandledOf(events[..k], key, n) + Pressure(fabric, run[k], key, n) <= Pressure(fabric, run[0], key, n)
  {
    if k > 0 {
      PressureAlongRun(fabric, run, events, key, n, k - 1);
      assert StepsAt(fabric, run, events, k - 1);
      StepPressure(fabric, run[k - 1], events[k - 1], run[k], key, n);
      HandledOneMore(events, k - 1, key, n);
    }
  }

  /** Floods end: for a live instance of any advertisement, in any traffic, with losses,
      with trees that change at every step and nodes that do anything else meanwhile,
      the copies handled and those still in flight are at most those at the start plus
      the link ends of the nodes that lacked it. */
  lemma MessagesBounded(fabric: Fabric, run: seq<FloodState>, events: seq<Event>, key: LsaKey, n: nat, k: nat)
    requires AnyRun(fabric, run, events) && Spared(run, events, key, n) && k < |run|
    ensures HandledOf(events[..k], key, n) + Count(run[k].inflight, key, n) <=
            Count(run[0].inflight, key, n) + Degrees(fabric, Lacking(fabric, run[0], key, n))
    ensures Degrees(fabric, Lacking(fabric, run[0], key, n)) <= Degrees(fabric, fabric.speakers.Keys)
  {
    PressureAlongRun(fabric, run, events, key, n, k);
    FewerDegrees(fabric, Lacking(fabric, run[0], key, n), fabric.speakers.Keys);
  }

  // -------------------------------------------------------------- once per link

  /** Links come in wired pairs that name each other's node. */
  ghost predicate FabricOk(fabric: Fabric) {
    && (forall x, c {:trigger PairedLink(fabric, x, c)} ::
          x in fabric.speakers && c in fabric.speakers[x].links ==> PairedLink(fabric, x, c))
    && (forall a {:trigger PairedWire(fabric, a)} :: a in fabric.wires ==> PairedWire(fabric, a))
  }

  ghost predicate PairedLink(fabric: Fabric, x: NodeId, c: ConnectionId)
    requires x in fabric.speakers && c in fabric.speakers[x].links
  {
    End(x, c) in fabric.wires && fabric.wires[End(x, c)].node == fabric.speakers[x].links[c].peerId
  }

  ghost predicate PairedWire(fabric: Fabric, a: End)
    requires a in fabric.wires
  {
    var b := fabric.wires[a];
    && b in fabric.wires && fabric.wires[b] == a
    && a.node in fabric.speakers && a.conn in fabric.speakers[a.node].links
    && b.node in fabric.speakers && b.conn in fabric.speakers[b.node].links
  }

  /** A copy on its way from a node that has the instance. */
  ghost predicate FromHolder(fabric: Fabric, st: FloodState, c: Copy) {
    c.at in fabric.wires && Has(st, fabric.wires[c.at].node, c.lsa.key, c.lsa.seq_)
  }

  /** At most one copy of the instance at any end, and only from holders. */
  ghost predicate InstanceInv(fabric: Fabric, st: FloodState, key: LsaKey, n: nat) {
    && (forall c {:trigger FromHolder(fabric, st, c)} :: c in st.inflight && Of(c, key, n) ==>
      FromHolder(fabric, st, c))
    && (forall c, d :: c in st.inflight && d in st.inflight && Of(c, key, n) && Of(d, key, n) && c.at == d.at ==>
      c == d)
    && (forall c :: c in st.inflight && Of(c, key, n) ==> st.inflight[c] == 1)
  }

  /** A flood puts one copy on each of the node's wires at most. */
  lemma LaunchApart(fabric: Fabric, x: NodeId, batch: map<ConnectionId, Lsa>)
    requires FabricOk(fabric)
    ensures forall c :: Launch(fabric, x, batch)[c] <= 1
    ensures forall c, d :: c in Launch(fabric, x, batch) && d in Launch(fabric, x, batch) && c.at == d.at ==> c == d
    ensures forall c :: c in Launch(fabric, x, batch) ==> c.at in fabric.wires && fabric.wires[c.at].node == x
  {
    forall e | e in batch && End(x, e) in fabric.wires
      ensures fabric.wires[End(x, e)] in fabric.wires && fabric.wires[fabric.wires[End(x, e)]] == End(x, e)
    {
      assert PairedWire(fabric, End(x, e));
    }
  }

  /** A new copy of the instance comes from a node that lacked it before. */
  ghost predicate New(fabric: Fabric, st: FloodState, copy: Copy, c: Copy) {
    (c !in st.inflight || c == copy) && c.at in fabric.wires && !Has(st, fabric.wires[c.at].node, c.lsa.key, c.lsa.seq_)
  }

  lemma HandleOnce(fabric: Fabric, st: FloodState, copy: Copy, nextHop: map<NodeId, Link>, now: nat, key: LsaKey,
                   n: nat)
    requires FabricOk(fabric) && InstanceInv(fabric, st, key, n) && !ErasesAt(st, copy, key)
    requires copy in st.inflight && copy.at.node in fabric.speakers && copy.at.node in st.dbs
    ensures InstanceInv(fabric, Handle(fabric, st, copy, nextHop, now), key, n)
    ensures forall c :: c in Handle(fabric, st, copy, nextHop, now).inflight && Of(c, key, n) ==>
              (c in st.inflight && c != copy) || New(fabric, st, copy, c)
  {
    var x := copy.at.node;
    var st' := Handle(fabric, st, copy, nextHop, now);
    forall y | Has(st, y, key, n) ensures Has(st', y, key, n) {
      HandleMonotone(fabric, st, copy, nextHop, now, y, key);
    }
    if !Fresh(st.dbs[x], x, copy.lsa) {
      DropOnce(fabric, st, st', copy, key, n);
    } else if Of(copy, key, n) {
      TakeOnce(fabric, st, st', copy, nextHop, key, n);
    } else {
      OtherFlood(fabric, copy, nextHop, key, n);
      OtherOnce(fabric, st, st', copy, Flooded(fabric, copy, nextHop), key, n);
    }
  }

  lemma DropOnce(fabric: Fabric, st: FloodState, st': FloodState, copy: Copy, key: LsaKey, n: nat)
    requires InstanceInv(fabric, st, key, n) && copy in st.inflight
    requires st' == st.(inflight := st.inflight - multiset{copy})
    ensures InstanceInv(fabric, st', key, n)
    ensures forall c :: c in st'.inflight && Of(c, key, n) ==> c in st.inflight && c != copy
  {
    forall c | c in st'.inflight && Of(c, key, n) ensures FromHolder(fabric, st', c) && c != copy {
      assert FromHolder(fabric, st, c);
    }
  }

  lemma OtherOnce(fabric: Fabric, st: FloodState, st': FloodState, copy: Copy, more: multiset<Copy>, key: LsaKey,
                  n: nat)
    requires InstanceInv(fabric, st, key, n) && copy in st.inflight && !Of(copy, key, n)
    requires (forall c :: c in more ==> !Of(c, key, n)) && st'.inflight == st.inflight - multiset{copy} + more
    requires forall y :: Has(st, y, key, n) ==> Has(st', y, key, n)
    ensures InstanceInv(fabric, st', key, n)
    ensures forall c :: c in st'.inflight && Of(c, key, n) ==> c in st.inflight && c != copy
  {
    forall c | c in st'.inflight && Of(c, key, n) ensures FromHolder(fabric, st', c) && c in st.inflight {
      assert FromHolder(fabric, st, c);
    }
  }

  /** What a node sends on when it takes the instance has not been about before. */
  lemma SendsNew(fabric: Fabric, st: FloodState, copy: Copy, nextHop: map<NodeId, Link>, key: LsaKey, n: nat)
    requires FabricOk(fabric) && InstanceInv(fabric, st, key, n) && Of(copy, key, n)
    requires copy.at.node in fabric.speakers && !Has(st, copy.at.node, key, n)
    ensures var more := Flooded(fabric, copy, nextHop);
            && (forall c :: c in more && Of(c, key, n) ==>
                  New(fabric, st, copy, c) && c !in st.inflight && fabric.wires[c.at].node == copy.at.node)
            && (forall c, d :: c in more && d in more && c.at == d.at ==> c == d)
            && (forall c :: more[c] <= 1)
  {
    var x := copy.at.node;
    LaunchApart(fabric, x, FloodBatch(fabric.speakers[x].links, nextHop, copy.lsa, Some(copy.at.conn)));
    forall c | c in Flooded(fabric, copy, nextHop) && Of(c, key, n)
      ensures New(fabric, st, copy, c) && c !in st.inflight
    {
      assert c in st.inflight ==> FromHolder(fabric, st, c);
    }
  }

  lemma TakeOnce(fabric: Fabric, st: FloodState, st': FloodState, copy: Copy, nextHop: map<NodeId, Link>, key: LsaKey,
                 n: nat)
    requires FabricOk(fabric) && InstanceInv(fabric, st, key, n) && copy in st.inflight && Of(copy, key, n)
    requires copy.at.node in fabric.speakers && !Has(st, copy.at.node, key, n) && Has(st', copy.at.node, key, n)
    requires st'.inflight == st.inflight - multiset{copy} + Flooded(fabric, copy, nextHop)
    requires forall y :: Has(st, y, key, n) ==> Has(st', y, key, n)
    ensures InstanceInv(fabric, st', key, n)
    ensures forall c :: c in st'.inflight && Of(c, key, n) ==>
              (c in st.inflight && c != copy) || New(fabric, st, copy, c)
  {
    SendsNew(fabric, st, copy, nextHop, key, n);
    JoinOnce(fabric, st, st', copy, Flooded(fabric, copy, nextHop), key, n);
  }

  lemma JoinOnce(fabric: Fabric, st: FloodState, st': FloodState, copy: Copy, more: multiset<Copy>, key: LsaKey,
                 n: nat)
    requires InstanceInv(fabric, st, key, n) && copy in st.inflight && Of(copy, key, n)
    requires !Has(st, copy.at.node, key, n) && Has(st', copy.at.node, key, n)
    requires st'.inflight == st.inflight - multiset{copy} + more
    requires forall y :: Has(st, y, key, n) ==> Has(st', y, key, n)
    requires forall c :: c in more && Of(c, key, n) ==>
               New(fabric, st, copy, c) && c !in st.inflight && fabric.wires[c.at].node == copy.at.node
    requires (forall c, d :: c in more && d in more && c.at == d.at ==> c == d) && forall c :: more[c] <= 1
    ensures InstanceInv(fabric, st', key, n)
    ensures forall c :: c in st'.inflight && Of(c, key, n) ==>
              (c in st.inflight && c != copy) || New(fabric, st, copy, c)
  {
    forall c | c in st.inflight && Of(c, key, n)
      ensures FromHolder(fabric, st', c) && fabric.wires[c.at].node != copy.at.node
    {
      assert FromHolder(fabric, st, c);
    }
    forall c | c in st'.inflight && Of(c, key, n) ensures FromHolder(fabric, st', c) {
    }
  }

  lemma AsideOnce(fabric: Fabric, st: FloodState, e: Event, st': FloodState, key: LsaKey, n: nat)
    requires InstanceInv(fabric, st, key, n) && Happens(fabric, st, e, st') && !e.Arrival? && Keeps(st, e, key, n)
    requires e.Act? ==> forall c :: c in e.sent ==> !Of(c, key, n)
    ensures InstanceInv(fabric, st', key, n)
    ensures forall c :: c in st'.inflight && Of(c, key, n) ==> c in st.inflight
  {
    forall c | c in st'.inflight && Of(c, key, n) ensures FromHolder(fabric, st', c) && c in st.inflight {
      assert FromHolder(fabric, st, c);
      StepKeepsHas(fabric, st, e, st', key, n, fabric.wires[c.at].node);
    }
  }

  /** A run that starts with at most one copy of the instance at any end. */
  ghost predicate InstanceRun(fabric: Fabric, run: seq<FloodState>, events: seq<Event>, key: LsaKey, n: nat) {
    && FabricOk(fabric) && AnyRun(fabric, run, events) && Spared(run, events, key, n)
    && InstanceInv(fabric, run[0], key, n)
  }

  lemma {:induction false} InstanceAlongRun(fabric: Fabric, run: seq<FloodState>, events: seq<Event>, key: LsaKey,
      n: nat, k: nat)
    requires InstanceRun(fabric, run, events, key, n) && k < |run|
    ensures InstanceInv(fabric, run[k], key, n)
  {
    if k > 0 {
      InstanceAlongRun(fabric, run, events, key, n, k - 1);
      if events[k - 1].Arrival? {
        var nextHop, now := ArrivalOf(fabric, run, events, k - 1);
        HandleOnce(fabric, run[k - 1], events[k - 1].copy, nextHop, now, key, n);
      } else {
        assert StepsAt(fabric, run, events, k - 1);
        AsideOnce(fabric, run[k - 1], events[k - 1], run[k], key, n);
      }
    }
  }

  /** What a step puts at an end. */
  lemma StepBrings(fabric: Fabric, run: seq<FloodState>, events: seq<Event>, key: LsaKey, n: nat, k: nat, c: Copy)
    requires InstanceRun(fabric, run, events, key, n) && k < |events| && c in run[k + 1].inflight && Of(c, key, n)
    ensures if events[k].Arrival? then
              (c in run[k].inflight && c != events[k].copy) || New(fabric, run[k], events[k].copy, c)
            else c in run[k].inflight
  {
    InstanceAlongRun(fabric, run, events, key, n, k);
    if events[k].Arrival? {
      var nextHop, now := ArrivalOf(fabric, run, events, k);
      HandleOnce(fabric, run[k], events[k].copy, nextHop, now, key, n);
    } else {
      assert StepsAt(fabric, run, events, k);
      AsideOnce(fabric, run[k], events[k], run[k + 1], key, n);
    }
  }

  /** Once a copy of the instance has been handled at an end, none is there again. */
  lemma {:induction false} NeverAgain(fabric: Fabric, run: seq<FloodState>, events: seq<Event>, key: LsaKey, n: nat,
                                      i: nat, k: nat, c: Copy)
    requires InstanceRun(fabric, run, events, key, n) && i < k < |run| && HandlesOf(events[i], key, n)
    requires Of(c, key, n) && c.at == events[i].copy.at
    ensures c !in run[k].inflight
    decreases k
  {
    if c in run[k].inflight {
      StepBrings(fabric, run, events, key, n, k - 1, c);
      InstanceAlongRun(fabric, run, events, key, n, i);
      var nextHop, now := ArrivalOf(fabric, run, events, i);
      assert FromHolder(fabric, run[i], events[i].copy);
      HasStays(fabric, run, events, key, n, fabric.wires[c.at].node, i, k - 1);
      if i < k - 1 {
        NeverAgain(fabric, run, events, key, n, i, k - 1, c);
      }
    }
  }

  /** Every link direction carries an instance at most once. */
  lemma OncePerLink(fabric: Fabric, run: seq<FloodState>, events: seq<Event>, key: LsaKey, n: nat, i: nat, j: nat)
    requires InstanceRun(fabric, run, events, key, n) && i < j < |events|
    requires HandlesOf(events[i], key, n) && HandlesOf(events[j], key, n)
    ensures events[i].copy.at != events[j].copy.at
  {
    if events[i].copy.at == events[j].copy.at {
      NeverAgain(fabric, run, events, key, n, i, j, events[j].copy);
      var nextHop, now := ArrivalOf(fabric, run, events, j);
    }
  }

  // ------------------------------------------------------------- a fresh flood

  /** The origin stores a new instance of its own advertisement and floods it. The
      first announcement of an endpoint skips connection 0, later ones nothing. */
  function Issue(fabric: Fabric, st: FloodState, lsa: Lsa, skip: Option<ConnectionId>, nextHop: map<NodeId, Link>,
                 now: nat): FloodState
    requires lsa.key.origin in fabric.speakers && lsa.key.origin in st.dbs
  {
    var o := lsa.key.origin;
    FloodState(
      st.dbs[o := st.dbs[o][lsa.key := LsaRecord(lsa, now)]],
      st.inflight + Launch(fabric, o, FloodBatch(fabric.speakers[o].links, nextHop, lsa, skip)))
  }

  /** A live instance that no node has and no message carries yet. */
  ghost predicate IsNew(fabric: Fabric, st: FloodState, lsa: Lsa) {
    && !lsa.dead && lsa.key.origin in fabric.speakers && lsa.key.origin in st.dbs
    && (forall y :: !Has(st, y, lsa.key, lsa.seq_))
    && (forall c :: c in st.inflight ==> !Of(c, lsa.key, lsa.seq_))
  }

  lemma IssuePressure(fabric: Fabric, st: FloodState, lsa: Lsa, skip: Option<ConnectionId>, nextHop: map<NodeId, Link>,
                      now: nat)
    requires IsNew(fabric, st, lsa)
    ensures Pressure(fabric, Issue(fabric, st, lsa, skip, nextHop, now), lsa.key, lsa.seq_) <=
            Degrees(fabric, fabric.speakers.Keys)
  {
    var o := lsa.key.origin;
    var batch := FloodBatch(fabric.speakers[o].links, nextHop, lsa, skip);
    var st' := Issue(fabric, st, lsa, skip, nextHop, now);
    CountPlus(st.inflight, Launch(fabric, o, batch), lsa.key, lsa.seq_);
    CountBounds(st.inflight, lsa.key, lsa.seq_);
    CountBounds(Launch(fabric, o, batch), lsa.key, lsa.seq_);
    assert (set c | c in batch && End(o, c) in fabric.wires :: Copy(fabric.wires[End(o, c)], batch[c])) ==
           (set c | c in batch.Keys && End(o, c) in fabric.wires :: Copy(fabric.wires[End(o, c)], batch[c]));
    LaunchSize(fabric, o, batch, batch.Keys);
    SmallerSet(batch.Keys, fabric.speakers[o].links.Keys);
    DegreesMinus(fabric, fabric.speakers.Keys, o);
    FewerDegrees(fabric, Lacking(fabric, st', lsa.key, lsa.seq_), fabric.speakers.Keys - {o});
  }

  lemma IssueOnce(fabric: Fabric, st: FloodState, lsa: Lsa, skip: Option<ConnectionId>, nextHop: map<NodeId, Link>,
                  now: nat)
    requires FabricOk(fabric) && IsNew(fabric, st, lsa)
    ensures InstanceInv(fabric, Issue(fabric, st, lsa, skip, nextHop, now), lsa.key, lsa.seq_)
  {
    var o := lsa.key.origin;
    var st' := Issue(fabric, st, lsa, skip, nextHop, now);
    LaunchApart(fabric, o, FloodBatch(fabric.speakers[o].links, nextHop, lsa, skip));
    forall c | c in st'.inflight && Of(c, lsa.key, lsa.seq_) ensures FromHolder(fabric, st', c) {
    }
  }

  /** Issuing any live advertisement, for an endpoint or a router, causes at most as
      many messages as there are link ends, and at most one per link direction,
      whatever realms the links carry, whatever else is in flight, lost or done
      meanwhile, and however the trees change, as long as its record is withdrawn nowhere
      and no node forgets it or sends it anew. */
  lemma FloodTerminates(fabric: Fabric, st: FloodState, lsa: Lsa, skip: Option<ConnectionId>,
                        nextHop: map<NodeId, Link>, now: nat, run: seq<FloodState>, events: seq<Event>, k: nat)
    requires IsNew(fabric, st, lsa)
    requires AnyRun(fabric, run, events) && run[0] == Issue(fabric, st, lsa, skip, nextHop, now)
    requires Spared(run, events, lsa.key, lsa.seq_) && k < |run|
    ensures HandledOf(events[..k], lsa.key, lsa.seq_) + Count(run[k].inflight, lsa.key, lsa.seq_) <=
            Degrees(fabric, fabric.speakers.Keys)
    ensures FabricOk(fabric) ==>
              forall i, j | 0 <= i < j < |events| ::
                HandlesOf(events[i], lsa.key, lsa.seq_) && HandlesOf(events[j], lsa.key, lsa.seq_) ==>
                  events[i].copy.at != events[j].copy.at
  {
    IssuePressure(fabric, st, lsa, skip, nextHop, now);
    PressureAlongRun(fabric, run, events, lsa.key, lsa.seq_, k);
    if FabricOk(fabric) {
      IssueOnce(fabric, st, lsa, skip, nextHop, now);
      forall i, j |
        0 <= i < j < |events| && HandlesOf(events[i], lsa.key, lsa.seq_) && HandlesOf(events[j], lsa.key, lsa.seq_)
        ensures events[i].copy.at != events[j].copy.at
      {
        OncePerLink(fabric, run, events, lsa.key, lsa.seq_, i, j);
      }
    }
  }
}
