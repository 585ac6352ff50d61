/** Who gets a packet, exactly: over arbitrary fixed tables, a node accepts a
    packet if and only if its reverse path to the sender is, link by link, a path
    along which the packet is handed on. */
module Trails {
  import opened Routing
  import opened Spf
  import opened SpfTheorems
  import opened Forwarding
  import opened PacketNet

  const AllOpen: Queues := Queues({}, {})

  /** A run in which no queue refuses and no link loses a copy. */
  ghost predicate LosslessRun(net: Net, to: Address, from: NodeId, run: seq<State>) {
    && run != [] && from in net.fibs
    && run[0] == Inject(net, to, from, AllOpen)
    && Arrivals(net, to, from, run)
  }

  ghost predicate Arrivals(net: Net, to: Address, from: NodeId, run: seq<State>) {
    forall i: nat {:trigger Arrives(net, to, from, run, i)} :: Arrives(net, to, from, run, i)
  }

  ghost predicate Arrives(net: Net, to: Address, from: NodeId, run: seq<State>, i: nat) {
    i + 1 < |run| ==> LosslessStep(net, to, from, run[i], run[i + 1])
  }

  ghost predicate LosslessStep(net: Net, to: Address, from: NodeId, st: State, st': State) {
    exists at :: ArrivesAt(net, to, from, st, at, st')
  }

  ghost predicate ArrivesAt(net: Net, to: Address, from: NodeId, st: State, at: End, st': State) {
    at in st.inflight && at.node in net.fibs && st' == Arrive(net, to, from, st, at, AllOpen)
  }

  lemma ArrivalAt(net: Net, to: Address, from: NodeId, run: seq<State>, i: nat) returns (at: End)
    requires Arrivals(net, to, from, run) && i + 1 < |run|
    ensures ArrivesAt(net, to, from, run[i], at, run[i + 1])
  {
    assert Arrives(net, to, from, run, i);
    at :| ArrivesAt(net, to, from, run[i], at, run[i + 1]);
  }

  lemma LosslessIsRun(net: Net, to: Address, from: NodeId, run: seq<State>)
    requires LosslessRun(net, to, from, run)
    ensures Run(net, to, from, run)
  {
    forall i: nat ensures Follows(net, to, from, run, i) {
      if i + 1 < |run| {
        var at := ArrivalAt(net, to, from, run, i);
        assert StepAt(net, to, from, run[i], at, run[i + 1]);
      }
    }
  }

  lemma {:induction false} AllTaken(hops: seq<Hop>)
    ensures Taken(hops, AllOpen) == hops
  {
    if hops != [] {
      AllTaken(hops[1..]);
    }
  }

  // -------------------------------------------------------------- handing on

  /** The hops a node uses once it has the packet: the sender all of its entry,
      others the listeners and the links off the back path. */
  function OutHops(net: Net, to: Address, from: NodeId, x: NodeId): seq<Hop>
    requires x in net.fibs
  {
    var fib := net.fibs[x];
    var e := to.GetEndpoint(fib.ourId);
    if e !in fib.table then []
    else if x == from then Hops(fib.table[e])
    else Locals(Hops(fib.table[e])) + Onward(fib, from, Hops(fib.table[e]))
  }

  /** The ends at which a node's copies arrive. */
  function Sends(net: Net, to: Address, from: NodeId, x: NodeId): multiset<End>
    requires x in net.fibs
  {
    Copies(net, x, OutHops(net, to, from, x))
  }

  /** y sends a copy to the one end at which x accepts. */
  ghost predicate Hands(net: Net, to: Address, from: NodeId, y: NodeId, x: NodeId) {
    && y in net.fibs && x in net.fibs && x != from && from in net.fibs[x].nextHop
    && BackEnd(net, from, x) in Sends(net, to, from, y)
  }

  /** A path along which the packet is handed on from its sender. */
  ghost predicate Trail(net: Net, to: Address, from: NodeId, path: seq<NodeId>) {
    && path != [] && path[0] == from
    && forall i: nat {:trigger HandsAt(net, to, from, path, i)} :: HandsAt(net, to, from, path, i)
  }

  ghost predicate HandsAt(net: Net, to: Address, from: NodeId, path: seq<NodeId>, i: nat) {
    i + 1 < |path| ==> Hands(net, to, from, path[i], path[i + 1])
  }

  ghost predicate Trailed(net: Net, to: Address, from: NodeId, x: NodeId) {
    exists path :: Trail(net, to, from, path) && path[|path| - 1] == x
  }

  lemma TrailedOn(net: Net, to: Address, from: NodeId, y: NodeId, x: NodeId)
    requires Trailed(net, to, from, y) && Hands(net, to, from, y, x)
    ensures Trailed(net, to, from, x)
  {
    var path :| Trail(net, to, from, path) && path[|path| - 1] == y;
    TrailExtends(net, to, from, path, x);
    assert (path + [x])[|path + [x]| - 1] == x;
  }

  lemma HandsAsIn(net: Net, to: Address, from: NodeId, path: seq<NodeId>, longer: seq<NodeId>, i: nat)
    requires i + 1 < |path| && path <= longer
    requires forall k: nat {:trigger HandsAt(net, to, from, path, k)} :: HandsAt(net, to, from, path, k)
    ensures HandsAt(net, to, from, longer, i)
  {
    assert HandsAt(net, to, from, path, i) && longer[i] == path[i] && longer[i + 1] == path[i + 1];
  }

  lemma HandsLast(net: Net, to: Address, from: NodeId, longer: seq<NodeId>, y: NodeId, x: NodeId, i: nat)
    requires i + 2 == |longer| && longer[i] == y && longer[i + 1] == x && Hands(net, to, from, y, x)
    ensures HandsAt(net, to, from, longer, i)
  {
  }

  lemma TrailExtends(net: Net, to: Address, from: NodeId, path: seq<NodeId>, x: NodeId)
    requires Trail(net, to, from, path) && Hands(net, to, from, path[|path| - 1], x)
    ensures Trail(net, to, from, path + [x])
  {
    var longer := path + [x];
    forall i: nat ensures HandsAt(net, to, from, longer, i) {
      if i + 1 < |path| {
        HandsAsIn(net, to, from, path, longer, i);
      } else if i + 1 == |path| {
        HandsLast(net, to, from, longer, path[|path| - 1], x, i);
      }
    }
  }

  lemma SenderTrailed(net: Net, to: Address, from: NodeId)
    ensures Trailed(net, to, from, from)
  {
    forall i: nat ensures HandsAt(net, to, from, [from], i) {
    }
    assert Trail(net, to, from, [from]) && [from][0] == from;
  }

  /** Nobody but the node at the far end of x's reverse-path link can hand it the
      packet: the only trail to a node is its own way back, reversed. */
  lemma {:induction false} TrailIsUnique(net: Net, to: Address, from: NodeId, p: seq<NodeId>, q: seq<NodeId>)
    requires NetOk(net) && Trail(net, to, from, p) && Trail(net, to, from, q) && p[|p| - 1] == q[|q| - 1]
    ensures p == q
    decreases |p|
  {
    if |p| > 1 || |q| > 1 {
      BothStep(net, to, from, p, q);
      TrailIsUnique(net, to, from, p[..|p| - 1], q[..|q| - 1]);
      assert p == p[..|p| - 1] + [p[|p| - 1]] && q == q[..|q| - 1] + [q[|q| - 1]];
    }
  }

  lemma BothStep(net: Net, to: Address, from: NodeId, p: seq<NodeId>, q: seq<NodeId>)
    requires NetOk(net) && Trail(net, to, from, p) && Trail(net, to, from, q) && p[|p| - 1] == q[|q| - 1]
    requires |p| > 1 || |q| > 1
    ensures |p| > 1 && |q| > 1 && p[|p| - 2] == q[|q| - 2]
    ensures Trail(net, to, from, p[..|p| - 1]) && Trail(net, to, from, q[..|q| - 1])
  {
    if |p| > 1 {
      LastStep(net, to, from, p);
    }
    if |q| > 1 {
      LastStep(net, to, from, q);
    }
    FeederIsUnique(net, to, from, p[|p| - 2], q[|q| - 2], p[|p| - 1]);
  }

  lemma LastStep(net: Net, to: Address, from: NodeId, p: seq<NodeId>)
    requires Trail(net, to, from, p) && |p| > 1
    ensures Trail(net, to, from, p[..|p| - 1])
    ensures Hands(net, to, from, p[|p| - 2], p[|p| - 1]) && p[|p| - 1] != from
  {
    var front := p[..|p| - 1];
    forall i: nat ensures HandsAt(net, to, from, front, i) {
      assert HandsAt(net, to, from, p, i);
    }
    assert HandsAt(net, to, from, p, |p| - 2);
  }

  lemma FeederIsUnique(net: Net, to: Address, from: NodeId, y: NodeId, z: NodeId, x: NodeId)
    requires NetOk(net) && Hands(net, to, from, y, x) && Hands(net, to, from, z, x)
    ensures y == z
  {
    SentOverWire(net, y, OutHops(net, to, from, y));
    SentOverWire(net, z, OutHops(net, to, from, z));
  }

  lemma {:induction false} SentOverWire(net: Net, x: NodeId, hops: seq<Hop>)
    ensures forall e :: e in Copies(net, x, hops) <==> SentVia(net, x, hops, e)
  {
    if hops != [] {
      SentOverWire(net, x, hops[1..]);
      assert forall h :: h in hops <==> h == hops[0] || h in hops[1..];
      forall e ensures e in Copies(net, x, hops) <==> SentVia(net, x, hops, e) {
        if e in Copies(net, x, hops[1..]) {
          var h :| h in hops[1..] && h.Remote? && End(x, h.link.connectionId) in net.wires &&
                   net.wires[End(x, h.link.connectionId)] == e;
          assert h in hops;
        }
      }
    }
  }

  // ---------------------------------------------------------------- invariant

  ghost predicate HasSent(from: NodeId, st: State, x: NodeId) {
    x == from || x in st.accepted
  }

  /** Everyone to whom y hands the packet has it or has its copy on the way. */
  ghost predicate HandedOn(net: Net, to: Address, from: NodeId, st: State, y: NodeId) {
    forall x :: Hands(net, to, from, y, x) ==> x in st.accepted || BackEnd(net, from, x) in st.inflight
  }

  ghost predicate SentBySomeone(net: Net, to: Address, from: NodeId, st: State, e: End) {
    exists y :: y in net.fibs && HasSent(from, st, y) && e in Sends(net, to, from, y)
  }

  /** What a listener gets from its node. */
  function Owed(net: Net, to: Address, from: NodeId, r: Receipt): nat {
    if r.node in net.fibs then Receipts(r.node, OutHops(net, to, from, r.node))[r] else 0
  }

  ghost predicate Delivers(net: Net, to: Address, from: NodeId, st: State, r: Receipt) {
    st.delivered[r] == if HasSent(from, st, r.node) then Owed(net, to, from, r) else 0
  }

  ghost predicate TrailInv(net: Net, to: Address, from: NodeId, st: State) {
    && (forall y {:trigger HandedOn(net, to, from, st, y)} :: HasSent(from, st, y) ==> HandedOn(net, to, from, st, y))
    && (forall y {:trigger Trailed(net, to, from, y)} :: HasSent(from, st, y) ==> Trailed(net, to, from, y))
    && (forall e {:trigger SentBySomeone(net, to, from, st, e)} :: e in st.inflight ==>
      SentBySomeone(net, to, from, st, e))
    && (forall r {:trigger Delivers(net, to, from, st, r)} :: Delivers(net, to, from, st, r))
  }

  lemma {:induction false} OwnReceipts(x: NodeId, hops: seq<Hop>)
    ensures forall r :: r in Receipts(x, hops) ==> r.node == x
  {
    if hops != [] {
      OwnReceipts(x, hops[1..]);
    }
  }

  lemma InjectTrails(net: Net, to: Address, from: NodeId)
    requires from in net.fibs
    ensures TrailInv(net, to, from, Inject(net, to, from, AllOpen))
  {
    var st := Inject(net, to, from, AllOpen);
    AllTaken(SendHops(net.fibs[from], to));
    OwnReceipts(from, SendHops(net.fibs[from], to));
    SenderTrailed(net, to, from);
    assert OutHops(net, to, from, from) == SendHops(net.fibs[from], to);
    forall e | e in st.inflight ensures SentBySomeone(net, to, from, st, e) {
      assert e in Sends(net, to, from, from);
    }
  }

  lemma ArriveTrails(net: Net, to: Address, from: NodeId, st: State, at: End)
    requires NetOk(net) && Inv(net, from, st) && TrailInv(net, to, from, st) && at in st.inflight && at.node in net.fibs
    ensures TrailInv(net, to, from, Arrive(net, to, from, st, at, AllOpen))
  {
    var fib := net.fibs[at.node];
    var st' := Arrive(net, to, from, st, at, AllOpen);
    AllTaken(ForwardHops(fib, to, from, at.conn));
    if Accepts(fib, from, at.conn) {
      assert at == BackEnd(net, from, at.node);
      assert at.node in st.accepted ==> UsedUp(net, from, st, at.node);
      AcceptTrails(net, to, from, st, st', at.node);
    } else {
      assert ForwardHops(fib, to, from, at.conn) == [];
      RefuseTrails(net, to, from, st, st', at);
    }
  }

  /** A refused copy was not at the end where its node accepts. */
  lemma RefuseTrails(net: Net, to: Address, from: NodeId, st: State, st': State, at: End)
    requires NetOk(net) && TrailInv(net, to, from, st) && at.node in net.fibs
    requires !Accepts(net.fibs[at.node], from, at.conn)
    requires st'.inflight == st.inflight - multiset{at} && st'.accepted == st.accepted && st'.delivered == st.delivered
    ensures TrailInv(net, to, from, st')
  {
    forall y | HasSent(from, st', y) ensures HandedOn(net, to, from, st', y) {
      assert HandedOn(net, to, from, st, y);
    }
    forall e | e in st'.inflight ensures SentBySomeone(net, to, from, st', e) {
      assert SentBySomeone(net, to, from, st, e);
    }
    forall r ensures Delivers(net, to, from, st', r) {
      assert Delivers(net, to, from, st, r);
    }
  }

  /** x accepts the copy at its end, and sends its own. */
  ghost predicate AcceptsAt(net: Net, to: Address, from: NodeId, st: State, st': State, x: NodeId) {
    && x in net.fibs && x != from && from in net.fibs[x].nextHop && x !in st.accepted
    && BackEnd(net, from, x) in st.inflight
    && st'.inflight == st.inflight - multiset{BackEnd(net, from, x)} + Sends(net, to, from, x)
    && st'.accepted == st.accepted + [x]
    && st'.delivered == st.delivered + Receipts(x, OutHops(net, to, from, x))
  }

  lemma AcceptTrails(net: Net, to: Address, from: NodeId, st: State, st': State, x: NodeId)
    requires TrailInv(net, to, from, st) && AcceptsAt(net, to, from, st, st', x)
    ensures TrailInv(net, to, from, st')
  {
    assert SentBySomeone(net, to, from, st, BackEnd(net, from, x));
    var z :| z in net.fibs && HasSent(from, st, z) && BackEnd(net, from, x) in Sends(net, to, from, z);
    TrailedOn(net, to, from, z, x);
    forall y | HasSent(from, st', y) ensures HandedOn(net, to, from, st', y) {
      AcceptHandsOn(net, to, from, st, st', x, y);
    }
    forall e | e in st'.inflight ensures SentBySomeone(net, to, from, st', e) {
      assert HasSent(from, st', x);
      assert e in st.inflight ==> SentBySomeone(net, to, from, st, e);
    }
    forall r ensures Delivers(net, to, from, st', r) {
      AcceptDelivers(net, to, from, st, st', x, r);
    }
  }

  lemma AcceptDelivers(net: Net, to: Address, from: NodeId, st: State, st': State, x: NodeId, r: Receipt)
    requires AcceptsAt(net, to, from, st, st', x) && TrailInv(net, to, from, st)
    ensures Delivers(net, to, from, st', r)
  {
    assert Delivers(net, to, from, st, r);
    OwnReceipts(x, OutHops(net, to, from, x));
  }

  lemma AcceptHandsOn(net: Net, to: Address, from: NodeId, st: State, st': State, x: NodeId, y: NodeId)
    requires AcceptsAt(net, to, from, st, st', x) && HasSent(from, st', y)
    requires y != x ==> HandedOn(net, to, from, st, y)
    ensures HandedOn(net, to, from, st', y)
  {
    forall z | Hands(net, to, from, y, z) ensures z in st'.accepted || BackEnd(net, from, z) in st'.inflight {
    }
  }

  lemma StepTrails(net: Net, to: Address, from: NodeId, st: State, st': State)
    requires NetOk(net) && Inv(net, from, st) && TrailInv(net, to, from, st) && LosslessStep(net, to, from, st, st')
    ensures TrailInv(net, to, from, st')
  {
    var at :| ArrivesAt(net, to, from, st, at, st');
    ArriveTrails(net, to, from, st, at);
  }

  lemma {:induction false} TrailsAlongRun(net: Net, to: Address, from: NodeId, run: seq<State>, k: nat)
    requires NetOk(net) && LosslessRun(net, to, from, run) && k < |run|
    ensures TrailInv(net, to, from, run[k])
  {
    if k == 0 {
      InjectTrails(net, to, from);
    } else {
      TrailsAlongRun(net, to, from, run, k - 1);
      LosslessIsRun(net, to, from, run);
      AcceptedAtMostOnce(net, to, from, run, k - 1);
      assert Arrives(net, to, from, run, k - 1);
      StepTrails(net, to, from, run[k - 1], run[k]);
    }
  }

  // ------------------------------------------------------------------ theorem

  lemma {:induction false} TrailIsWalked(net: Net, to: Address, from: NodeId, st: State, path: seq<NodeId>)
    requires TrailInv(net, to, from, st) && st.inflight == multiset{} && Trail(net, to, from, path)
    ensures HasSent(from, st, path[|path| - 1])
    decreases |path|
  {
    if |path| > 1 {
      LastStep(net, to, from, path);
      TrailIsWalked(net, to, from, st, path[..|path| - 1]);
      assert HandedOn(net, to, from, st, path[|path| - 2]);
    }
  }

  /** When a lossless run is over, a node has accepted the packet exactly if there
      is a trail to it, and each listener has exactly what such a node owes it. */
  lemma DeliveredExactly(net: Net, to: Address, from: NodeId, run: seq<State>, k: nat, x: NodeId, l: Listener)
    requires NetOk(net) && LosslessRun(net, to, from, run) && k < |run| && run[k].inflight == multiset{}
    ensures x in run[k].accepted <==> x != from && Trailed(net, to, from, x)
    ensures run[k].delivered[Receipt(x, l)] ==
            if Trailed(net, to, from, x) then Owed(net, to, from, Receipt(x, l)) else 0
  {
    TrailsAlongRun(net, to, from, run, k);
    LosslessIsRun(net, to, from, run);
    AcceptedAtMostOnce(net, to, from, run, k);
    assert Delivers(net, to, from, run[k], Receipt(x, l));
    if Trailed(net, to, from, x) {
      var path :| Trail(net, to, from, path) && path[|path| - 1] == x;
      TrailIsWalked(net, to, from, run[k], path);
    }
  }

  /** From every sender there is a lossless run that ends with nothing in flight. */
  lemma RunToEnd(net: Net, to: Address, from: NodeId) returns (run: seq<State>)
    requires NetOk(net) && from in net.fibs && forall a :: a in net.wires ==> net.wires[a].node in net.fibs
    ensures LosslessRun(net, to, from, run) && run[|run| - 1].inflight == multiset{}
  {
    run := [Inject(net, to, from, AllOpen)];
    forall i: nat ensures Arrives(net, to, from, run, i) {
    }
    InjectInv(net, to, from, AllOpen);
    while run[|run| - 1].inflight != multiset{}
      invariant LosslessRun(net, to, from, run) && Inv(net, from, run[|run| - 1])
      decreases Potential(net, to, run[|run| - 1])
    {
      run := OneMore(net, to, from, run);
    }
  }

  lemma OneMore(net: Net, to: Address, from: NodeId, run: seq<State>) returns (longer: seq<State>)
    requires NetOk(net) && forall a :: a in net.wires ==> net.wires[a].node in net.fibs
    requires LosslessRun(net, to, from, run) && run[|run| - 1].inflight != multiset{} && Inv(net, from, run[|run| - 1])
    ensures LosslessRun(net, to, from, longer) && Inv(net, from, longer[|longer| - 1])
    ensures Potential(net, to, longer[|longer| - 1]) < Potential(net, to, run[|run| - 1])
  {
    var st' := NextState(net, to, from, run[|run| - 1]);
    longer := run + [st'];
    forall i: nat ensures Arrives(net, to, from, longer, i) {
      assert Arrives(net, to, from, run, i);
    }
  }

  lemma NextState(net: Net, to: Address, from: NodeId, st: State) returns (st': State)
    requires NetOk(net) && forall a :: a in net.wires ==> net.wires[a].node in net.fibs
    requires st.inflight != multiset{} && Inv(net, from, st)
    ensures LosslessStep(net, to, from, st, st') && Inv(net, from, st')
    ensures Potential(net, to, st') < Potential(net, to, st)
  {
    var at :| at in st.inflight;
    assert FedBy(net, from, st, at);
    st' := Arrive(net, to, from, st, at, AllOpen);
    ArriveInv(net, to, from, st, at, AllOpen);
    assert StepAt(net, to, from, st, at, st');
    StepDecreases(net, to, from, st, st');
    assert ArrivesAt(net, to, from, st, at, st');
  }
}
