/** One packet in a network whose nodes publish new tables while it travels. As long
    as the links that lead back to its sender stay, copies never multiply, whatever
    else the tables change; once such a link changes, they can, without end. */
module Republishing {
  import opened Routing
  import opened Routes
  import opened Paths
  import opened Spf
  import opened SpfTheorems
  import opened Forwarding
  import opened PacketNet
  import opened Agreement

  /** The connection over which a node takes packets of `from`, if it takes any. */
  function BackLink(net: Net, from: NodeId, x: NodeId): Option<ConnectionId> {
    if x in net.fibs && from in net.fibs[x].nextHop then Some(net.fibs[x].nextHop[from].connectionId) else None
  }

  /** A run with the tables of its own at every step. */
  ghost predicate MovingRun(nets: seq<Net>, to: Address, from: NodeId, run: seq<State>) {
    && run != [] && |nets| == |run| && from in nets[0].fibs
    && (exists queues :: run[0] == Inject(nets[0], to, from, queues))
    && forall i: nat {:trigger MovesAt(nets, to, from, run, i)} :: MovesAt(nets, to, from, run, i)
  }

  ghost predicate MovesAt(nets: seq<Net>, to: Address, from: NodeId, run: seq<State>, i: nat) {
    i + 1 < |run| && i + 1 < |nets| ==>
      nets[i + 1].wires == nets[i].wires && Step(nets[i + 1], to, from, run[i], run[i + 1])
  }

  predicate AnyNode(x: NodeId) {
    true
  }

  ghost function AllNodes(): iset<NodeId> {
    iset x: NodeId | AnyNode(x)
  }

  /** These nodes go back to the sender over the same links all the time. */
  ghost predicate Steady(nets: seq<Net>, from: NodeId, xs: iset<NodeId>) {
    forall i: nat {:trigger SteadyAt(nets, from, xs, i)} :: SteadyAt(nets, from, xs, i)
  }

  ghost predicate SteadyAt(nets: seq<Net>, from: NodeId, xs: iset<NodeId>, i: nat) {
    i + 1 < |nets| ==> SameBack(nets[i], nets[i + 1], from, xs)
  }

  ghost predicate SameBack(net: Net, net': Net, from: NodeId, xs: iset<NodeId>) {
    forall x :: x in xs ==> BackLink(net', from, x) == BackLink(net, from, x)
  }

  /** With each of these nodes the node it goes back to is among them too, up to the sender. */
  ghost predicate Upstream(net: Net, from: NodeId, xs: iset<NodeId>) {
    forall x, a | x in xs && a in net.wires ::
      BackLink(net, from, x).Some? && net.wires[a] == End(x, BackLink(net, from, x).value) ==>
        a.node == from || a.node in xs
  }

  // ------------------------------------------------------------------ invariant

  ghost predicate AcceptsOnce(accepted: seq<NodeId>, xs: iset<NodeId>) {
    forall i, j :: 0 <= i < j < |accepted| && accepted[i] == accepted[j] ==> accepted[i] !in xs
  }

  /** A node's end of its link back carries at most one copy, from a node that has
      sent; a node that has accepted has used up that copy. */
  ghost predicate WayOk(net: Net, from: NodeId, st: State, x: NodeId) {
    match BackLink(net, from, x)
    case None => x !in st.accepted
    case Some(c) =>
      && st.inflight[End(x, c)] <= 1
      && (End(x, c) in st.inflight ==> FedBy(net, from, st, End(x, c)))
      && (x in st.accepted ==> End(x, c) !in st.inflight && FedBy(net, from, st, End(x, c)))
  }

  ghost predicate MovingInv(net: Net, from: NodeId, xs: iset<NodeId>, st: State) {
    && from !in st.accepted && AcceptsOnce(st.accepted, xs)
    && Upstream(net, from, xs)
    && forall x {:trigger WayOk(net, from, st, x)} :: x in xs ==> WayOk(net, from, st, x)
  }

  lemma InjectMoving(net: Net, to: Address, from: NodeId, xs: iset<NodeId>, queues: Queues)
    requires NetOk(net) && from in net.fibs && Upstream(net, from, xs)
    ensures MovingInv(net, from, xs, Inject(net, to, from, queues))
  {
    var st := Inject(net, to, from, queues);
    InjectInv(net, to, from, queues);
    forall x | x in xs ensures WayOk(net, from, st, x) {
      assert forall e :: e in st.inflight ==> FedBy(net, from, st, e);
    }
  }

  /** New tables with the same links back change nothing. */
  lemma SwapMoving(net: Net, net': Net, from: NodeId, xs: iset<NodeId>, st: State)
    requires MovingInv(net, from, xs, st) && net'.wires == net.wires && SameBack(net, net', from, xs)
    ensures MovingInv(net', from, xs, st)
  {
    forall x | x in xs ensures WayOk(net', from, st, x) {
      assert WayOk(net, from, st, x);
      if BackLink(net, from, x).Some? {
        var e := End(x, BackLink(net, from, x).value);
        assert FedBy(net, from, st, e) ==> FedBy(net', from, st, e);
      }
    }
  }

  lemma LoseMoving(net: Net, from: NodeId, xs: iset<NodeId>, st: State, at: End, st': State)
    requires MovingInv(net, from, xs, st) && st'.accepted == st.accepted && st'.inflight == st.inflight - multiset{at}
    ensures MovingInv(net, from, xs, st')
  {
    forall x | x in xs ensures WayOk(net, from, st', x) {
      assert WayOk(net, from, st, x);
      if BackLink(net, from, x).Some? {
        var e := End(x, BackLink(net, from, x).value);
        assert FedBy(net, from, st, e) ==> FedBy(net, from, st', e);
      }
    }
  }

  /** What an accepting node sends to a node of `xs` is the first copy that node is sent. */
  lemma FirstCopy(net: Net, to: Address, from: NodeId, xs: iset<NodeId>, st: State, at: End, queues: Queues, x: NodeId)
    requires NetOk(net) && MovingInv(net, from, xs, st) && at in st.inflight && at.node in net.fibs && x in xs
    requires Accepts(net.fibs[at.node], from, at.conn) && BackLink(net, from, x).Some?
    ensures var e := End(x, BackLink(net, from, x).value);
            var more := Copies(net, at.node, Taken(ForwardHops(net.fibs[at.node], to, from, at.conn), queues));
            && more[e] <= 1
            && (e in more ==>
                  && e !in st.inflight && !FedBy(net, from, st, e) && at.node in xs
                  && exists a :: a in net.wires && net.wires[a] == e && a.node == at.node)
  {
    var y := at.node;
    var e := End(x, BackLink(net, from, x).value);
    var hops := Taken(ForwardHops(net.fibs[y], to, from, at.conn), queues);
    ForwardDistinct(net, to, from, at, queues);
    CopiesOnce(net, y, hops);
    if e in Copies(net, y, hops) {
      assert SentVia(net, y, hops, e);
      var h :| h in hops && h.Remote? && End(y, h.link.connectionId) in net.wires &&
               net.wires[End(y, h.link.connectionId)] == e;
      var a := End(y, h.link.connectionId);
      assert y in xs && at == End(y, BackLink(net, from, y).value);
      assert WayOk(net, from, st, y) && WayOk(net, from, st, x);
      assert y !in st.accepted;
      assert !FedBy(net, from, st, e);
    }
  }

  lemma AcceptMoving(net: Net, to: Address, from: NodeId, xs: iset<NodeId>, st: State, at: End, queues: Queues)
    requires NetOk(net) && MovingInv(net, from, xs, st) && at in st.inflight && at.node in net.fibs
    requires Accepts(net.fibs[at.node], from, at.conn)
    ensures MovingInv(net, from, xs, Arrive(net, to, from, st, at, queues))
    ensures at.node in xs ==> at.node !in st.accepted
  {
    var st' := Arrive(net, to, from, st, at, queues);
    var y := at.node;
    assert at == End(y, BackLink(net, from, y).value);
    assert y in xs ==> WayOk(net, from, st, y);
    forall x | x in xs ensures WayOk(net, from, st', x) {
      assert WayOk(net, from, st, x);
      if BackLink(net, from, x).Some? {
        var e := End(x, BackLink(net, from, x).value);
        FirstCopy(net, to, from, xs, st, at, queues, x);
        assert FedBy(net, from, st, e) ==> FedBy(net, from, st', e);
      }
    }
  }

  lemma StepMoving(net: Net, to: Address, from: NodeId, xs: iset<NodeId>, st: State, st': State)
    requires NetOk(net) && MovingInv(net, from, xs, st) && Step(net, to, from, st, st')
    ensures MovingInv(net, from, xs, st')
  {
    var at :| at in st.inflight && StepAt(net, to, from, st, at, st');
    if st' == st.(inflight := st.inflight - multiset{at}) {
      LoseMoving(net, from, xs, st, at, st');
    } else {
      var queues :| st' == Arrive(net, to, from, st, at, queues);
      if Accepts(net.fibs[at.node], from, at.conn) {
        AcceptMoving(net, to, from, xs, st, at, queues);
      } else {
        LoseMoving(net, from, xs, st, at, st');
      }
    }
  }

  /** Tables that are well formed at every step. */
  ghost predicate NetsOk(nets: seq<Net>) {
    forall i: nat {:trigger nets[i]} :: i < |nets| ==> NetOk(nets[i])
  }

  lemma {:induction false} MovingAlongRun(nets: seq<Net>, to: Address, from: NodeId, xs: iset<NodeId>, run: seq<State>,
                                          k: nat)
    requires NetsOk(nets) && MovingRun(nets, to, from, run) && k < |run|
    requires Steady(nets, from, xs) && Upstream(nets[0], from, xs)
    ensures MovingInv(nets[k], from, xs, run[k])
  {
    if k == 0 {
      var queues :| run[0] == Inject(nets[0], to, from, queues);
      InjectMoving(nets[0], to, from, xs, queues);
    } else {
      MovingAlongRun(nets, to, from, xs, run, k - 1);
      assert MovesAt(nets, to, from, run, k - 1) && SteadyAt(nets, from, xs, k - 1);
      SwapMoving(nets[k - 1], nets[k], from, xs, run[k - 1]);
      StepMoving(nets[k], to, from, xs, run[k - 1], run[k]);
    }
  }

  /** Nodes whose links back to the sender stay, all the way up to it, accept a packet
      at most once: everything else in all tables, and everything in the tables of
      other nodes, may change at every step. */
  lemma AcceptedOnceWhileSteady(nets: seq<Net>, to: Address, from: NodeId, xs: iset<NodeId>, run: seq<State>, k: nat)
    requires NetsOk(nets) && MovingRun(nets, to, from, run) && k < |run|
    requires Steady(nets, from, xs) && Upstream(nets[0], from, xs)
    ensures AcceptsOnce(run[k].accepted, xs) && from !in run[k].accepted
  {
    MovingAlongRun(nets, to, from, xs, run, k);
  }

  /** What is known before a step: the tables of the step are new, the links back are not. */
  lemma BeforeStep(nets: seq<Net>, to: Address, from: NodeId, xs: iset<NodeId>, run: seq<State>, k: nat)
    requires NetsOk(nets) && MovingRun(nets, to, from, run) && 0 < k < |run|
    requires Steady(nets, from, xs) && Upstream(nets[0], from, xs)
    ensures NetOk(nets[k]) && MovingInv(nets[k], from, xs, run[k - 1]) && Step(nets[k], to, from, run[k - 1], run[k])
  {
    MovingAlongRun(nets, to, from, xs, run, k - 1);
    assert MovesAt(nets, to, from, run, k - 1) && SteadyAt(nets, from, xs, k - 1);
    SwapMoving(nets[k - 1], nets[k], from, xs, run[k - 1]);
  }

  // ------------------------------------------------------------- each listener once

  /** Where the links back stay a listener gets at most one copy, and so at the sender. */
  ghost predicate DeliversOnce(from: NodeId, xs: iset<NodeId>, st: State) {
    && (forall r: Receipt :: r.node == from || r.node in xs ==> st.delivered[r] <= 1)
    && (forall r :: r in st.delivered ==> r.node == from || r.node in st.accepted)
  }

  lemma StepDelivers(net: Net, to: Address, from: NodeId, xs: iset<NodeId>, st: State, st': State)
    requires NetOk(net) && ListenersOk(net, to) && MovingInv(net, from, xs, st) && DeliversOnce(from, xs, st)
    requires Step(net, to, from, st, st')
    ensures DeliversOnce(from, xs, st')
  {
    var at :| at in st.inflight && StepAt(net, to, from, st, at, st');
    if st' != st.(inflight := st.inflight - multiset{at}) {
      var queues :| st' == Arrive(net, to, from, st, at, queues);
      var hops := Taken(ForwardHops(net.fibs[at.node], to, from, at.conn), queues);
      ForwardListeners(net, to, from, at, queues);
      ReceiptsOnce(at.node, hops);
      if Accepts(net.fibs[at.node], from, at.conn) {
        AcceptMoving(net, to, from, xs, st, at, queues);
      } else {
        assert hops == [];
      }
    }
  }

  lemma {:induction false} DeliversAlongRun(nets: seq<Net>, to: Address, from: NodeId, xs: iset<NodeId>,
                                            run: seq<State>, k: nat)
    requires NetsOk(nets) && MovingRun(nets, to, from, run) && k < |run|
    requires forall i :: 0 <= i < |nets| ==> ListenersOk(nets[i], to)
    requires Steady(nets, from, xs) && Upstream(nets[0], from, xs)
    ensures DeliversOnce(from, xs, run[k])
  {
    if k == 0 {
      var queues :| run[0] == Inject(nets[0], to, from, queues);
      InjectDeliversOnce(nets[0], to, from, queues);
    } else {
      DeliversAlongRun(nets, to, from, xs, run, k - 1);
      BeforeStep(nets, to, from, xs, run, k);
      StepDelivers(nets[k], to, from, xs, run[k - 1], run[k]);
    }
  }

  // ------------------------------------------------------------------ termination

  /** No table ever names more than `width` hops for the packet. */
  ghost predicate Narrow(nets: seq<Net>, to: Address, nodes: set<NodeId>, width: nat) {
    forall i: nat {:trigger nets[i]} :: i < |nets| ==> NarrowAt(nets[i], to, nodes, width)
  }

  ghost predicate NarrowAt(net: Net, to: Address, nodes: set<NodeId>, width: nat) {
    forall x :: x in net.fibs ==> x in nodes && FanOut(net, to, x) <= width
  }

  /** Copies in flight, and `width` for every node that has not accepted. */
  function Reserve(nodes: set<NodeId>, width: nat, st: State): nat {
    |st.inflight| + Times(|nodes - Elements(st.accepted)|, width)
  }

  function Times(n: nat, width: nat): nat {
    if n == 0 then 0 else width + Times(n - 1, width)
  }

  lemma {:induction false} TimesIs(n: nat, width: nat)
    ensures Times(n, width) == n * width
  {
    if n > 0 {
      TimesIs(n - 1, width);
    }
  }

  lemma ReserveOfOne(nodes: set<NodeId>, width: nat, accepted: seq<NodeId>, y: NodeId)
    requires y in nodes && y !in accepted
    ensures Times(|nodes - Elements(accepted + [y])|, width) + width == Times(|nodes - Elements(accepted)|, width)
  {
    var rest := nodes - Elements(accepted);
    assert nodes - Elements(accepted + [y]) == rest - {y};
  }

  lemma FewCopies(net: Net, to: Address, from: NodeId, at: End, queues: Queues)
    requires at.node in net.fibs
    ensures |Copies(net, at.node, Taken(ForwardHops(net.fibs[at.node], to, from, at.conn), queues))| <=
            FanOut(net, to, at.node)
    ensures |Copies(net, at.node, Taken(SendHops(net.fibs[at.node], to), queues))| <= FanOut(net, to, at.node)
  {
    var fib := net.fibs[at.node];
    var all := ForwardHops(fib, to, from, at.conn);
    ForwardBounded(fib, from, SendHops(fib, to), queues);
    ForwardBounded(fib, from, all, queues);
    CopiesBounded(net, at.node, Taken(all, queues));
    CopiesBounded(net, at.node, Taken(SendHops(fib, to), queues));
  }

  lemma StepReserve(net: Net, to: Address, from: NodeId, nodes: set<NodeId>, width: nat, st: State, st': State)
    requires NetOk(net) && MovingInv(net, from, AllNodes(), st) && Step(net, to, from, st, st')
    requires NarrowAt(net, to, nodes, width)
    ensures Reserve(nodes, width, st') < Reserve(nodes, width, st)
  {
    var at :| at in st.inflight && StepAt(net, to, from, st, at, st');
    if st' != st.(inflight := st.inflight - multiset{at}) {
      var queues :| st' == Arrive(net, to, from, st, at, queues);
      if Accepts(net.fibs[at.node], from, at.conn) {
        AcceptMoving(net, to, from, AllNodes(), st, at, queues);
        FewCopies(net, to, from, at, queues);
        ReserveOfOne(nodes, width, st.accepted, at.node);
      } else {
        assert ForwardHops(net.fibs[at.node], to, from, at.conn) == [];
        assert st'.inflight == st.inflight - multiset{at};
      }
    }
  }

  lemma InjectReserve(net: Net, to: Address, from: NodeId, nodes: set<NodeId>, width: nat, queues: Queues)
    requires from in net.fibs && FanOut(net, to, from) <= width
    ensures Reserve(nodes, width, Inject(net, to, from, queues)) <= Times(|nodes| + 1, width)
  {
    FewCopies(net, to, from, End(from, 0), queues);
    assert nodes - Elements([]) == nodes;
  }

  lemma {:induction false} ReserveAlongRun(nets: seq<Net>, to: Address, from: NodeId, nodes: set<NodeId>, width: nat,
                                           run: seq<State>, k: nat)
    requires NetsOk(nets) && MovingRun(nets, to, from, run) && k < |run| && Narrow(nets, to, nodes, width)
    requires Steady(nets, from, AllNodes())
    ensures k + Reserve(nodes, width, run[k]) <= Times(|nodes| + 1, width)
  {
    assert NarrowAt(nets[k], to, nodes, width);
    if k == 0 {
      var queues :| run[0] == Inject(nets[0], to, from, queues);
      InjectReserve(nets[0], to, from, nodes, width, queues);
    } else {
      ReserveAlongRun(nets, to, from, nodes, width, run, k - 1);
      BeforeStep(nets, to, from, AllNodes(), run, k);
      StepReserve(nets[k], to, from, nodes, width, run[k - 1], run[k]);
    }
  }

  lemma BuiltNetsOk(nets: seq<Net>)
    requires forall i :: 0 <= i < |nets| ==> AllBuilt(nets[i])
    ensures NetsOk(nets)
  {
    forall i: nat | i < |nets| ensures NetOk(nets[i]) {
      BuiltNetOk(nets[i]);
    }
  }

  lemma RunIsBounded(nets: seq<Net>, to: Address, from: NodeId, nodes: set<NodeId>, width: nat, run: seq<State>, k: nat)
    requires NetsOk(nets) && MovingRun(nets, to, from, run) && k < |run| && Narrow(nets, to, nodes, width)
    requires Steady(nets, from, AllNodes())
    ensures k <= (|nodes| + 1) * width
  {
    ReserveAlongRun(nets, to, from, nodes, width, run, k);
    TimesIs(|nodes| + 1, width);
  }

  /** The promise, with tables that change: over built tables, new ones at every step,
      a packet causes no duplicates and no storm as long as no node's link back to
      its sender changes. */
  lemma NoDuplicatesWhileSteady(nets: seq<Net>, to: Address, from: NodeId, nodes: set<NodeId>, width: nat,
                                run: seq<State>, k: nat)
    requires (forall i :: 0 <= i < |nets| ==> AllBuilt(nets[i])) && MovingRun(nets, to, from, run) && k < |run|
    requires Steady(nets, from, AllNodes())
    ensures Distinct(run[k].accepted) && from !in run[k].accepted
    ensures (forall i :: 0 <= i < |nets| ==> ListenersOk(nets[i], to)) ==> DeliveredOnce(from, run[k])
    ensures Narrow(nets, to, nodes, width) ==> k <= (|nodes| + 1) * width
  {
    BuiltNetsOk(nets);
    AcceptedOnceWhileSteady(nets, to, from, AllNodes(), run, k);
    if forall i :: 0 <= i < |nets| ==> ListenersOk(nets[i], to) {
      DeliversAlongRun(nets, to, from, AllNodes(), run, k);
    }
    if Narrow(nets, to, nodes, width) {
      RunIsBounded(nets, to, from, nodes, width, run, k);
    }
  }
}
