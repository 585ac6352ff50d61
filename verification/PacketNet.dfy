/** One packet travelling through a network of nodes with arbitrary fixed
    forwarding tables: copies never multiply at a node and forwarding ends. */
module PacketNet {
  import opened Routing
  import opened Spf
  import opened SpfTheorems
  import opened Forwarding

  // One end of a link: what a node calls the link by.
  datatype End = End(node: NodeId, conn: ConnectionId)

  // `wires` leads from the end a copy is sent at to the end it arrives at.
  datatype Net = Net(fibs: map<NodeId, ForwardingTable>, wires: map<End, End>)

  datatype Receipt = Receipt(node: NodeId, listener: Listener)

  datatype State = State(inflight: multiset<End>, accepted: seq<NodeId>, delivered: multiset<Receipt>)

  // ------------------------------------------------------------------ semantics

  /** The copies that hops put on the wires. */
  function Copies(net: Net, x: NodeId, hops: seq<Hop>): multiset<End> {
    if hops == [] then multiset{}
    else
      var rest := Copies(net, x, hops[1..]);
      if hops[0].Remote? && End(x, hops[0].link.connectionId) in net.wires
      then multiset{net.wires[End(x, hops[0].link.connectionId)]} + rest
      else rest
  }

  function Receipts(x: NodeId, hops: seq<Hop>): multiset<Receipt> {
    if hops == [] then multiset{}
    else if hops[0].Local? then multiset{Receipt(x, hops[0].listener)} + Receipts(x, hops[1..])
    else Receipts(x, hops[1..])
  }

  /** A local client of `from` sends a packet; some queues may refuse it. */
  function Inject(net: Net, to: Address, from: NodeId, queues: Queues): State
    requires from in net.fibs
  {
    var hops := Taken(SendHops(net.fibs[from], to), queues);
    State(Copies(net, from, hops), [], Receipts(from, hops))
  }

  /** A copy arrives: the reverse-path check decides, then it is forwarded. */
  function Arrive(net: Net, to: Address, from: NodeId, st: State, at: End, queues: Queues): State
    requires at.node in net.fibs
  {
    var fib := net.fibs[at.node];
    var hops := Taken(ForwardHops(fib, to, from, at.conn), queues);
    State(
      st.inflight - multiset{at} + Copies(net, at.node, hops),
      if Accepts(fib, from, at.conn) then st.accepted + [at.node] else st.accepted,
      st.delivered + Receipts(at.node, hops))
  }

  /** Some copy in flight arrives at its node or is lost with its link. */
  ghost predicate Step(net: Net, to: Address, from: NodeId, st: State, st': State) {
    exists at :: at in st.inflight && StepAt(net, to, from, st, at, st')
  }

  ghost predicate StepAt(net: Net, to: Address, from: NodeId, st: State, at: End, st': State) {
    || st' == st.(inflight := st.inflight - multiset{at})
    || (at.node in net.fibs && exists queues :: st' == Arrive(net, to, from, st, at, queues))
  }

  /** A run: an injection followed by steps in any order. */
  ghost predicate Run(net: Net, to: Address, from: NodeId, run: seq<State>) {
    && run != [] && from in net.fibs
    && (exists queues :: run[0] == Inject(net, to, from, queues))
    && Steps(net, to, from, run)
  }

  ghost predicate Steps(net: Net, to: Address, from: NodeId, run: seq<State>) {
    forall i: nat {:trigger Follows(net, to, from, run, i)} :: Follows(net, to, from, run, i)
  }

  ghost predicate Follows(net: Net, to: Address, from: NodeId, run: seq<State>, i: nat) {
    i + 1 < |run| ==> Step(net, to, from, run[i], run[i + 1])
  }

  // ------------------------------------------------------------ well-formedness

  ghost predicate DistinctLinks(hops: seq<Hop>) {
    forall i, j :: 0 <= i < j < |hops| && hops[i].Remote? && hops[j].Remote? ==>
      hops[i].link.connectionId != hops[j].link.connectionId
  }

  ghost predicate DistinctListeners(hops: seq<Hop>) {
    forall i, j :: 0 <= i < j < |hops| && hops[i].Local? && hops[j].Local? ==> hops[i].listener != hops[j].listener
  }

  /** Links join two ends, and no table entry names a link twice. The tables of
      different nodes need not agree on anything. */
  ghost predicate NetOk(net: Net) {
    && (forall x :: x in net.fibs ==> net.fibs[x].ourId == x)
    && (forall a, b :: a in net.wires && b in net.wires && net.wires[a] == net.wires[b] ==> a == b)
    && (forall x, e :: x in net.fibs && e in net.fibs[x].table ==> DistinctLinks(Hops(net.fibs[x].table[e])))
  }

  // ------------------------------------------------------------ copies of hops

  lemma {:induction false} TakenDistinct(hops: seq<Hop>, queues: Queues)
    requires DistinctLinks(hops)
    ensures DistinctLinks(Taken(hops, queues))
    ensures forall h :: h in Taken(hops, queues) ==> h in hops
  {
    if hops != [] {
      var tail := Taken(hops[1..], queues);
      TakenDistinct(hops[1..], queues);
      forall j | 0 <= j < |tail| && hops[0].Remote? && tail[j].Remote?
        ensures hops[0].link.connectionId != tail[j].link.connectionId
      {
        assert tail[j] in hops[1..];
      }
    }
  }

  lemma {:induction false} OnwardOnly(fib: ForwardingTable, from: NodeId, hops: seq<Hop>)
    ensures forall h :: h in Onward(fib, from, hops) <==> h in hops && h.Remote? && !OnBackPath(fib, from, h.link)
  {
    if hops != [] {
      OnwardOnly(fib, from, hops[1..]);
      assert forall h :: h in hops <==> h == hops[0] || h in hops[1..];
    }
  }

  lemma {:induction false} OnwardDistinct(fib: ForwardingTable, from: NodeId, hops: seq<Hop>)
    requires DistinctLinks(hops)
    ensures DistinctLinks(Onward(fib, from, hops))
  {
    if hops != [] {
      var tail := Onward(fib, from, hops[1..]);
      OnwardDistinct(fib, from, hops[1..]);
      OnwardOnly(fib, from, hops[1..]);
      forall j | 0 <= j < |tail| && hops[0].Remote? ensures hops[0].link.connectionId != tail[j].link.connectionId {
        assert tail[j] in hops[1..];
      }
    }
  }

  lemma {:induction false} LocalsOnly(hops: seq<Hop>)
    ensures forall h :: h in Locals(hops) <==> h in hops && h.Local?
  {
    if hops != [] {
      LocalsOnly(hops[1..]);
      assert forall h :: h in hops <==> h == hops[0] || h in hops[1..];
    }
  }

  lemma ForwardDistinct(net: Net, to: Address, from: NodeId, at: End, queues: Queues)
    requires NetOk(net) && at.node in net.fibs
    ensures DistinctLinks(Taken(ForwardHops(net.fibs[at.node], to, from, at.conn), queues))
  {
    var fib := net.fibs[at.node];
    var e := to.GetEndpoint(fib.ourId);
    if Accepts(fib, from, at.conn) && e in fib.table {
      OnwardDistinct(fib, from, Hops(fib.table[e]));
      OnwardOnly(fib, from, Hops(fib.table[e]));
      LocalsOnly(Hops(fib.table[e]));
      var locals := Locals(Hops(fib.table[e]));
      var hops := locals + Onward(fib, from, Hops(fib.table[e]));
      forall k | 0 <= k < |locals| ensures locals[k].Local? {
        assert locals[k] in locals;
      }
      assert DistinctLinks(hops);
    }
    TakenDistinct(ForwardHops(fib, to, from, at.conn), queues);
  }

  lemma {:induction false} NotInCopies(net: Net, x: NodeId, hops: seq<Hop>, conn: ConnectionId)
    requires NetOk(net) && End(x, conn) in net.wires
    requires forall h :: h in hops && h.Remote? ==> h.link.connectionId != conn
    ensures net.wires[End(x, conn)] !in Copies(net, x, hops)
  {
    if hops != [] {
      NotInCopies(net, x, hops[1..], conn);
      assert hops[0] in hops;
    }
  }

  /** Over distinct links a node puts at most one copy on each wire. */
  lemma {:induction false} CopiesOnce(net: Net, x: NodeId, hops: seq<Hop>)
    requires NetOk(net) && DistinctLinks(hops)
    ensures forall e :: Copies(net, x, hops)[e] <= 1
    ensures forall e :: e in Copies(net, x, hops) ==> SentVia(net, x, hops, e)
  {
    if hops != [] {
      CopiesOnce(net, x, hops[1..]);
      forall e | SentVia(net, x, hops[1..], e) ensures SentVia(net, x, hops, e) {
        var h :| h in hops[1..] && h.Remote? && End(x, h.link.connectionId) in net.wires &&
                 net.wires[End(x, h.link.connectionId)] == e;
        assert h in hops;
      }
      var head := hops[0];
      if head.Remote? && End(x, head.link.connectionId) in net.wires {
        forall h | h in hops[1..] && h.Remote? ensures h.link.connectionId != head.link.connectionId {
          var j :| 1 <= j < |hops| && hops[j] == h;
        }
        NotInCopies(net, x, hops[1..], head.link.connectionId);
        assert head in hops;
      }
    }
  }

  /** Some hop of x leads over its wire to `e`. */
  ghost predicate SentVia(net: Net, x: NodeId, hops: seq<Hop>, e: End) {
    exists h :: h in hops && h.Remote? && End(x, h.link.connectionId) in net.wires &&
                net.wires[End(x, h.link.connectionId)] == e
  }

  lemma {:induction false} CopiesBounded(net: Net, x: NodeId, hops: seq<Hop>)
    ensures |Copies(net, x, hops)| <= |hops|
  {
    if hops != [] {
      CopiesBounded(net, x, hops[1..]);
    }
  }

  // ------------------------------------------------------------------ invariant

  /** The end that feeds `e` belongs to a node that has already sent. */
  ghost predicate FedBy(net: Net, from: NodeId, st: State, e: End) {
    exists a :: a in net.wires && net.wires[a] == e && (a.node == from || a.node in st.accepted)
  }

  function BackEnd(net: Net, from: NodeId, x: NodeId): End
    requires x in net.fibs && from in net.fibs[x].nextHop
  {
    End(x, net.fibs[x].nextHop[from].connectionId)
  }

  /** An accepting node's reverse-path wire has delivered its copy for good. */
  ghost predicate UsedUp(net: Net, from: NodeId, st: State, x: NodeId) {
    && x in net.fibs && x != from && from in net.fibs[x].nextHop
    && BackEnd(net, from, x) !in st.inflight
    && FedBy(net, from, st, BackEnd(net, from, x))
  }

  /** Every node accepts once, over the one wire its reverse-path check allows. */
  ghost predicate Inv(net: Net, from: NodeId, st: State) {
    && Distinct(st.accepted)
    && (forall e :: st.inflight[e] <= 1)
    && (forall e {:trigger FedBy(net, from, st, e)} :: e in st.inflight ==> FedBy(net, from, st, e))
    && (forall x {:trigger UsedUp(net, from, st, x)} :: x in st.accepted ==> UsedUp(net, from, st, x))
  }

  lemma InjectInv(net: Net, to: Address, from: NodeId, queues: Queues)
    requires NetOk(net) && from in net.fibs
    ensures Inv(net, from, Inject(net, to, from, queues))
  {
    var hops := SendHops(net.fibs[from], to);
    TakenDistinct(hops, queues);
    CopiesOnce(net, from, Taken(hops, queues));
  }

  lemma ArriveInv(net: Net, to: Address, from: NodeId, st: State, at: End, queues: Queues)
    requires NetOk(net) && Inv(net, from, st) && at in st.inflight && at.node in net.fibs
    ensures Inv(net, from, Arrive(net, to, from, st, at, queues))
  {
    var fib := net.fibs[at.node];
    var st' := Arrive(net, to, from, st, at, queues);
    var hops := Taken(ForwardHops(fib, to, from, at.conn), queues);
    if Accepts(fib, from, at.conn) {
      AcceptInv(net, to, from, st, at, queues);
    } else {
      assert hops == [];
      assert st'.inflight == st.inflight - multiset{at};
      LoseInv(net, from, st, at);
    }
  }

  lemma LoseInv(net: Net, from: NodeId, st: State, at: End)
    requires Inv(net, from, st)
    ensures forall d :: Inv(net, from, State(st.inflight - multiset{at}, st.accepted, d))
  {
    forall d ensures Inv(net, from, State(st.inflight - multiset{at}, st.accepted, d)) {
      var st' := State(st.inflight - multiset{at}, st.accepted, d);
      forall e | FedBy(net, from, st, e) ensures FedBy(net, from, st', e) {
      }
      forall e | e in st'.inflight ensures FedBy(net, from, st', e) {
        assert FedBy(net, from, st, e);
      }
      forall x | x in st'.accepted ensures UsedUp(net, from, st', x) {
        assert UsedUp(net, from, st, x);
      }
    }
  }

  lemma AcceptInv(net: Net, to: Address, from: NodeId, st: State, at: End, queues: Queues)
    requires NetOk(net) && Inv(net, from, st) && at in st.inflight && at.node in net.fibs
    requires Accepts(net.fibs[at.node], from, at.conn)
    ensures Inv(net, from, Arrive(net, to, from, st, at, queues))
  {
    assert at == BackEnd(net, from, at.node);
    assert at.node in st.accepted ==> UsedUp(net, from, st, at.node);
    assert FedBy(net, from, st, at);
    var new_ := Copies(net, at.node, Taken(ForwardHops(net.fibs[at.node], to, from, at.conn), queues));
    NewCopies(net, to, from, st, at, queues);
    AcceptWith(net, from, st, Arrive(net, to, from, st, at, queues), at, new_);
  }

  lemma AcceptWith(net: Net, from: NodeId, st: State, st': State, at: End, new_: multiset<End>)
    requires NetOk(net) && Inv(net, from, st) && at in st.inflight && at.node in net.fibs && at.node != from
    requires from in net.fibs[at.node].nextHop && at == BackEnd(net, from, at.node) && FedBy(net, from, st, at)
    requires at.node !in st.accepted && st'.accepted == st.accepted + [at.node]
    requires st'.inflight == st.inflight - multiset{at} + new_
    requires forall e :: new_[e] <= 1
    requires forall e :: e in new_ ==> e !in st.inflight && !FedBy(net, from, st, e)
    requires forall e :: e in new_ ==> exists a :: a in net.wires && net.wires[a] == e && a.node == at.node
    ensures Inv(net, from, st')
  {
    forall e | FedBy(net, from, st, e) ensures FedBy(net, from, st', e) {
    }
    assert at.node in st'.accepted;
    forall e | e in st'.inflight ensures FedBy(net, from, st', e) {
      assert e in st.inflight ==> FedBy(net, from, st, e);
    }
    forall x | x in st'.accepted ensures UsedUp(net, from, st', x) {
      assert x != at.node ==> UsedUp(net, from, st, x);
    }
  }

  /** What a node puts on its wires when it accepts has never been on them before. */
  lemma NewCopies(net: Net, to: Address, from: NodeId, st: State, at: End, queues: Queues)
    requires NetOk(net) && Inv(net, from, st) && at.node in net.fibs
    requires at.node !in st.accepted && at.node != from
    ensures var new_ := Copies(net, at.node, Taken(ForwardHops(net.fibs[at.node], to, from, at.conn), queues));
            && (forall e :: new_[e] <= 1)
            && forall e :: e in new_ ==>
                 && e !in st.inflight && !FedBy(net, from, st, e)
                 && exists a :: a in net.wires && net.wires[a] == e && a.node == at.node
  {
    var y := at.node;
    var hops := Taken(ForwardHops(net.fibs[y], to, from, at.conn), queues);
    ForwardDistinct(net, to, from, at, queues);
    CopiesOnce(net, y, hops);
    forall e | e in Copies(net, y, hops)
      ensures e !in st.inflight && !FedBy(net, from, st, e) && exists a ::
                a in net.wires && net.wires[a] == e && a.node == y
    {
      assert SentVia(net, y, hops, e);
      var h :| h in hops && h.Remote? && End(y, h.link.connectionId) in net.wires &&
               net.wires[End(y, h.link.connectionId)] == e;
      assert !FedBy(net, from, st, e);
    }
  }

  lemma StepInv(net: Net, to: Address, from: NodeId, st: State, st': State)
    requires NetOk(net) && Inv(net, from, st) && Step(net, to, from, st, st')
    ensures Inv(net, from, st')
  {
    var at :| at in st.inflight && StepAt(net, to, from, st, at, st');
    if st' == st.(inflight := st.inflight - multiset{at}) {
      LoseInv(net, from, st, at);
    } else {
      var queues :| st' == Arrive(net, to, from, st, at, queues);
      ArriveInv(net, to, from, st, at, queues);
    }
  }

  lemma {:induction false} InvAlongRun(net: Net, to: Address, from: NodeId, run: seq<State>, k: nat)
    requires NetOk(net) && k < |run| && Inv(net, from, run[0]) && Steps(net, to, from, run)
    ensures Inv(net, from, run[k])
  {
    if k > 0 {
      InvAlongRun(net, to, from, run, k - 1);
      assert Follows(net, to, from, run, k - 1);
      StepInv(net, to, from, run[k - 1], run[k]);
    }
  }

  /** In every interleaving each node accepts an injected packet at most once,
      the sender never, and at most one copy is on any wire. */
  lemma AcceptedAtMostOnce(net: Net, to: Address, from: NodeId, run: seq<State>, k: nat)
    requires NetOk(net) && Run(net, to, from, run) && k < |run|
    ensures Inv(net, from, run[k])
    ensures Distinct(run[k].accepted) && from !in run[k].accepted
    ensures forall e :: run[k].inflight[e] <= 1
  {
    var queues :| run[0] == Inject(net, to, from, queues);
    InjectInv(net, to, from, queues);
    InvAlongRun(net, to, from, run, k);
    assert from in run[k].accepted ==> UsedUp(net, from, run[k], from);
  }

  // ------------------------------------------------------------- each listener once

  /** A listener gets at most one copy, and only at the sender or where the packet was accepted. */
  ghost predicate DeliveredOnce(from: NodeId, st: State) {
    && (forall r :: st.delivered[r] <= 1)
    && (forall r :: r in st.delivered ==> r.node == from || r.node in st.accepted)
  }

  /** No listener is registered twice for the packet's endpoint. */
  ghost predicate ListenersOk(net: Net, to: Address) {
    forall x :: x in net.fibs ==> DistinctListeners(SendHops(net.fibs[x], to))
  }

  lemma {:induction false} ReceiptsOnce(x: NodeId, hops: seq<Hop>)
    requires DistinctListeners(hops)
    ensures forall r :: Receipts(x, hops)[r] <= 1
    ensures forall r :: r in Receipts(x, hops) <==> r.node == x && Local(r.listener) in hops
  {
    if hops != [] {
      ReceiptsOnce(x, hops[1..]);
      assert forall h :: h in hops <==> h == hops[0] || h in hops[1..];
      if hops[0].Local? && hops[0] in hops[1..] {
        var j :| 1 <= j < |hops| && hops[j] == hops[0];
      }
    }
  }

  lemma {:induction false} SubsetDistinct(hops: seq<Hop>, queues: Queues)
    requires DistinctListeners(hops)
    ensures DistinctListeners(Taken(hops, queues))
    ensures forall h :: h in Taken(hops, queues) ==> h in hops
  {
    if hops != [] {
      var tail := Taken(hops[1..], queues);
      SubsetDistinct(hops[1..], queues);
      forall j | 0 <= j < |tail| && hops[0].Local? && tail[j].Local? ensures hops[0].listener != tail[j].listener {
        assert tail[j] in hops[1..];
      }
    }
  }

  lemma {:induction false} LocalsDistinct(hops: seq<Hop>)
    requires DistinctListeners(hops)
    ensures DistinctListeners(Locals(hops))
  {
    if hops != [] {
      var tail := Locals(hops[1..]);
      LocalsDistinct(hops[1..]);
      LocalsOnly(hops[1..]);
      forall j | 0 <= j < |tail| && hops[0].Local? && tail[j].Local? ensures hops[0].listener != tail[j].listener {
        assert tail[j] in hops[1..];
      }
    }
  }

  lemma LocalsThenOnward(fib: ForwardingTable, from: NodeId, hops: seq<Hop>)
    requires DistinctListeners(hops)
    ensures DistinctListeners(Locals(hops) + Onward(fib, from, hops))
  {
    LocalsDistinct(hops);
    OnwardOnly(fib, from, hops);
    var onward := Onward(fib, from, hops);
    forall k | 0 <= k < |onward| ensures onward[k].Remote? {
      assert onward[k] in onward;
    }
  }

  lemma ForwardListeners(net: Net, to: Address, from: NodeId, at: End, queues: Queues)
    requires NetOk(net) && ListenersOk(net, to) && at.node in net.fibs
    ensures DistinctListeners(Taken(ForwardHops(net.fibs[at.node], to, from, at.conn), queues))
  {
    var fib := net.fibs[at.node];
    var e := to.GetEndpoint(fib.ourId);
    if Accepts(fib, from, at.conn) && e in fib.table {
      LocalsThenOnward(fib, from, Hops(fib.table[e]));
    }
    SubsetDistinct(ForwardHops(fib, to, from, at.conn), queues);
  }

  lemma InjectDeliversOnce(net: Net, to: Address, from: NodeId, queues: Queues)
    requires ListenersOk(net, to) && from in net.fibs
    ensures DeliveredOnce(from, Inject(net, to, from, queues))
  {
    SubsetDistinct(SendHops(net.fibs[from], to), queues);
    ReceiptsOnce(from, Taken(SendHops(net.fibs[from], to), queues));
  }

  lemma StepDeliversOnce(net: Net, to: Address, from: NodeId, st: State, st': State)
    requires NetOk(net) && ListenersOk(net, to) && Inv(net, from, st) && DeliveredOnce(from, st)
    requires Step(net, to, from, st, st')
    ensures DeliveredOnce(from, st')
  {
    var at :| at in st.inflight && StepAt(net, to, from, st, at, st');
    if st' != st.(inflight := st.inflight - multiset{at}) {
      var queues :| st' == Arrive(net, to, from, st, at, queues);
      ArriveDeliversOnce(net, to, from, st, at, queues);
    }
  }

  lemma {:induction false} DeliveredAlongRun(net: Net, to: Address, from: NodeId, run: seq<State>, k: nat)
    requires NetOk(net) && ListenersOk(net, to) && k < |run| && Steps(net, to, from, run)
    requires Inv(net, from, run[0]) && DeliveredOnce(from, run[0])
    ensures DeliveredOnce(from, run[k])
  {
    if k > 0 {
      DeliveredAlongRun(net, to, from, run, k - 1);
      InvAlongRun(net, to, from, run, k - 1);
      assert Follows(net, to, from, run, k - 1);
      StepDeliversOnce(net, to, from, run[k - 1], run[k]);
    }
  }

  /** In every interleaving each listener gets at most one copy. */
  lemma DeliveredAtMostOnce(net: Net, to: Address, from: NodeId, run: seq<State>, k: nat)
    requires NetOk(net) && ListenersOk(net, to) && Run(net, to, from, run) && k < |run|
    ensures DeliveredOnce(from, run[k])
  {
    var queues :| run[0] == Inject(net, to, from, queues);
    InjectInv(net, to, from, queues);
    InjectDeliversOnce(net, to, from, queues);
    DeliveredAlongRun(net, to, from, run, k);
  }

  lemma ArriveDeliversOnce(net: Net, to: Address, from: NodeId, st: State, at: End, queues: Queues)
    requires NetOk(net) && ListenersOk(net, to) && Inv(net, from, st) && DeliveredOnce(from, st)
    requires at in st.inflight && at.node in net.fibs
    ensures DeliveredOnce(from, Arrive(net, to, from, st, at, queues))
  {
    var hops := Taken(ForwardHops(net.fibs[at.node], to, from, at.conn), queues);
    ForwardListeners(net, to, from, at, queues);
    ReceiptsOnce(at.node, hops);
    if Accepts(net.fibs[at.node], from, at.conn) {
      assert at == BackEnd(net, from, at.node);
      assert at.node in st.accepted ==> UsedUp(net, from, st, at.node);
    } else {
      assert hops == [];
    }
  }

  // ------------------------------------------------------------------ termination

  /** The most copies a node can put on its wires for this packet. */
  function FanOut(net: Net, to: Address, x: NodeId): nat
    requires x in net.fibs
  {
    |SendHops(net.fibs[x], to)|
  }

  ghost function SumFanOut(net: Net, to: Address, xs: set<NodeId>): nat
    requires xs <= net.fibs.Keys
  {
    if xs == {} then 0
    else
      var x :| x in xs;
      FanOut(net, to, x) + SumFanOut(net, to, xs - {x})
  }

  lemma {:induction false} SumFanOutRemove(net: Net, to: Address, xs: set<NodeId>, y: NodeId)
    requires xs <= net.fibs.Keys && y in xs
    ensures SumFanOut(net, to, xs) == FanOut(net, to, y) + SumFanOut(net, to, xs - {y})
    decreases xs
  {
    var x :| x in xs && SumFanOut(net, to, xs) == FanOut(net, to, x) + SumFanOut(net, to, xs - {x});
    if x != y {
      SumFanOutRemove(net, to, xs - {x}, y);
      SumFanOutRemove(net, to, xs - {y}, x);
      assert xs - {x} - {y} == xs - {y} - {x};
    }
  }

  /** Copies in flight plus all that nodes which have not accepted could still send. */
  ghost function Potential(net: Net, to: Address, st: State): nat {
    |st.inflight| + SumFanOut(net, to, net.fibs.Keys - Elements(st.accepted))
  }

  lemma {:induction false} ForwardBounded(fib: ForwardingTable, from: NodeId, hops: seq<Hop>, queues: Queues)
    ensures |Locals(hops)| + |Onward(fib, from, hops)| <= |hops|
    ensures |Taken(hops, queues)| <= |hops|
  {
    if hops != [] {
      ForwardBounded(fib, from, hops[1..], queues);
    }
  }

  lemma AcceptDecreases(net: Net, to: Address, from: NodeId, st: State, at: End, queues: Queues)
    requires NetOk(net) && at in st.inflight && at.node in net.fibs && at.node !in st.accepted
    requires Accepts(net.fibs[at.node], from, at.conn)
    ensures Potential(net, to, Arrive(net, to, from, st, at, queues)) < Potential(net, to, st)
  {
    var st' := Arrive(net, to, from, st, at, queues);
    var fib := net.fibs[at.node];
    var all := ForwardHops(fib, to, from, at.conn);
    ForwardBounded(fib, from, SendHops(fib, to), queues);
    ForwardBounded(fib, from, all, queues);
    CopiesBounded(net, at.node, Taken(all, queues));
    assert |Copies(net, at.node, Taken(all, queues))| <= FanOut(net, to, at.node);
    var rest := net.fibs.Keys - Elements(st.accepted);
    SumFanOutRemove(net, to, rest, at.node);
    assert Elements(st.accepted + [at.node]) == Elements(st.accepted) + {at.node};
    assert net.fibs.Keys - Elements(st'.accepted) == rest - {at.node};
  }

  lemma StepDecreases(net: Net, to: Address, from: NodeId, st: State, st': State)
    requires NetOk(net) && Inv(net, from, st) && Step(net, to, from, st, st')
    ensures Potential(net, to, st') < Potential(net, to, st)
  {
    var at :| at in st.inflight && StepAt(net, to, from, st, at, st');
    if st' != st.(inflight := st.inflight - multiset{at}) {
      var queues :| st' == Arrive(net, to, from, st, at, queues);
      if Accepts(net.fibs[at.node], from, at.conn) {
        assert at == BackEnd(net, from, at.node);
        assert at.node in st.accepted ==> UsedUp(net, from, st, at.node);
        AcceptDecreases(net, to, from, st, at, queues);
      } else {
        assert ForwardHops(net.fibs[at.node], to, from, at.conn) == [];
        assert st'.inflight == st.inflight - multiset{at};
      }
    }
  }

  lemma {:induction false} PotentialAlongRun(net: Net, to: Address, from: NodeId, run: seq<State>, k: nat)
    requires NetOk(net) && k < |run| && Inv(net, from, run[0]) && Steps(net, to, from, run)
    ensures k + Potential(net, to, run[k]) <= Potential(net, to, run[0])
  {
    if k > 0 {
      PotentialAlongRun(net, to, from, run, k - 1);
      InvAlongRun(net, to, from, run, k - 1);
      assert Follows(net, to, from, run, k - 1);
      StepDecreases(net, to, from, run[k - 1], run[k]);
    }
  }

  /** No storms: a run, whatever its interleaving and losses, is no longer than
      the fan-outs of the sender and of all nodes together. */
  lemma ForwardingTerminates(net: Net, to: Address, from: NodeId, run: seq<State>, k: nat)
    requires NetOk(net) && Run(net, to, from, run) && k < |run|
    ensures k + Potential(net, to, run[k]) <= FanOut(net, to, from) + SumFanOut(net, to, net.fibs.Keys)
  {
    var queues :| run[0] == Inject(net, to, from, queues);
    InjectInv(net, to, from, queues);
    InjectPotential(net, to, from, queues);
    PotentialAlongRun(net, to, from, run, k);
  }

  lemma InjectPotential(net: Net, to: Address, from: NodeId, queues: Queues)
    requires from in net.fibs
    ensures Potential(net, to, Inject(net, to, from, queues)) <=
            FanOut(net, to, from) + SumFanOut(net, to, net.fibs.Keys)
  {
    var hops := SendHops(net.fibs[from], to);
    ForwardBounded(net.fibs[from], from, hops, queues);
    CopiesBounded(net, from, Taken(hops, queues));
    assert net.fibs.Keys - Elements([]) == net.fibs.Keys;
  }
}
