/** What a shortest-path run computes: the loop invariant of the router's
    Dijkstra search and the tree it leaves behind. */
module Spf {
  import opened Routing
  import opened Paths

  datatype Tree = Tree(cost: map<NodeId, Cost>, parent: map<NodeId, NodeId>, nextHop: map<NodeId, Link>)

  function CostOf(cost: map<NodeId, Cost>, n: NodeId): Cost {
    if n in cost then cost[n] else MAX_COST
  }

  ghost predicate Reached(t: Tree, n: NodeId) {
    CostOf(t.cost, n) < MAX_COST
  }

  /** The edge u -> v accounts exactly for the cost of v. */
  ghost predicate Tight(g: Graph, cost: map<NodeId, Cost>, u: NodeId, v: NodeId) {
    u in cost && v in cost && exists a :: a in Adj(g, u) && a.peerId == v && cost[u] + a.cost == cost[v]
  }

  ghost predicate Relaxed(g: Graph, cost: map<NodeId, Cost>, u: NodeId) {
    u in cost && forall a :: a in Adj(g, u) ==> CostOf(cost, a.peerId) <= cost[u] + a.cost
  }

  function Rank(t: Tree, n: NodeId): Entry {
    Entry(CostOf(t.cost, n), n)
  }

  // ---------------------------------------------------------------- invariant

  ghost predicate Sorted(queue: seq<Entry>) {
    forall i, j :: 0 <= i < j < |queue| ==> queue[i].Better(queue[j])
  }

  ghost predicate Distinct(order: seq<NodeId>) {
    forall i, j :: 0 <= i < j < |order| ==> order[i] != order[j]
  }

  /** The queue is sorted and holds exactly the reached, unsettled nodes. */
  ghost predicate QueueOk(t: Tree, queue: seq<Entry>, order: seq<NodeId>) {
    && Sorted(queue)
    && (forall e :: e in queue ==> Reached(t, e.node) && e == Rank(t, e.node) && e.node !in order)
    && (forall n :: Reached(t, n) && n !in order ==> Rank(t, n) in queue)
  }

  /** Nodes settle once, in order of their final cost. */
  ghost predicate OrderOk(t: Tree, root: NodeId, queue: seq<Entry>, order: seq<NodeId>) {
    && Distinct(order)
    && (if order == [] then queue == [Entry(0, root)] else order[0] == root)
    && (forall n :: n in order ==> Reached(t, n))
    && (forall i, j :: 0 <= i < j < |order| ==> CostOf(t.cost, order[i]) <= CostOf(t.cost, order[j]))
    && (forall n, e :: n in order && e in queue ==> CostOf(t.cost, n) <= e.cost)
  }

  /** Every settled node but the last has relaxed all its adjacencies, the last one the first `done`. */
  ghost predicate RelaxedOk(g: Graph, t: Tree, order: seq<NodeId>, done: nat) {
    && (forall i :: 0 <= i < |order| - 1 ==> Relaxed(g, t.cost, order[i]))
    && (order != [] ==>
          var u := order[|order| - 1];
          u in t.cost && done <= |Adj(g, u)| &&
          forall i :: 0 <= i < done ==> CostOf(t.cost, Adj(g, u)[i].peerId) <= t.cost[u] + Adj(g, u)[i].cost)
  }

  ghost predicate CostOk(g: Graph, t: Tree, root: NodeId) {
    && root in t.cost && t.cost[root] == 0
    && (forall n :: n in g ==> n in t.cost)
    && (forall n :: n in t.cost ==> n in g || n == root || t.cost[n] < MAX_COST)
  }

  /** Reached nodes other than the root hang under the first settled node whose edge is tight. */
  ghost predicate FirstTight(g: Graph, t: Tree, order: seq<NodeId>, n: NodeId, i: nat)
    requires n in t.parent
  {
    && i < |order| && order[i] == t.parent[n]
    && Tight(g, t.cost, order[i], n)
    && (forall j :: 0 <= j < i ==> !Tight(g, t.cost, order[j], n))
  }

  ghost predicate ParentIsFirst(g: Graph, t: Tree, order: seq<NodeId>, n: NodeId)
    requires n in t.parent
  {
    exists i :: FirstTight(g, t, order, n, i)
  }

  ghost predicate ParentBefore(t: Tree, order: seq<NodeId>, k: nat)
    requires k < |order|
  {
    order[k] in t.parent && t.parent[order[k]] in order[..k]
  }

  ghost predicate ParentOk(g: Graph, t: Tree, root: NodeId, order: seq<NodeId>) {
    && (forall n :: n in t.parent <==> n != root && Reached(t, n))
    && (forall n {:trigger ParentIsFirst(g, t, order, n)} :: n in t.parent ==> ParentIsFirst(g, t, order, n))
    && (forall k {:trigger ParentBefore(t, order, k)} :: 0 < k < |order| ==> ParentBefore(t, order, k))
  }

  /** A child of the root uses a link to itself, any other node its parent's link. */
  ghost predicate HopOf(t: Tree, root: NodeId, n: NodeId)
    requires n in t.parent
  {
    && n in t.nextHop
    && if t.parent[n] == root then t.nextHop[n].peerId == n
       else t.parent[n] in t.nextHop && t.nextHop[n] == t.nextHop[t.parent[n]]
  }

  ghost predicate HopOk(t: Tree, root: NodeId, links: map<ConnectionId, Link>) {
    && t.nextHop.Keys == t.parent.Keys
    && (forall n :: n in t.nextHop ==> t.nextHop[n] in links.Values)
    && (forall n {:trigger HopOf(t, root, n)} :: n in t.parent ==> HopOf(t, root, n))
  }

  /** The next node to settle is the best one with a tight edge from a settled node. */
  ghost predicate Greedy(g: Graph, t: Tree, order: seq<NodeId>) {
    forall j, k, v :: 0 <= j < k < |order| && Tight(g, t.cost, order[j], v) && Reached(t, v) && v !in order[..k] ==>
      !Rank(t, v).Better(Rank(t, order[k]))
  }

  ghost predicate RunOk(g: Graph, t: Tree, root: NodeId, links: map<ConnectionId, Link>,
                        queue: seq<Entry>, order: seq<NodeId>, done: nat) {
    && CostOk(g, t, root)
    && QueueOk(t, queue, order)
    && OrderOk(t, root, queue, order)
    && RelaxedOk(g, t, order, done)
    && ParentOk(g, t, root, order)
    && HopOk(t, root, links)
    && Greedy(g, t, order)
  }

  /** All adjacencies of the last settled node are relaxed. */
  ghost predicate AllRelaxed(g: Graph, t: Tree, order: seq<NodeId>) {
    forall n :: n in order ==> Relaxed(g, t.cost, n)
  }

  function Universe(g: Graph, root: NodeId): set<NodeId> {
    {root} + g.Keys + (set u, a | u in g && a in g[u] :: a.peerId)
  }

  // ------------------------------------------------------------------- steps

  /** The search starts with the root alone in the queue. */
  lemma StartOk(g: Graph, t: Tree, root: NodeId, links: map<ConnectionId, Link>)
    requires t.parent == map[] && t.nextHop == map[]
    requires t.cost.Keys == g.Keys + {root} && t.cost[root] == 0
    requires forall n :: n in t.cost && n != root ==> t.cost[n] == MAX_COST
    ensures RunOk(g, t, root, links, [Entry(0, root)], [], 0) && AllRelaxed(g, t, [])
  {
  }

  lemma SettleHead(g: Graph, t: Tree, root: NodeId, links: map<ConnectionId, Link>,
                   queue: seq<Entry>, order: seq<NodeId>, done: nat)
    requires RunOk(g, t, root, links, queue, order, done) && AllRelaxed(g, t, order) && queue != []
    ensures RunOk(g, t, root, links, queue[1..], order + [queue[0].node], 0)
  {
    SettleHeadQueue(t, root, queue, order);
    SettleHeadParents(g, t, root, queue, order);
    SettleHeadGreedy(g, t, root, queue, order);
  }

  lemma SettleHeadQueue(t: Tree, root: NodeId, queue: seq<Entry>, order: seq<NodeId>)
    requires QueueOk(t, queue, order) && OrderOk(t, root, queue, order) && queue != []
    ensures QueueOk(t, queue[1..], order + [queue[0].node])
    ensures OrderOk(t, root, queue[1..], order + [queue[0].node])
  {
    assert queue[0] in queue;
    forall e | e in queue[1..] ensures e in queue && e.node != queue[0].node {
    }
    SettleHeadOrder(t, root, queue, order);
  }

  lemma SettleHeadOrder(t: Tree, root: NodeId, queue: seq<Entry>, order: seq<NodeId>)
    requires OrderOk(t, root, queue, order) && queue != [] && queue[0] in queue
    requires queue[0].node !in order && Reached(t, queue[0].node) && queue[0] == Rank(t, queue[0].node)
    requires forall e :: e in queue[1..] ==> e in queue && queue[0].Better(e)
    ensures OrderOk(t, root, queue[1..], order + [queue[0].node])
  {
    var order' := order + [queue[0].node];
    forall i, j | 0 <= i < j < |order'|
      ensures order'[i] != order'[j] && CostOf(t.cost, order'[i]) <= CostOf(t.cost, order'[j])
    {
      assert order'[i] in order;
    }
  }

  lemma SettleHeadParents(g: Graph, t: Tree, root: NodeId, queue: seq<Entry>, order: seq<NodeId>)
    requires ParentOk(g, t, root, order) && queue != [] && Reached(t, queue[0].node) && queue[0].node !in order
    requires if order == [] then queue == [Entry(0, root)] else order[0] == root
    ensures ParentOk(g, t, root, order + [queue[0].node])
  {
    var u := queue[0].node;
    var order' := order + [u];
    forall n | n in t.parent ensures ParentIsFirst(g, t, order', n) {
      assert ParentIsFirst(g, t, order, n);
      var i :| FirstTight(g, t, order, n, i);
      assert FirstTight(g, t, order', n, i);
    }
    forall k | 0 < k < |order'| ensures ParentBefore(t, order', k) {
      if k < |order| {
        assert ParentBefore(t, order, k) && order'[..k] == order[..k];
      } else {
        assert order[0] in order && order'[..k] == order;
        assert ParentIsFirst(g, t, order, u);
        var i :| FirstTight(g, t, order, u, i);
      }
    }
  }

  lemma SettleHeadGreedy(g: Graph, t: Tree, root: NodeId, queue: seq<Entry>, order: seq<NodeId>)
    requires Greedy(g, t, order) && QueueOk(t, queue, order) && queue != []
    ensures Greedy(g, t, order + [queue[0].node])
  {
    var order' := order + [queue[0].node];
    forall j, k, v | 0 <= j < k < |order'| && Tight(g, t.cost, order'[j], v) && Reached(t, v) && v !in order'[..k]
      ensures !Rank(t, v).Better(Rank(t, order'[k]))
    {
      if k < |order| {
        assert order'[..k] == order[..k] && order'[j] == order[j];
      } else {
        assert order'[..k] == order;
        assert Rank(t, v) in queue && queue[0] in queue;
      }
    }
  }

  lemma SkipAdjacency(g: Graph, t: Tree, root: NodeId, links: map<ConnectionId, Link>,
                      queue: seq<Entry>, order: seq<NodeId>, done: nat)
    requires RunOk(g, t, root, links, queue, order, done) && order != []
    requires done < |Adj(g, order[|order| - 1])|
    requires var u := order[|order| - 1]; var a := Adj(g, u)[done];
             !Entry(Plus(t.cost[u], a.cost), a.peerId).Better(Rank(t, a.peerId))
    ensures RunOk(g, t, root, links, queue, order, done + 1)
  {
  }

  // A strictly better way to reach v through the last settled node u.

  ghost predicate Improves(g: Graph, t: Tree, order: seq<NodeId>, done: nat, v: NodeId, c: Cost) {
    order != [] &&
    var u := order[|order| - 1];
    u in t.cost && done < |Adj(g, u)| && v == Adj(g, u)[done].peerId &&
    c == Plus(t.cost[u], Adj(g, u)[done].cost) && Entry(c, v).Better(Rank(t, v))
  }

  function Improve(t: Tree, u: NodeId, v: NodeId, c: Cost, link: Link): Tree {
    Tree(t.cost[v := c], t.parent[v := u], t.nextHop[v := link])
  }

  ghost predicate Requeued(queue: seq<Entry>, v: NodeId, c: Cost, queue': seq<Entry>) {
    Sorted(queue') && forall e :: e in queue' <==> e == Entry(c, v) || (e in queue && e.node != v)
  }

  lemma ImproveFacts(g: Graph, t: Tree, root: NodeId, queue: seq<Entry>, order: seq<NodeId>, done: nat, v: NodeId,
                     c: Cost)
    requires Improves(g, t, order, done, v, c) && OrderOk(t, root, queue, order) && CostOk(g, t, root)
    ensures v !in order && v != root && c < MAX_COST
    ensures forall n :: n in order ==> t.cost[n] <= c
  {
  }

  lemma ImproveQueue(g: Graph, t: Tree, root: NodeId, queue: seq<Entry>, order: seq<NodeId>, done: nat,
                     v: NodeId, c: Cost, link: Link, queue': seq<Entry>)
    requires Improves(g, t, order, done, v, c) && Requeued(queue, v, c, queue')
    requires CostOk(g, t, root) && QueueOk(t, queue, order) && OrderOk(t, root, queue, order)
    ensures var t' := Improve(t, order[|order| - 1], v, c, link);
            CostOk(g, t', root) && QueueOk(t', queue', order) && OrderOk(t', root, queue', order)
  {
    ImproveFacts(g, t, root, queue, order, done, v, c);
    var t' := Improve(t, order[|order| - 1], v, c, link);
    forall n | Reached(t', n) && n !in order ensures Rank(t', n) in queue' {
      assert n != v ==> Reached(t, n) && Rank(t, n) in queue;
    }
    forall i, j | 0 <= i < j < |order| ensures CostOf(t'.cost, order[i]) <= CostOf(t'.cost, order[j]) {
      assert order[i] in order && order[j] in order;
    }
  }

  lemma ImproveRelaxed(g: Graph, t: Tree, root: NodeId, queue: seq<Entry>, order: seq<NodeId>, done: nat,
                       v: NodeId, c: Cost, link: Link)
    requires Improves(g, t, order, done, v, c) && RelaxedOk(g, t, order, done)
    requires CostOk(g, t, root) && OrderOk(t, root, queue, order)
    ensures RelaxedOk(g, Improve(t, order[|order| - 1], v, c, link), order, done + 1)
  {
    ImproveFacts(g, t, root, queue, order, done, v, c);
    var t' := Improve(t, order[|order| - 1], v, c, link);
    forall i | 0 <= i < |order| - 1 ensures Relaxed(g, t'.cost, order[i]) {
      assert Relaxed(g, t.cost, order[i]) && order[i] in order;
    }
    assert order[|order| - 1] in order;
  }

  /** Edges of nodes settled before the last one are not tight for an improved node. */
  lemma ImproveTight(g: Graph, t: Tree, root: NodeId, queue: seq<Entry>, order: seq<NodeId>, done: nat,
                     v: NodeId, c: Cost, link: Link, i: nat, n: NodeId)
    requires Improves(g, t, order, done, v, c) && RelaxedOk(g, t, order, done) && i < |order|
    requires CostOk(g, t, root) && OrderOk(t, root, queue, order)
    ensures var t' := Improve(t, order[|order| - 1], v, c, link);
            if n == v then i < |order| - 1 ==> !Tight(g, t'.cost, order[i], n)
            else Tight(g, t'.cost, order[i], n) == Tight(g, t.cost, order[i], n)
  {
  }

  lemma ImproveParents(g: Graph, t: Tree, root: NodeId, queue: seq<Entry>, order: seq<NodeId>, done: nat,
                       v: NodeId, c: Cost, link: Link)
    requires Improves(g, t, order, done, v, c) && RelaxedOk(g, t, order, done) && ParentOk(g, t, root, order)
    requires CostOk(g, t, root) && OrderOk(t, root, queue, order)
    ensures ParentOk(g, Improve(t, order[|order| - 1], v, c, link), root, order)
  {
    ImproveFacts(g, t, root, queue, order, done, v, c);
    var u := order[|order| - 1];
    var t' := Improve(t, u, v, c, link);
    forall n | n in t'.parent ensures ParentIsFirst(g, t', order, n) {
      var i: nat;
      if n == v {
        i := |order| - 1;
        assert u in order && Adj(g, u)[done] in Adj(g, u);
        assert Tight(g, t'.cost, u, v);
      } else {
        assert ParentIsFirst(g, t, order, n);
        i :| 0 <= i && FirstTight(g, t, order, n, i);
        ImproveTight(g, t, root, queue, order, done, v, c, link, i, n);
      }
      forall j | 0 <= j < i ensures !Tight(g, t'.cost, order[j], n) {
        ImproveTight(g, t, root, queue, order, done, v, c, link, j, n);
      }
      assert FirstTight(g, t', order, n, i);
    }
    forall k | 0 < k < |order| ensures ParentBefore(t', order, k) {
      assert ParentBefore(t, order, k) && order[k] in order;
    }
  }

  lemma ImproveGreedy(g: Graph, t: Tree, root: NodeId, queue: seq<Entry>, order: seq<NodeId>, done: nat,
                      v: NodeId, c: Cost, link: Link)
    requires Improves(g, t, order, done, v, c) && RelaxedOk(g, t, order, done) && Greedy(g, t, order)
    requires CostOk(g, t, root) && OrderOk(t, root, queue, order)
    ensures Greedy(g, Improve(t, order[|order| - 1], v, c, link), order)
  {
    ImproveFacts(g, t, root, queue, order, done, v, c);
    var t' := Improve(t, order[|order| - 1], v, c, link);
    forall j, k, n | 0 <= j < k < |order| && Tight(g, t'.cost, order[j], n) && Reached(t', n) && n !in order[..k]
      ensures !Rank(t', n).Better(Rank(t', order[k]))
    {
      ImproveTight(g, t, root, queue, order, done, v, c, link, j, n);
      assert order[k] in order;
      if n != v {
        assert Tight(g, t.cost, order[j], n) && Reached(t, n);
        assert !Rank(t, n).Better(Rank(t, order[k]));
      }
    }
  }

  lemma ImproveHops(t: Tree, root: NodeId, links: map<ConnectionId, Link>, u: NodeId, v: NodeId, c: Cost, link: Link)
    requires HopOk(t, root, links) && link in links.Values && v != u && v != root
    requires forall n :: n in t.parent ==> t.parent[n] != v
    requires if u == root then link.peerId == v else u in t.nextHop && link == t.nextHop[u]
    ensures HopOk(Improve(t, u, v, c, link), root, links)
  {
    forall n | n in Improve(t, u, v, c, link).parent ensures HopOf(Improve(t, u, v, c, link), root, n) {
      assert n != v ==> HopOf(t, root, n);
    }
  }

  lemma ParentsSettled(g: Graph, t: Tree, root: NodeId, order: seq<NodeId>)
    requires ParentOk(g, t, root, order)
    ensures forall n :: n in t.parent ==> t.parent[n] in order
  {
    forall n | n in t.parent ensures t.parent[n] in order {
      assert ParentIsFirst(g, t, order, n);
      var i :| FirstTight(g, t, order, n, i);
    }
  }

  lemma ImproveStep(g: Graph, t: Tree, root: NodeId, links: map<ConnectionId, Link>, queue: seq<Entry>,
                    order: seq<NodeId>, done: nat, v: NodeId, c: Cost, link: Link, queue': seq<Entry>)
    requires RunOk(g, t, root, links, queue, order, done) && Improves(g, t, order, done, v, c)
    requires Requeued(queue, v, c, queue') && link in links.Values
    requires var u := order[|order| - 1];
             if u == root then link.peerId == v else u in t.nextHop && link == t.nextHop[u]
    ensures RunOk(g, Improve(t, order[|order| - 1], v, c, link), root, links, queue', order, done + 1)
  {
    ImproveFacts(g, t, root, queue, order, done, v, c);
    ImproveQueue(g, t, root, queue, order, done, v, c, link, queue');
    ImproveRelaxed(g, t, root, queue, order, done, v, c, link);
    ImproveParents(g, t, root, queue, order, done, v, c, link);
    ImproveGreedy(g, t, root, queue, order, done, v, c, link);
    ParentsSettled(g, t, root, order);
    ImproveHops(t, root, links, order[|order| - 1], v, c, link);
  }
}
