/** What a finished shortest-path run means: exact saturated costs, a tree of
    shortest paths, and a result that no iteration order can change. */
module SpfTheorems {
  import opened Routing
  import opened Paths
  import opened Spf

  /** The settled nodes are exactly the reached ones, the root first, costs never falling. */
  ghost predicate Complete(t: Tree, root: NodeId, order: seq<NodeId>) {
    && Distinct(order)
    && order != [] && order[0] == root
    && (forall n :: Reached(t, n) <==> n in order)
    && (forall i, j :: 0 <= i < j < |order| ==> CostOf(t.cost, order[i]) <= CostOf(t.cost, order[j]))
  }

  /** What holds once the queue has run empty. */
  ghost predicate Settled(g: Graph, root: NodeId, links: map<ConnectionId, Link>, t: Tree, order: seq<NodeId>) {
    && Complete(t, root, order)
    && AllRelaxed(g, t, order)
    && CostOk(g, t, root)
    && ParentOk(g, t, root, order)
    && HopOk(t, root, links)
    && Greedy(g, t, order)
  }

  lemma RunSettles(g: Graph, t: Tree, root: NodeId, links: map<ConnectionId, Link>, order: seq<NodeId>, done: nat)
    requires RunOk(g, t, root, links, [], order, done) && AllRelaxed(g, t, order)
    ensures Settled(g, root, links, t, order)
  {
  }

  ghost predicate IsSpf(g: Graph, root: NodeId, links: map<ConnectionId, Link>, t: Tree) {
    exists order :: Settled(g, root, links, t, order)
  }

  // ---------------------------------------------------------- exact distances

  /** Every cost is min(65535, least path length); nodes that advertise no
      adjacencies appear only below 65535. */
  ghost predicate ExactCosts(g: Graph, root: NodeId, cost: map<NodeId, Cost>) {
    && (forall p :: IsPath(g, p) && First(p) == root ==> CostOf(cost, Last(p)) <= Length(p))
    && (forall n :: CostOf(cost, n) < MAX_COST ==>
      exists p :: PathBetween(g, root, n, p) && Length(p) == CostOf(cost, n))
    && (forall n :: n in cost <==> n in g || n == root || CostOf(cost, n) < MAX_COST)
  }

  lemma {:induction false} NoPathIsShorter(g: Graph, root: NodeId, t: Tree,
                                           order: seq<NodeId>, p: Path)
    requires Complete(t, root, order) && AllRelaxed(g, t, order) && CostOk(g, t, root)
    requires IsPath(g, p) && First(p) == root
    ensures CostOf(t.cost, Last(p)) <= Length(p)
  {
    if p.Hop? && Length(p) < MAX_COST {
      NoPathIsShorter(g, root, t, order, p.prev);
      var u := Last(p.prev);
      assert Reached(t, u) && u in order;
      assert Relaxed(g, t.cost, u);
    }
  }

  /** A path that climbs the parent map link by link, costs adding up. */
  ghost predicate IsBranch(g: Graph, t: Tree, p: Path) {
    match p
    case Start(_) => true
    case Hop(q, n, w) =>
      && IsBranch(g, t, q)
      && n in t.parent && t.parent[n] == Last(q)
      && Edge(g, Last(q), n, w)
      && CostOf(t.cost, n) == CostOf(t.cost, Last(q)) + w
  }

  lemma {:induction false} BranchIsPath(g: Graph, t: Tree, p: Path)
    requires IsBranch(g, t, p)
    ensures IsPath(g, p)
    ensures Length(p) == CostOf(t.cost, Last(p)) - CostOf(t.cost, First(p))
  {
    if p.Hop? {
      BranchIsPath(g, t, p.prev);
    }
  }

  /** The branch of the k-th settled node starts at the root, and its second
      node is the neighbour the next hop points at. */
  lemma {:induction false} BranchOf(g: Graph, root: NodeId, links: map<ConnectionId, Link>, t: Tree,
                                    order: seq<NodeId>, k: nat) returns (p: Path)
    requires Complete(t, root, order) && ParentOk(g, t, root, order) && HopOk(t, root, links) && k < |order|
    ensures IsBranch(g, t, p) && First(p) == root && Last(p) == order[k]
    ensures p.Start? <==> order[k] == root
    ensures p.Hop? ==> order[k] in t.nextHop && t.nextHop[order[k]].peerId == Second(p)
    ensures p.Hop? ==> Second(p) in t.nextHop && t.nextHop[Second(p)] == t.nextHop[order[k]]
    decreases k
  {
    if k == 0 {
      p := Start(root);
    } else {
      var n := order[k];
      assert ParentBefore(t, order, k);
      var i :| 0 <= i < k && order[i] == t.parent[n];
      var q := BranchOf(g, root, links, t, order, i);
      assert ParentIsFirst(g, t, order, n);
      assert HopOf(t, root, n);
      var j: nat :| FirstTight(g, t, order, n, j);
      var a :| a in Adj(g, order[j]) && a.peerId == n && t.cost[order[j]] + a.cost == t.cost[n];
      p := Hop(q, n, a.cost);
      assert Edge(g, order[j], n, a.cost);
      assert q.Start? ==> order[i] == root;
    }
  }

  lemma CostsAreExact(g: Graph, root: NodeId, links: map<ConnectionId, Link>, t: Tree)
    requires IsSpf(g, root, links, t)
    ensures ExactCosts(g, root, t.cost)
  {
    var order :| Settled(g, root, links, t, order);
    forall p | IsPath(g, p) && First(p) == root ensures CostOf(t.cost, Last(p)) <= Length(p) {
      NoPathIsShorter(g, root, t, order, p);
    }
    forall n | CostOf(t.cost, n) < MAX_COST
      ensures exists p :: PathBetween(g, root, n, p) && Length(p) == CostOf(t.cost, n)
    {
      assert Reached(t, n) && n in order;
      var k :| 0 <= k < |order| && order[k] == n;
      var p := BranchOf(g, root, links, t, order, k);
      BranchIsPath(g, t, p);
    }
  }

  /** Exactness pins the cost map down: it is a specification, not a bound. */
  lemma ExactCostsUnique(g: Graph, root: NodeId, c1: map<NodeId, Cost>, c2: map<NodeId, Cost>)
    requires ExactCosts(g, root, c1) && ExactCosts(g, root, c2)
    ensures c1 == c2
  {
    forall n ensures CostOf(c1, n) == CostOf(c2, n) {
      if CostOf(c1, n) < MAX_COST {
        var p :| PathBetween(g, root, n, p) && Length(p) == CostOf(c1, n);
      }
      if CostOf(c2, n) < MAX_COST {
        var p :| PathBetween(g, root, n, p) && Length(p) == CostOf(c2, n);
      }
    }
    forall n | n in c1 ensures n in c2 && c1[n] == c2[n] {
      assert CostOf(c1, n) == CostOf(c2, n);
    }
    forall n | n in c2 ensures n in c1 {
      assert CostOf(c1, n) == CostOf(c2, n);
    }
  }

  // ----------------------------------------------------------- tree soundness

  /** Parents and next hops cover exactly the reached nodes but the root; every
      parent chain is finite, ends at the root and adds up to the cost; and the
      next hop is the first node after the root on that chain. */
  lemma TreeIsSound(g: Graph, root: NodeId, links: map<ConnectionId, Link>, t: Tree, n: NodeId)
    requires IsSpf(g, root, links, t)
    ensures n in t.parent <==> n != root && Reached(t, n)
    ensures n in t.nextHop <==> n in t.parent
    ensures Reached(t, n) ==>
              exists p :: IsBranch(g, t, p) && First(p) == root && Last(p) == n && Length(p) == CostOf(t.cost, n) &&
                          (n != root ==> p.Hop? && t.nextHop[n].peerId == Second(p))
    ensures n in t.nextHop ==> t.nextHop[n] in links.Values
    ensures n in t.nextHop ==> t.nextHop[n].peerId in t.nextHop && t.nextHop[t.nextHop[n].peerId] == t.nextHop[n]
  {
    var order :| Settled(g, root, links, t, order);
    if Reached(t, n) {
      assert n in order;
      var k :| 0 <= k < |order| && order[k] == n;
      var p := BranchOf(g, root, links, t, order, k);
      BranchIsPath(g, t, p);
    }
  }

  /** Through its next hop a destination costs the link plus a path onwards. */
  lemma NextHopSplits(g: Graph, root: NodeId, links: map<ConnectionId, Link>, t: Tree, n: NodeId)
      returns (w: Cost, q: Path)
    requires IsSpf(g, root, links, t) && n in t.nextHop
    ensures Edge(g, root, t.nextHop[n].peerId, w)
    ensures PathBetween(g, t.nextHop[n].peerId, n, q)
    ensures CostOf(t.cost, n) == w + Length(q)
  {
    TreeIsSound(g, root, links, t, n);
    var p :| IsBranch(g, t, p) && First(p) == root && Last(p) == n && Length(p) == CostOf(t.cost, n) &&
             p.Hop? && t.nextHop[n].peerId == Second(p);
    BranchIsPath(g, t, p);
    SplitFirst(g, p);
    w, q := FirstCost(p), Rest(p);
  }

  // -------------------------------------------------------------- determinism

  /** The same advertised edges, in whatever order and multiplicity. */
  ghost predicate SameEdges(g1: Graph, g2: Graph) {
    g1.Keys == g2.Keys && forall u, v, w :: Edge(g1, u, v, w) <==> Edge(g2, u, v, w)
  }

  lemma {:induction false} SameEdgesPath(g1: Graph, g2: Graph, p: Path)
    requires SameEdges(g1, g2) && IsPath(g1, p)
    ensures IsPath(g2, p)
  {
    if p.Hop? {
      SameEdgesPath(g1, g2, p.prev);
    }
  }

  lemma SameEdgesExact(g1: Graph, g2: Graph, root: NodeId, cost: map<NodeId, Cost>)
    requires SameEdges(g1, g2) && ExactCosts(g1, root, cost)
    ensures ExactCosts(g2, root, cost)
  {
    forall p | IsPath(g2, p) && First(p) == root ensures CostOf(cost, Last(p)) <= Length(p) {
      SameEdgesPath(g2, g1, p);
    }
    forall n | CostOf(cost, n) < MAX_COST
      ensures exists p :: PathBetween(g2, root, n, p) && Length(p) == CostOf(cost, n)
    {
      var p :| PathBetween(g1, root, n, p) && Length(p) == CostOf(cost, n);
      SameEdgesPath(g1, g2, p);
    }
  }

  lemma SameEdgesTight(g1: Graph, g2: Graph, cost: map<NodeId, Cost>, u: NodeId, v: NodeId)
    requires SameEdges(g1, g2) && Tight(g1, cost, u, v)
    ensures Tight(g2, cost, u, v)
  {
    var a :| a in Adj(g1, u) && a.peerId == v && cost[u] + a.cost == cost[v];
    assert Edge(g1, u, v, a.cost);
    assert Edge(g2, u, v, a.cost);
  }

  /** Every settled node but the root has a tight edge from an earlier one. */
  lemma TightBefore(g: Graph, t: Tree, root: NodeId, order: seq<NodeId>, k: nat) returns (j: nat)
    requires Complete(t, root, order) && ParentOk(g, t, root, order) && 0 < k < |order|
    ensures j < k && Tight(g, t.cost, order[j], order[k])
  {
    var n := order[k];
    assert ParentBefore(t, order, k);
    var i :| 0 <= i < k && order[..k][i] == t.parent[n];
    assert ParentIsFirst(g, t, order, n);
    j :| FirstTight(g, t, order, n, j);
    assert order[i] == order[j];
  }

  lemma NextIsBest(g1: Graph, g2: Graph, root: NodeId, t1: Tree, t2: Tree, order1: seq<NodeId>, order2: seq<NodeId>,
                   k: nat)
    requires SameEdges(g1, g2) && t1.cost == t2.cost
    requires Greedy(g1, t1, order1)
    requires Complete(t2, root, order2) && ParentOk(g2, t2, root, order2)
    requires 0 < k < |order1| && k < |order2| && order1[..k] == order2[..k]
    ensures !Rank(t1, order2[k]).Better(Rank(t1, order1[k]))
  {
    var j := TightBefore(g2, t2, root, order2, k);
    SameEdgesTight(g2, g1, t1.cost, order2[j], order2[k]);
    assert order1[j] == order1[..k][j] == order2[..k][j] == order2[j];
    assert order2[k] in order2 && Reached(t2, order2[k]);
    assert order2[k] !in order2[..k];
  }

  lemma SameNext(g1: Graph, g2: Graph, root: NodeId, t1: Tree, t2: Tree, order1: seq<NodeId>, order2: seq<NodeId>,
                 k: nat)
    requires SameEdges(g1, g2) && t1.cost == t2.cost
    requires Complete(t1, root, order1) && ParentOk(g1, t1, root, order1) && Greedy(g1, t1, order1)
    requires Complete(t2, root, order2) && ParentOk(g2, t2, root, order2) && Greedy(g2, t2, order2)
    requires 0 < k < |order1| && k < |order2| && order1[..k] == order2[..k]
    ensures order1[k] == order2[k]
  {
    NextIsBest(g1, g2, root, t1, t2, order1, order2, k);
    NextIsBest(g2, g1, root, t2, t1, order2, order1, k);
  }

  lemma {:induction false} SameOrder(g1: Graph, g2: Graph, root: NodeId, t1: Tree, t2: Tree,
                                     order1: seq<NodeId>, order2: seq<NodeId>, k: nat)
    requires SameEdges(g1, g2) && t1.cost == t2.cost
    requires Complete(t1, root, order1) && ParentOk(g1, t1, root, order1) && Greedy(g1, t1, order1)
    requires Complete(t2, root, order2) && ParentOk(g2, t2, root, order2) && Greedy(g2, t2, order2)
    requires k <= |order1| && k <= |order2|
    ensures order1[..k] == order2[..k]
  {
    if k == 0 {
      assert order1[..0] == [] && order2[..0] == [];
    } else if k == 1 {
      assert order1[..1] == [root] && order2[..1] == [root];
    } else {
      SameOrder(g1, g2, root, t1, t2, order1, order2, k - 1);
      SameNext(g1, g2, root, t1, t2, order1, order2, k - 1);
      assert order1[..k] == order1[..k - 1] + [order1[k - 1]] && order2[..k] == order2[..k - 1] + [order2[k - 1]];
    }
  }

  /** Costs, parents and next-hop neighbours depend only on the advertised
      edges: not on list order, map order, or the choice among parallel links. */
  lemma TreeIsDeterministic(g1: Graph, g2: Graph, root: NodeId, links1: map<ConnectionId, Link>,
                            links2: map<ConnectionId, Link>,
                            t1: Tree, t2: Tree)
    requires SameEdges(g1, g2) && IsSpf(g1, root, links1, t1) && IsSpf(g2, root, links2, t2)
    ensures t1.cost == t2.cost && t1.parent == t2.parent
    ensures t1.nextHop.Keys == t2.nextHop.Keys
    ensures forall n :: n in t1.nextHop ==> t1.nextHop[n].peerId == t2.nextHop[n].peerId
  {
    SameCosts(g1, g2, root, links1, links2, t1, t2);
    var o1 :| Settled(g1, root, links1, t1, o1);
    var o2 :| Settled(g2, root, links2, t2, o2);
    SameLength(root, t1, t2, o1, o2);
    SameOrder(g1, g2, root, t1, t2, o1, o2, |o1|);
    assert o1[..|o1|] == o1 && o2[..|o2|] == o2;
    SameParents(g1, g2, root, t1, t2, o1);
    AllSamePeers(g1, root, links1, links2, t1, t2, o1);
  }

  lemma SameCosts(g1: Graph, g2: Graph, root: NodeId, links1: map<ConnectionId, Link>, links2: map<ConnectionId, Link>,
                  t1: Tree, t2: Tree)
    requires SameEdges(g1, g2) && IsSpf(g1, root, links1, t1) && IsSpf(g2, root, links2, t2)
    ensures t1.cost == t2.cost
  {
    CostsAreExact(g1, root, links1, t1);
    CostsAreExact(g2, root, links2, t2);
    SameEdgesExact(g1, g2, root, t1.cost);
    ExactCostsUnique(g2, root, t1.cost, t2.cost);
  }

  function Elements(s: seq<NodeId>): set<NodeId> {
    set n | n in s
  }

  lemma {:induction false} CountDistinct(s: seq<NodeId>)
    requires Distinct(s)
    ensures |Elements(s)| == |s|
  {
    if s != [] {
      var front, x := s[..|s| - 1], s[|s| - 1];
      CountDistinct(front);
      assert s == front + [x];
      assert Elements(s) == Elements(front) + {x};
    }
  }

  lemma SameLength(root: NodeId, t1: Tree, t2: Tree, o1: seq<NodeId>, o2: seq<NodeId>)
    requires Complete(t1, root, o1) && Complete(t2, root, o2) && t1.cost == t2.cost
    ensures |o1| == |o2|
  {
    CountDistinct(o1);
    CountDistinct(o2);
    forall n ensures n in o1 <==> n in o2 {
      assert Reached(t1, n) == Reached(t2, n);
    }
    assert Elements(o1) == Elements(o2);
  }

  lemma SameParents(g1: Graph, g2: Graph, root: NodeId, t1: Tree, t2: Tree, o: seq<NodeId>)
    requires SameEdges(g1, g2) && t1.cost == t2.cost && Distinct(o)
    requires ParentOk(g1, t1, root, o) && ParentOk(g2, t2, root, o)
    ensures t1.parent == t2.parent
  {
    forall n ensures n in t1.parent <==> n in t2.parent {
      assert Reached(t1, n) == Reached(t2, n);
    }
    forall n | n in t1.parent ensures t1.parent[n] == t2.parent[n] {
      assert ParentIsFirst(g1, t1, o, n) && ParentIsFirst(g2, t2, o, n);
      var i: nat :| FirstTight(g1, t1, o, n, i);
      var j: nat :| FirstTight(g2, t2, o, n, j);
      SameEdgesTight(g1, g2, t1.cost, o[i], n);
      SameEdgesTight(g2, g1, t1.cost, o[j], n);
    }
  }

  lemma {:induction false} SamePeers(g: Graph, root: NodeId, links1: map<ConnectionId, Link>,
                                     links2: map<ConnectionId, Link>,
                                     t1: Tree, t2: Tree, o: seq<NodeId>, k: nat)
    requires Complete(t1, root, o) && ParentOk(g, t1, root, o) && t1.parent == t2.parent
    requires HopOk(t1, root, links1) && HopOk(t2, root, links2)
    requires k < |o| && o[k] in t1.nextHop
    ensures o[k] in t2.nextHop && t1.nextHop[o[k]].peerId == t2.nextHop[o[k]].peerId
    decreases k
  {
    assert HopOf(t1, root, o[k]) && HopOf(t2, root, o[k]);
    if k > 0 && t1.parent[o[k]] != root {
      assert ParentBefore(t1, o, k);
      var i :| 0 <= i < k && o[..k][i] == t1.parent[o[k]];
      SamePeers(g, root, links1, links2, t1, t2, o, i);
    }
  }

  lemma AllSamePeers(g: Graph, root: NodeId, links1: map<ConnectionId, Link>, links2: map<ConnectionId, Link>, t1: Tree,
                     t2: Tree, o: seq<NodeId>)
    requires Complete(t1, root, o) && ParentOk(g, t1, root, o) && t1.parent == t2.parent
    requires HopOk(t1, root, links1) && HopOk(t2, root, links2)
    ensures t1.nextHop.Keys == t2.nextHop.Keys
    ensures forall n :: n in t1.nextHop ==> t1.nextHop[n].peerId == t2.nextHop[n].peerId
  {
    forall n | n in t1.nextHop ensures t1.nextHop[n].peerId == t2.nextHop[n].peerId {
      assert n in t1.parent && Reached(t1, n) && n in o;
      var k :| 0 <= k < |o| && o[k] == n;
      SamePeers(g, root, links1, links2, t1, t2, o, k);
    }
  }

  /** With positive costs the settled order is the (cost, id) order. */
  lemma PositiveOrder(g: Graph, t: Tree, root: NodeId, order: seq<NodeId>, i: nat, m: nat)
    requires Complete(t, root, order) && ParentOk(g, t, root, order) && Greedy(g, t, order) && Positive(g)
    requires 0 < i < m < |order|
    ensures !Rank(t, order[m]).Better(Rank(t, order[i]))
  {
    var u := order[m];
    var k := TightBefore(g, t, root, order, m);
    var a :| a in Adj(g, order[k]) && a.peerId == u && t.cost[order[k]] + a.cost == t.cost[u];
    assert Edge(g, order[k], u, a.cost);
    assert CostOf(t.cost, order[k]) < CostOf(t.cost, u);
    assert CostOf(t.cost, order[i]) <= CostOf(t.cost, u);
    if k < i {
      assert u in order && u !in order[..i];
    }
  }

  /** With positive costs the parent is the tight predecessor of least (cost, id). */
  lemma ParentIsLeastTight(g: Graph, root: NodeId, links: map<ConnectionId, Link>, t: Tree, n: NodeId, u: NodeId)
    requires IsSpf(g, root, links, t) && Positive(g) && n in t.parent && Tight(g, t.cost, u, n)
    ensures Tight(g, t.cost, t.parent[n], n)
    ensures !Rank(t, u).Better(Rank(t, t.parent[n]))
  {
    var order :| Settled(g, root, links, t, order);
    LeastInOrder(g, root, t, order, n, u);
  }

  lemma LeastInOrder(g: Graph, root: NodeId, t: Tree, order: seq<NodeId>, n: NodeId, u: NodeId)
    requires Complete(t, root, order) && ParentOk(g, t, root, order) && Greedy(g, t, order) && Positive(g)
    requires n in t.parent && Tight(g, t.cost, u, n)
    ensures Tight(g, t.cost, t.parent[n], n)
    ensures !Rank(t, u).Better(Rank(t, t.parent[n]))
  {
    assert ParentIsFirst(g, t, order, n);
    var i: nat :| FirstTight(g, t, order, n, i);
    assert Reached(t, n) && Reached(t, u) && u in order;
    var m :| 0 <= m < |order| && order[m] == u;
    if 0 < i < m {
      PositiveOrder(g, t, root, order, i, m);
    } else if i == 0 < m {
      PositiveFromRoot(g, t, root, order, m);
    }
  }

  lemma PositiveFromRoot(g: Graph, t: Tree, root: NodeId, order: seq<NodeId>, m: nat)
    requires Complete(t, root, order) && ParentOk(g, t, root, order) && Positive(g) && 0 < m < |order|
    ensures CostOf(t.cost, root) < CostOf(t.cost, order[m])
  {
    var k := TightBefore(g, t, root, order, m);
    var a :| a in Adj(g, order[k]) && a.peerId == order[m] && t.cost[order[k]] + a.cost == t.cost[order[m]];
    assert Edge(g, order[k], order[m], a.cost);
  }
}
