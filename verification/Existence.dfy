/** The search always has a result: links that cover a topology admit a tree, a tree
    and a route table admit a forwarding table, and so wired links admit a consistent
    network. What the theorems about networks assume can be had. */
module Existence {
  import opened Routing
  import opened Routes
  import opened Paths
  import opened Spf
  import opened SpfTheorems
  import opened LinkState
  import opened Forwarding
  import opened Database
  import opened PacketNet
  import opened Agreement

  // ---------------------------------------------------------------------- trees

  /** A position that keeps a sorted queue sorted. */
  lemma {:induction false} PlaceFor(queue: seq<Entry>, e: Entry) returns (pos: nat)
    requires Sorted(queue)
    ensures pos <= |queue|
    ensures forall i :: 0 <= i < pos ==> queue[i].Better(e)
    ensures forall i :: pos <= i < |queue| ==> !queue[i].Better(e)
  {
    if queue == [] || !queue[0].Better(e) {
      pos := 0;
    } else {
      pos := PlaceFor(queue[1..], e);
      pos := pos + 1;
      assert forall i :: 0 < i < |queue| ==> queue[i] == queue[1..][i - 1];
    }
  }

  lemma {:induction false} WithoutNode(queue: seq<Entry>, n: NodeId) returns (rest: seq<Entry>)
    requires Sorted(queue)
    ensures Sorted(rest) && forall e :: e in rest <==> e in queue && e.node != n
  {
    if queue == [] {
      rest := [];
    } else {
      var tail := WithoutNode(queue[1..], n);
      rest := if queue[0].node == n then tail else [queue[0]] + tail;
      assert forall e :: e in queue <==> e == queue[0] || e in queue[1..];
      forall i | 0 <= i < |tail| ensures queue[0].Better(tail[i]) {
        assert tail[i] in queue[1..];
      }
    }
  }

  lemma RequeuedExists(queue: seq<Entry>, e: Entry) returns (queue': seq<Entry>)
    requires Sorted(queue)
    ensures Requeued(queue, e.node, e.cost, queue')
  {
    var rest := WithoutNode(queue, e.node);
    var pos := PlaceFor(rest, e);
    InsertSorted(rest, e, pos);
    queue' := rest[..pos] + [e] + rest[pos..];
  }

  /** One adjacency of the node just settled. */
  lemma RelaxOne(g: Graph, t: Tree, root: NodeId, links: Links, queue: seq<Entry>, order: seq<NodeId>, done: nat)
      returns (t': Tree, queue': seq<Entry>)
    requires LinksCover(g, root, links) && RunOk(g, t, root, links, queue, order, done) && order != []
    requires done < |Adj(g, order[|order| - 1])| && InUniverse(g, root, queue, order)
    ensures RunOk(g, t', root, links, queue', order, done + 1) && InUniverse(g, root, queue', order)
  {
    var u := order[|order| - 1];
    var a := Adj(g, u)[done];
    assert a in Adj(g, u);
    LastIsSettled(g, t, root, links, queue, order, done);
    var c := Plus(t.cost[u], a.cost);
    if !Entry(c, a.peerId).Better(Rank(t, a.peerId)) {
      SkipAdjacency(g, t, root, links, queue, order, done);
      t', queue' := t, queue;
    } else {
      var link: Link;
      if u == root {
        link :| link in links.Values && link.peerId == a.peerId;
      } else {
        link := t.nextHop[u];
      }
      queue' := RequeuedExists(queue, Entry(c, a.peerId));
      t' := Improve(t, u, a.peerId, c, link);
      ImproveStep(g, t, root, links, queue, order, done, a.peerId, c, link, queue');
    }
  }

  lemma {:induction false} RelaxRest(g: Graph, t: Tree, root: NodeId, links: Links, queue: seq<Entry>,
                                     order: seq<NodeId>, done: nat)
      returns (t': Tree, queue': seq<Entry>)
    requires LinksCover(g, root, links) && RunOk(g, t, root, links, queue, order, done) && order != []
    requires InUniverse(g, root, queue, order)
    ensures RunOk(g, t', root, links, queue', order, |Adj(g, order[|order| - 1])|)
    ensures InUniverse(g, root, queue', order)
    decreases |Adj(g, order[|order| - 1])| - done
  {
    if done < |Adj(g, order[|order| - 1])| {
      t', queue' := RelaxOne(g, t, root, links, queue, order, done);
      t', queue' := RelaxRest(g, t', root, links, queue', order, done + 1);
    } else {
      t', queue' := t, queue;
    }
  }

  lemma {:induction false} SearchEnds(g: Graph, t: Tree, root: NodeId, links: Links, queue: seq<Entry>,
                                      order: seq<NodeId>, done: nat)
      returns (t': Tree)
    requires LinksCover(g, root, links) && InUniverse(g, root, queue, order)
    requires RunOk(g, t, root, links, queue, order, done) && AllRelaxed(g, t, order)
    ensures IsSpf(g, root, links, t')
    decreases Universe(g, root) - Elements(order)
  {
    if queue == [] {
      RunSettles(g, t, root, links, order, done);
      t' := t;
    } else {
      var u := queue[0].node;
      SettleUniverse(g, root, queue, order, t);
      SettleHead(g, t, root, links, queue, order, done);
      var queue';
      t', queue' := RelaxRest(g, t, root, links, queue[1..], order + [u], 0);
      t' := SearchEnds(g, t', root, links, queue', order + [u], |Adj(g, u)|);
    }
  }

  /** Links that cover a topology admit a shortest-path tree. */
  lemma TreeExists(g: Graph, root: NodeId, links: Links) returns (t: Tree)
    requires LinksCover(g, root, links)
    ensures IsSpf(g, root, links, t)
  {
    var cost: map<NodeId, Cost> := map n | n in g :: MAX_COST;
    t := Tree(cost[root := 0], map[], map[]);
    StartOk(g, t, root, links);
    t := SearchEnds(g, t, root, links, [Entry(0, root)], [], 0);
  }

  // --------------------------------------------------------------------- tables

  lemma {:induction false} BestExists(t: Tree, routes: seq<Route>) returns (best: Option<nat>)
    ensures best.None? ==> forall r :: r in routes ==> AnycastTotal(t, r).None?
    ensures best.Some? ==> BestAnycast(t, routes, best.value)
  {
    if routes == [] {
      best := None;
    } else {
      var front, last := routes[..|routes| - 1], routes[|routes| - 1];
      best := BestExists(t, front);
      assert routes == front + [last];
      if AnycastTotal(t, last).Some? &&
         (best.None? || AnycastTotal(t, last).value < AnycastTotal(t, routes[best.value]).value)
      {
        assert best.None? ==> forall i :: 0 <= i < |front| ==> front[i] in front;
        best := Some(|front|);
      }
    }
  }

  lemma {:induction false} CheapestExists(routes: seq<Route>) returns (best: nat)
    requires routes != []
    ensures Cheapest(routes, best)
  {
    if |routes| == 1 {
      best := 0;
    } else {
      var front, last := routes[..|routes| - 1], routes[|routes| - 1];
      best := CheapestExists(front);
      assert routes == front + [last];
      if last.cost < routes[best].cost {
        best := |front|;
      }
    }
  }

  lemma {:induction false} ListOf(xs: set<NodeId>) returns (s: seq<NodeId>)
    ensures Distinct(s) && Elements(s) == xs
  {
    if xs == {} {
      s := [];
    } else {
      var x :| x in xs;
      var rest := ListOf(xs - {x});
      s := rest + [x];
      assert x !in Elements(rest) && Elements(s) == Elements(rest) + {x};
    }
  }

  /** Every route entry admits a table entry. */
  lemma EntryExists(t: Tree, entry: RouteEntry) returns (fe: Option<FibEntry>)
    ensures IsFibEntry(t, entry, fe)
  {
    fe := None;
    match entry.kind {
      case Anycast =>
        var best := BestExists(t, entry.routes);
        fe := match best
          case None => None
          case Some(i) => FibForward(t, entry.routes[i]).Map(hop => Single(hop));
      case Broadcast =>
        var peers := ListOf(FirstHops(t, entry.routes));
        var hops := LocalHops(entry.routes) + RemoteHops(t, peers);
        assert BroadcastHops(t, entry.routes, hops);
        fe := if hops == [] then None else Some(MultiCast(hops));
      case Multicast =>
      case _ =>
        if entry.routes != [] {
          var best := CheapestExists(entry.routes);
          fe := FibForward(t, entry.routes[best]).Map(hop => Single(hop));
        }
    }
  }

  lemma {:induction false} EntriesExist(t: Tree, routes: Table, todo: set<EndpointId>)
      returns (table: map<EndpointId, FibEntry>)
    requires todo <= routes.Keys
    ensures table.Keys <= todo
    ensures forall e :: e in todo ==> IsFibEntry(t, routes[e], if e in table then Some(table[e]) else None)
  {
    if todo == {} {
      table := map[];
    } else {
      var e :| e in todo;
      table := EntriesExist(t, routes, todo - {e});
      var fe := EntryExists(t, routes[e]);
      if fe.Some? {
        table := table[e := fe.value];
      }
    }
  }

  /** A tree and a route table admit a forwarding table. */
  lemma FibExists(self: NodeId, links: Links, t: Tree, routes: Table) returns (fib: ForwardingTable)
    ensures IsFib(self, links, t, routes, fib)
  {
    var table := EntriesExist(t, routes, routes.Keys);
    fib := ForwardingTable(self, table, links, t.nextHop);
    forall e | e in routes ensures IsFibEntry(t, routes[e], Lookup(fib, e)) {
    }
  }

  // ------------------------------------------------------------------- networks

  /** A site computed anew: a tree from its topology and links, a table from its tree and routes. */
  ghost predicate Computed(x: NodeId, plan: Site, site: Site, fib: ForwardingTable) {
    && site == plan.(tree := site.tree)
    && IsSpf(plan.graph, x, plan.links, site.tree) && IsFib(x, plan.links, site.tree, plan.routes, fib)
  }

  ghost predicate ComputedAt(plans: map<NodeId, Site>, sites: map<NodeId, Site>, fibs: map<NodeId, ForwardingTable>,
                             x: NodeId) {
    x in plans && x in sites && x in fibs && Computed(x, plans[x], sites[x], fibs[x])
  }

  lemma SiteExists(x: NodeId, plan: Site) returns (site: Site, fib: ForwardingTable)
    requires LinksCover(plan.graph, x, plan.links)
    ensures Computed(x, plan, site, fib)
  {
    var t := TreeExists(plan.graph, x, plan.links);
    fib := FibExists(x, plan.links, t, plan.routes);
    site := plan.(tree := t);
  }

  lemma {:induction false} AllCompute(plans: map<NodeId, Site>, todo: set<NodeId>)
      returns (sites: map<NodeId, Site>, fibs: map<NodeId, ForwardingTable>)
    requires todo <= plans.Keys && forall x :: x in todo ==> LinksCover(plans[x].graph, x, plans[x].links)
    ensures sites.Keys == fibs.Keys == todo
    ensures forall x {:trigger ComputedAt(plans, sites, fibs, x)} :: x in todo ==> ComputedAt(plans, sites, fibs, x)
  {
    if todo == {} {
      sites, fibs := map[], map[];
    } else {
      var x :| x in todo;
      var others, tables := AllCompute(plans, todo - {x});
      var site, fib := SiteExists(x, plans[x]);
      sites, fibs := others[x := site], tables[x := fib];
      forall y | y in todo ensures ComputedAt(plans, sites, fibs, y) {
        assert y != x ==> ComputedAt(plans, others, tables, y);
      }
    }
  }

  /** Whatever positive topology nodes with wired links agree on: once they have
      computed their trees and tables, they form a consistent network. */
  lemma NetworkExists(g: Graph, plans: map<NodeId, Site>, wires: map<End, End>)
      returns (sites: map<NodeId, Site>, net: Net)
    requires Positive(g) && g.Keys <= plans.Keys && LinksOk(plans, Net(map[], wires)) && PlansOk(g, plans)
    ensures Consistent(g, sites, net) && net.wires == wires && sites.Keys == plans.Keys
    ensures forall x :: x in plans ==> sites[x] == plans[x].(tree := sites[x].tree)
  {
    sites, net := SitesExist(g, plans, wires);
    assert LinksOk(sites, net) by {
      LinksStayOk(plans, Net(map[], wires), sites, net);
    }
  }

  lemma SitesExist(g: Graph, plans: map<NodeId, Site>, wires: map<End, End>)
      returns (sites: map<NodeId, Site>, net: Net)
    requires PlansOk(g, plans)
    ensures net.wires == wires && net.fibs.Keys == sites.Keys == plans.Keys
    ensures forall x {:trigger SiteOk(g, sites, net, x)} :: x in plans ==> SiteOk(g, sites, net, x)
    ensures forall x :: x in plans ==> sites[x] == plans[x].(tree := sites[x].tree)
  {
    forall x | x in plans ensures LinksCover(plans[x].graph, x, plans[x].links) {
      assert PlanOk(g, x, plans[x]);
    }
    var fibs;
    sites, fibs := AllCompute(plans, plans.Keys);
    net := Net(fibs, wires);
    forall x | x in plans ensures sites[x] == plans[x].(tree := sites[x].tree) && SiteOk(g, sites, net, x) {
      assert PlanOk(g, x, plans[x]) && ComputedAt(plans, sites, net.fibs, x);
    }
  }

  /** Every node's links cover the topology they agree on. */
  ghost predicate PlansOk(g: Graph, plans: map<NodeId, Site>) {
    forall x {:trigger PlanOk(g, x, plans[x])} :: x in plans ==> PlanOk(g, x, plans[x])
  }

  ghost predicate PlanOk(g: Graph, x: NodeId, plan: Site) {
    LinksCover(plan.graph, x, plan.links) && SameEdges(plan.graph, g) && TableOk(plan.routes)
  }

  lemma LinksStayOk(plans: map<NodeId, Site>, net: Net, sites: map<NodeId, Site>, net': Net)
    requires LinksOk(plans, net) && net'.wires == net.wires && sites.Keys == plans.Keys
    requires forall x :: x in plans ==> sites[x].links == plans[x].links
    ensures LinksOk(sites, net')
  {
    forall x, c | x in sites && c in sites[x].links ensures Wired(sites, net', x, c) {
      assert Wired(plans, net, x, c);
    }
  }

  // ------------------------------------------------- a network without any ties

  function PairGraph(): Graph {
    map[0 := [Adjacency(1, 1, 1, {Global})], 1 := [Adjacency(1, 0, 1, {Global})]]
  }

  lemma PairEdges()
    ensures forall u, v, w :: Edge(PairGraph(), u, v, w) <==> w == 1 && ((u == 0 && v == 1) || (u == 1 && v == 0))
  {
    var g := PairGraph();
    forall u, v, w ensures Edge(g, u, v, w) <==> w == 1 && ((u == 0 && v == 1) || (u == 1 && v == 0)) {
      if w == 1 && ((u == 0 && v == 1) || (u == 1 && v == 0)) {
        assert Adj(g, u)[0] in Adj(g, u);
      }
    }
  }

  lemma PairShortest(p: Path)
    requires Shortest(PairGraph(), p)
    ensures p == if First(p) == Last(p) then Path.Start(First(p)) else Path.Hop(Path.Start(First(p)), Last(p), 1)
  {
    var g := PairGraph();
    PairEdges();
    if p.Hop? {
      assert Edge(g, Last(p.prev), p.to, p.cost);
      if First(p) == Last(p) {
        assert PathBetween(g, First(p), First(p), Path.Start(First(p)));
      } else {
        PairEnds(p.prev);
        assert PathBetween(g, First(p), Last(p), Path.Hop(Path.Start(First(p)), Last(p), 1));
      }
    }
  }

  lemma {:induction false} PairEnds(p: Path)
    requires IsPath(PairGraph(), p) && Last(p) in {0, 1}
    ensures First(p) in {0, 1}
  {
    if p.Hop? {
      PairEdges();
      assert Edge(PairGraph(), Last(p.prev), p.to, p.cost);
      PairEnds(p.prev);
    }
  }

  lemma PairIsUnique()
    ensures UniqueShortestPaths(PairGraph()) && Symmetric(PairGraph()) && Positive(PairGraph())
  {
    PairEdges();
    forall p, q | Shortest(PairGraph(), p) && Shortest(PairGraph(), q) && First(p) == First(q) && Last(p) == Last(q)
      ensures p == q
    {
      PairShortest(p);
      PairShortest(q);
    }
  }

  function PairPlan(n: NodeId, routes: Table): Site {
    Site(PairGraph(), map[1 := Link(if n == 0 then 1 else 0, 1, {Global}, 1)], Tree(map[], map[], map[]), routes)
  }

  lemma PairWired(plans: map<NodeId, Site>, wires: map<End, End>)
    requires plans.Keys == {0, 1} && wires == map[End(0, 1) := End(1, 1), End(1, 1) := End(0, 1)]
    requires forall n :: n in plans ==> plans[n] == PairPlan(n, plans[n].routes)
    ensures LinksOk(plans, Net(map[], wires))
  {
    forall x, c | x in plans && c in plans[x].links ensures Wired(plans, Net(map[], wires), x, c) {
    }
  }

  /** Two nodes with one link between them, and any routes, form an agreed network. */
  lemma PairNetworkExists(routes: map<NodeId, Table>) returns (sites: map<NodeId, Site>, net: Net)
    requires routes.Keys == {0, 1} && TableOk(routes[0]) && TableOk(routes[1])
    ensures Agreed(PairGraph(), sites, net) && sites.Keys == {0, 1}
    ensures sites[0].routes == routes[0] && sites[1].routes == routes[1]
  {
    var wires := map[End(0, 1) := End(1, 1), End(1, 1) := End(0, 1)];
    var plans := map n | n in routes :: PairPlan(n, routes[n]);
    forall x | x in plans ensures PlanOk(PairGraph(), x, plans[x]) {
      assert plans[x].links[1] in plans[x].links.Values;
    }
    assert LinksOk(plans, Net(map[], wires)) by {
      PairWired(plans, wires);
    }
    PairIsUnique();
    sites, net := NetworkExists(PairGraph(), plans, wires);
  }
}
