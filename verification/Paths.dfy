/** Paths through a topology of advertised adjacencies. */
module Paths {
  import opened Routing

  type Graph = map<NodeId, seq<Adjacency>>

  function Adj(g: Graph, u: NodeId): seq<Adjacency> {
    if u in g then g[u] else []
  }

  ghost predicate Edge(g: Graph, u: NodeId, v: NodeId, w: Cost) {
    exists a :: a in Adj(g, u) && a.peerId == v && a.cost == w
  }

  datatype Path = Start(node: NodeId) | Hop(prev: Path, to: NodeId, cost: Cost)

  function First(p: Path): NodeId {
    match p
    case Start(n) => n
    case Hop(q, _, _) => First(q)
  }

  function Last(p: Path): NodeId {
    match p
    case Start(n) => n
    case Hop(_, n, _) => n
  }

  /** The unbounded sum of the link costs. */
  function Length(p: Path): nat {
    match p
    case Start(_) => 0
    case Hop(q, _, w) => Length(q) + w
  }

  ghost predicate IsPath(g: Graph, p: Path) {
    p.Hop? ==> IsPath(g, p.prev) && Edge(g, Last(p.prev), p.to, p.cost)
  }

  ghost predicate PathBetween(g: Graph, a: NodeId, b: NodeId, p: Path) {
    IsPath(g, p) && First(p) == a && Last(p) == b
  }

  ghost predicate Shortest(g: Graph, p: Path) {
    IsPath(g, p) && forall q :: PathBetween(g, First(p), Last(p), q) ==> Length(p) <= Length(q)
  }

  ghost predicate Symmetric(g: Graph) {
    forall u, v, w :: Edge(g, u, v, w) ==> Edge(g, v, u, w)
  }

  ghost predicate Positive(g: Graph) {
    forall u, v, w :: Edge(g, u, v, w) ==> w > 0
  }

  /** No two different shortest paths below saturation join the same two nodes. */
  ghost predicate UniqueShortestPaths(g: Graph) {
    forall p, q | Shortest(g, p) && Shortest(g, q) && Length(p) < MAX_COST ::
      First(p) == First(q) && Last(p) == Last(q) ==> p == q
  }

  function Concat(p: Path, q: Path): Path {
    match q
    case Start(_) => p
    case Hop(q', n, w) => Hop(Concat(p, q'), n, w)
  }

  function Prepend(u: NodeId, w: Cost, p: Path): Path {
    match p
    case Start(n) => Hop(Start(u), n, w)
    case Hop(q, n, c) => Hop(Prepend(u, w, q), n, c)
  }

  function Reverse(p: Path): Path {
    match p
    case Start(n) => Start(n)
    case Hop(q, n, w) => Prepend(n, w, Reverse(q))
  }

  /** The second node of a path. */
  function Second(p: Path): NodeId
    requires p.Hop?
  {
    if p.prev.Start? then p.to else Second(p.prev)
  }

  lemma {:induction false} ConcatPath(g: Graph, p: Path, q: Path)
    requires IsPath(g, p) && IsPath(g, q) && Last(p) == First(q)
    ensures PathBetween(g, First(p), Last(q), Concat(p, q))
    ensures Length(Concat(p, q)) == Length(p) + Length(q)
  {
    if q.Hop? {
      ConcatPath(g, p, q.prev);
    }
  }

  lemma {:induction false} PrependPath(g: Graph, u: NodeId, w: Cost, p: Path)
    requires IsPath(g, p) && Edge(g, u, First(p), w)
    ensures PathBetween(g, u, Last(p), Prepend(u, w, p))
    ensures Length(Prepend(u, w, p)) == w + Length(p)
    ensures Prepend(u, w, p).Hop? && Second(Prepend(u, w, p)) == First(p)
  {
    if p.Hop? {
      PrependPath(g, u, w, p.prev);
    }
  }

  lemma {:induction false} ReversePath(g: Graph, p: Path)
    requires Symmetric(g) && IsPath(g, p)
    ensures PathBetween(g, Last(p), First(p), Reverse(p))
    ensures Length(Reverse(p)) == Length(p)
  {
    if p.Hop? {
      ReversePath(g, p.prev);
      PrependPath(g, p.to, p.cost, Reverse(p.prev));
    }
  }

  /** What follows the first link of a path. */
  function Rest(p: Path): Path
    requires p.Hop?
  {
    if p.prev.Start? then Start(p.to) else Hop(Rest(p.prev), p.to, p.cost)
  }

  function FirstCost(p: Path): Cost
    requires p.Hop?
  {
    if p.prev.Start? then p.cost else FirstCost(p.prev)
  }

  lemma {:induction false} SplitFirst(g: Graph, p: Path)
    requires IsPath(g, p) && p.Hop?
    ensures Edge(g, First(p), Second(p), FirstCost(p))
    ensures PathBetween(g, Second(p), Last(p), Rest(p))
    ensures Length(p) == FirstCost(p) + Length(Rest(p))
  {
    if p.prev.Hop? {
      SplitFirst(g, p.prev);
    } else {
      assert Last(p.prev) == First(p);
    }
  }
}
