/** Value types of the router: identifiers, saturating costs, realms, addresses,
    link-state advertisements and links. */
module Routing {

  datatype Option<+T> = None | Some(value: T) {
    function Map<U>(f: T -> U): Option<U> {
      match this
      case None => None
      case Some(v) => Some(f(v))
    }
  }

  // Node and endpoint identifiers wrap the same totally ordered UUID type.
  type NodeId = nat
  type EndpointId = nat
  type ConnectionId = c: nat | c < 0x1_0000
  type Cost = c: nat | c <= MAX_COST

  // The handle of a local listener's channel.
  type Listener = nat

  const MAX_COST: nat := 65535

  /** Cost addition saturates at the largest 16-bit value. */
  function Plus(a: Cost, b: Cost): Cost {
    if a + b > MAX_COST then MAX_COST else a + b
  }

  datatype Realm = Process | Userspace | LocalNet | Global
  type RealmList = set<Realm>

  datatype RouteKind = Unicast | Anycast | Broadcast | Multicast | Node

  datatype Address = Endpoint(id: EndpointId) | Remote(id: EndpointId, node: NodeId) {
    /** The endpoint a node looks up: a remote address stands for its node
        everywhere except on that node. */
    function GetEndpoint(here: NodeId): EndpointId {
      match this
      case Endpoint(e) => e
      case Remote(e, n) => if here == n then e else n
    }
  }

  datatype LsaKey = LsaKey(origin: NodeId, endpointId: EndpointId)
  datatype EndpointInfo = EndpointInfo(kind: RouteKind, realm: Realm, cost: Cost)
  datatype Adjacency = Adjacency(connectionId: ConnectionId, peerId: NodeId, cost: Cost, realms: RealmList)
  datatype LsaBody = Router(adjacencies: seq<Adjacency>) | EndpointBody(info: EndpointInfo)
  datatype Lsa = Lsa(key: LsaKey, seq_: nat, dead: bool, body: LsaBody)
  datatype LsaRecord = LsaRecord(lsa: Lsa, updatedAt: nat)
  datatype Link = Link(peerId: NodeId, connectionId: ConnectionId, realms: RealmList, cost: Cost)

  /** Adjacencies that survive a link: realms are cut down to the link's and
      adjacencies left without a realm are dropped. */
  function Restrict(adjacencies: seq<Adjacency>, realms: RealmList): seq<Adjacency> {
    if adjacencies == [] then []
    else
      var head := adjacencies[0].(realms := adjacencies[0].realms * realms);
      var tail := Restrict(adjacencies[1..], realms);
      if head.realms == {} then tail else [head] + tail
  }

  /** The filter keeps exactly the adjacencies that share a realm with the link, cut down to it. */
  lemma {:induction false} RestrictIs(adjacencies: seq<Adjacency>, realms: RealmList)
    ensures forall a :: a in Restrict(adjacencies, realms) ==>
              a.realms != {} && a.realms <= realms &&
              exists b :: b in adjacencies && a == b.(realms := b.realms * realms)
    ensures forall b :: b in adjacencies && b.realms * realms != {} ==>
              b.(realms := b.realms * realms) in Restrict(adjacencies, realms)
  {
    if adjacencies != [] {
      RestrictIs(adjacencies[1..], realms);
      assert forall b :: b in adjacencies <==> b == adjacencies[0] || b in adjacencies[1..];
      forall a | a in Restrict(adjacencies, realms)
        ensures a.realms != {} && a.realms <= realms && exists b ::
                  b in adjacencies && a == b.(realms := b.realms * realms)
      {
        if a != adjacencies[0].(realms := adjacencies[0].realms * realms) {
          assert a in Restrict(adjacencies[1..], realms);
          var b :| b in adjacencies[1..] && a == b.(realms := b.realms * realms);
          assert b in adjacencies;
        }
      }
    }
  }

  /** The advertisement a link puts on its queue, or None on a realm mismatch. */
  function SendLsa(link: Link, lsa: Lsa): Option<Lsa> {
    match lsa.body
    case Router(adjacencies) =>
      var kept := Restrict(adjacencies, link.realms);
      if kept == [] then None else Some(lsa.(body := Router(kept)))
    case EndpointBody(info) =>
      if info.realm in link.realms then Some(lsa) else None
  }

  datatype Entry = Entry(cost: Cost, node: NodeId) {
    /** Lower cost wins; on equal cost the lower node id wins. */
    predicate Better(other: Entry) {
      cost < other.cost || (cost == other.cost && node < other.node)
    }
  }
}
