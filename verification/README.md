# Anybus link-state router, verified

A Dafny model of the Anybus router: the link-state database that every node keeps, its
shortest-path search, its index of local and remote endpoints, the forwarding table built from
them, the state machine that publishes that table, and the networks that such nodes form. A second,
smaller model covers the WebSocket peer with its heartbeat and driver loop.

`dafny verify dfyconfig.toml` checks everything.

## Shape

| file | models |
|---|---|
| Routing.dfy | identifiers, saturating costs, realms, addresses, advertisements, links |
| Paths.dfy | paths through advertised adjacencies: the independent definition of distance |
| Spf.dfy, SpfTheorems.dfy | the invariant of the search, and what its result means |
| RouteTable.dfy | the route table object |
| LinkState.dfy | what every change does to the database and its index, as functions, and the state invariant they keep |
| Fib.dfy | building a forwarding table, sending and forwarding packets |
| LsDb.dfy | the link-state database object |
| Router.dfy | the router state machine and its run loop |
| Index.dfy | the index of remote routes the other way round: every record has its route, but for refused ones |
| PacketNet.dfy | one packet in a network of arbitrary fixed tables, every interleaving and loss |
| Republishing.dfy, Storms.dfy | one packet while nodes publish new tables: what has to stay, and what happens if it does not |
| Trails.dfy | who gets a packet, exactly, over arbitrary fixed tables |
| Agreement.dfy | networks whose nodes know the same topology |
| Delivery.dfy, Broadcasting.dfy | when unicast, anycast and broadcast packets arrive |
| Existence.dfy | trees, tables and networks as the theorems assume them exist |
| EqualCosts.dfy | ties between shortest paths: a network that loses packets, and one that does not |
| Convergence.dfy | from databases that agree to networks that deliver |
| Flooding.dfy, Coverage.dfy | advertisements flooding through a network: bounds, and where exactly an endpoint's gets |
| Filtering.dfy | floods that are filtered on the way, as a router's: where they get, and when that depends on the order |
| Renewal.dfy | how a node's own advertisements prevail elsewhere: numbers, withdrawals, expiry |
| Realms.dfy | where advertisements may get to, over all histories |
| Operations.dfy | every operation of the database: its result, what it may send and what it has to send |
| Registrations.dfy | from the registration of an endpoint to where its advertisement may get |
| Unserved.dfy | advertisements that outlive their last listener |
| WsPeer.dfy | heartbeat, peer state machine and driver loop |
| WsTraffic.dfy | what a peer carries while it is open, and when it pings |

Objects that the program updates in place (`RouteTable`, `LsDb`, `Router`, `Heartbeat`, `WsPeer`)
are classes whose methods are proved against functions of the old state; the theorems are proved
about those functions. `PacketNet.Arrive` and `Inject` use the functions that `Forwarding.Forward`
and `Send` are proved to compute, `Flooding.Handle` uses those of `LsDb.HandleLsa` and
`LsDb.FloodAllNeighbors`, `Operations.Perform` proves every operation of `LsDb` to be a step that the
histories of `Realms` allow, and `PublishedIsBuilt` and `Convergence` take the router's invariant to
the networks.

## Main results

1. **The search is exact, sound and deterministic.** `compute_spf` ends, its queue stays sorted and
   free of duplicates, and the cost of every node is min(65535, least path sum). Parents form a tree
   rooted at this node, next hops are its first links, and neither list order, map order nor parallel
   links change costs, parents or next-hop neighbours (`LsDb.ComputeSpf`, `CostsAreExact`,
   `TreeIsSound`, `TreeIsDeterministic`, `ParentIsLeastTight`).
2. **Every operation keeps the database consistent.** Own adjacencies match links one to one, local
   listeners are advertised (at the least cost for anycast), and every remote route stands for a
   record unless that record has expired (`StateOk`, kept by all methods of `LsDb`).
3. **The published table is fresh.** Whenever the router listens, its table is one freshly built from
   the current database; a registrant hears of success only once the table serves it; and each
   registration is answered exactly once, in order; the first request to stop ends the run, with
   everything forgotten (`Router.Next`, `Router.Run`).
4. **No duplicates, no storms, while links back stay.** Tables may be built from databases that need
   not agree at all, and new ones may be published at every step: as long as no node changes the
   link by which it would reach the packet's sender, in every interleaving a node accepts the packet
   at most once and forwarding ends (`NoDuplicatesWhileSteady`; `NoDuplicatesNoStorms` for tables
   that stay as they are). For one node it is enough that the links back stay all the way from it up
   to the sender (`AcceptedOnceWhileSteady`). The condition is needed: one change of one link back
   can make a packet go round for ever, delivered anew each time (`StormAfterOneChange`).
5. **Who gets a packet, exactly.** Over arbitrary tables a node accepts a packet if and only if its
   own way back to the sender is, link by link, a path along which the packet is handed on
   (`DeliveredExactly`). For unicast and node addresses, and for anycast along the tables' own
   choices, this means: delivered if and only if every node on the way goes back to the sender by
   the node before (`RouteDecides`, `UnicastExactly`, `AnycastExactly`); for broadcast: if and only
   if the packet is relayed to the node (`BroadcastExactly`). Where shortest paths are unique and
   costs symmetric that is always so (`UnicastDelivered`, `AnycastDelivered`,
   `BroadcastExactlyOnce`). Databases that agree give such networks (`Convergence`), and any positive
   topology with wired links admits one (`NetworkExists`).
6. **Floods end, and where they get.** Every link that a flood must use, and no other, gets just one
   filtered copy of any advertisement, withdrawals included (`FloodIsExact`, in the contract of
   `LsDb.FloodAllNeighbors`). By whatever fixed trees, a fresh endpoint advertisement gets exactly
   where links lead that carry its realm and that no node leaves out (`FloodReachesExactly`); where
   trees agree, that is everywhere its origin can be reached from (`FloodCovers`). A router's
   advertisement, which links cut down on the way, gets exactly where something is left of what a
   neighbour has (`FilteredFloodReachesExactly`); every node ends up with what any path leaves to
   it, in whatever order copies come, if and only if all paths to a node leave the same
   (`OrderMattersUnlessConfluent`). An instance of any live advertisement is taken once by each node
   and causes at most as many messages as there are link ends, however realms filter it, however
   trees change, whatever is lost and whatever else nodes do meanwhile (`TakenOnce`,
   `MessagesBounded`, `FloodTerminates`).
7. **What a node says of itself prevails.** Whatever operation alters a record, the altered record is
   offered to every neighbour that a flood must reach, and what is taken away is withdrawn there
   (`Operations.Perform`, `Spreads`). A changed own record is numbered above the old one, a
   withdrawal above what it withdraws, so every node that is not ahead takes them (`OwnNumbersGrow`,
   `ChangeIsTaken`, `WithdrawalIsTaken`, `FarewellIsTaken`). A record goes at an arrival only through
   a withdrawal numbered above it, or above the router record of its origin (`ErasedExactly`,
   `ErasedBy`), and a copy that is renewed in time never expires (`NeverExpires`).
8. **Realm containment from the registration on, over all histories of database operations.** An
   endpoint advertisement held elsewhere is one that its origin has had in its own records, of the
   kind and in the realm in which a first listener was registered there, and came over links that
   all carry that realm (`RegisteredRealmContains`, `EndpointContained`); an adjacency has only realms
   that its origin gave it and every crossed link carries (`AdjacencyContained`).
9. **The peer carries all it reads, finds silence out in time and ends cleanly.** Whatever fails,
   every node message read while Open is handed over, in order; echoes and outgoing messages too,
   but for the write that fails (`TrafficIsCarried`, `MessagesAreHandedOver`). A silent peer ticked at
   its deadlines is pinged every interval and closed when the timeout is over (`SilentPeerExactly`,
   `SilentPeerBound`). A peer is unregistered if and only if what is queued when it leaves Open
   succeeds (`DriverEndsCleanly`, `UnregistersIff`).

## Where the program does less than one might think

- An expired record can leave its route in the table: `purge_stale_lsas` stops after looking at the
  first stale record. `ExpiryStrands` says exactly when; `LsDb.orphans` remembers the keys.
- A withdrawn record leaves no tombstone, so an old copy may bring it back: `OldCopyReturns` says
  exactly which. Sequence numbers are monotone only while a record stays.
- Removing the last local listener withdraws the advertisement only if no remote origin offers the
  same endpoint: `AdvertisementOutlives`. If it stays, it stays for good: whatever else happens, also
  when the remote origin withdraws, only a new listener or the end of the node ends it
  (`StaysUnserved`), it is refreshed like any other (`IsRenewed`), and packets that others route
  here find no listener (`NobodyIsServed`).
- A packet in flight can be multiplied without end when a node changes its link back to the packet's
  sender: `StormAfterOneChange`. Nothing in a packet limits its hops.
- A node with a stale tree leaves a neighbour out of a flood that may by now depend on it:
  `FloodReachesExactly` says who is left without.
- Which nodes get a router's advertisement, and how much of it, can depend on which copy comes first:
  a node keeps the first one it gets and refuses another that would have got further.
  `FirstComeFirstServed` is such a run; `OrderMattersUnlessConfluent` says exactly when the order of
  arrival does not matter.
- An endpoint that loses its last listener while a remote origin offers it, and then gets a new one,
  is announced in vain at every node that still holds its old record: `ReturnIsIgnored`. Own
  sequence numbers can fall while the record stays (`OwnNumberFalls`), and an announcement is taken
  only where no record is left (`AnnouncementTaken`).
- With equal-cost paths the forward and the reverse choice can differ, and the packet is dropped:
  `EqualCostsDropPackets` on a ring of six, `LostPacket` with ids, tables and all; on a ring of four
  ties do no harm (`TiesCanDeliver`). `UnicastExactly` says when.
- The first announcement of an endpoint is flooded as if it had come in over connection 0
  (src/routing/linkstate/db.rs:714), so a link with that id, possible once the 16-bit counter has
  wrapped, does not get it (`SkipsOneLink`). `FloodCovers` asks that the origin has no such link.
- Queueing `Unregister` is not applying it: a failed write while closing clears the queue.
  `UnregistersIff` says exactly when it is applied, `UnregisterCanBeLost` is a run that loses it.
- A deterministic tree and multicast without duplicates are what README.md:54 of the repository
  promises. The first holds as stated in 1. The second holds while links back to the sender stay, and
  fails otherwise, as stated in 4. Delivery of every packet is not promised there; 5 says when it
  happens.

## Model

| member | source | states |
|---|---|---|
| `Database.LsDb.ComputeSpf` | src/routing/linkstate/db.rs:563-632 | From any state whose adjacencies match its links the search ends with a shortest-path tree of the current routers; no unwrap fails |
| `Database.LsDb.Routers` | src/routing/linkstate/db.rs:568-578 | One advertised adjacency list for exactly the origins that have a router advertisement |
| `Database.LsDb.Search` | src/routing/linkstate/db.rs:582-630 | The queue loop ends, and its result is a settled search |
| `Database.LsDb.SettleNext` | src/routing/linkstate/db.rs:590-630 | Popping the best entry settles one more node for good |
| `Database.LsDb.RelaxAll` | src/routing/linkstate/db.rs:592-629 | The adjacency loop keeps the search invariant, one adjacency at a time |
| `Database.LsDb.Relax` | src/routing/linkstate/db.rs:594-627 | One adjacency: a strict improvement changes exactly cost, parent and next hop of the neighbour and its place in the queue; anything else changes nothing |
| `Database.LsDb.ReachOver` | src/routing/linkstate/db.rs:601-627 | The improvement itself: the first hop is a link to the neighbour at the root, the next hop of the settled node elsewhere |
| `LinkState.PartitionPoint` | src/routing/linkstate/db.rs:625 | Bisection finds the only position that keeps the queue sorted |
| `LinkState.Requeue` | src/routing/linkstate/db.rs:619-626 | Decrease-key: the old entry of the node goes, the new one is in order, all others stay |
| `Spf.StartOk` | src/routing/linkstate/db.rs:582-588 | The invariant holds for the root alone in the queue |
| `Spf.SettleHead` | src/routing/linkstate/db.rs:590 | Taking the head keeps the invariant: no node with a better way is left behind |
| `Spf.ImproveStep` | src/routing/linkstate/db.rs:601-627 | An improvement keeps the invariant, zero-cost links included; a settled node is never improved |
| `Spf.SkipAdjacency` | src/routing/linkstate/db.rs:595-601 | An adjacency that does not improve needs no action |
| `LinkState.OwnLinksCover` | src/routing/linkstate/db.rs:605-610 | The first hop of every adjacency of this node always exists among its links |
| `LinkState.TopologyUnique` | src/routing/linkstate/db.rs:568-578 | With one router advertisement per origin the map of adjacency lists does not depend on iteration order |
| `SpfTheorems.CostsAreExact` | src/routing/linkstate/db.rs:563-632 | Costs are min(65535, least path sum) from the root; nodes without an advertisement appear only below 65535 |
| `SpfTheorems.ExactCostsUnique` | src/routing/linkstate/db.rs:563-632 | Exactness determines the whole cost map |
| `SpfTheorems.NoPathIsShorter` | src/routing/linkstate/db.rs:590-630 | No path from the root undercuts a settled cost |
| `SpfTheorems.TreeIsSound` | src/routing/linkstate/db.rs:604-616 | Parents and next hops cover exactly the reached non-root nodes; parent chains are finite, end at the root and add up; the next hop is the first node on the chain, and its own next hop |
| `SpfTheorems.NextHopSplits` | src/routing/linkstate/db.rs:604-616 | A destination costs the link to its next hop plus a path from there |
| `SpfTheorems.TreeIsDeterministic` | README.md:54 | Costs, parents and next-hop neighbours depend on the set of advertised edges only |
| `SpfTheorems.ParentIsLeastTight` | src/routing/linkstate.rs:252-277 | With positive costs the parent is the tight predecessor least in (cost, id) |
| `SpfTheorems.SameOrder` | src/routing/linkstate.rs:252-277 | Two searches over the same edges settle the same nodes in the same order |
| `Routes.MinLocalIsLeast` | src/routing/linkstate/db/route_table.rs:62-68 | The minimum exists exactly with a listener, is attained, and is least |
| `Routes.MinLocalIgnoresRemoval` | src/routing/linkstate/db/route_table.rs:266-295 | Remote removals do not move the local minimum |
| `Routes.MinLocalIgnoresUpdate` | src/routing/linkstate/db/route_table.rs:234-243 | Remote refreshes do not move the local minimum |
| `Routes.RouteTable.AddEndpoint` | src/routing/linkstate/db/route_table.rs:83-141 | Refused exactly on a kind mismatch or a taken unicast place; otherwise one route more, and an effect exactly when the endpoint gets its first listener or a lower anycast minimum |
| `Routes.RouteTable.SetAnycastCost` | src/routing/linkstate/db/route_table.rs:143-176 | The whole new table, each outcome exactly when it applies, and the new minimum reported exactly when it moved |
| `Routes.RouteTable.RemoveEndpoint` | src/routing/linkstate/db/route_table.rs:178-215 | Exactly the closed listeners go, in order; withdrawal exactly when no route of any kind is left |
| `Routes.RouteTable.AddRemoteEndpoint` | src/routing/linkstate/db/route_table.rs:219-262 | The route of an origin is refreshed or added; both errors and both effects exactly when they apply |
| `Routes.RouteTable.RemoveRemoteEndpoint` | src/routing/linkstate/db/route_table.rs:266-295 | Exactly the route of the origin goes; a rebuild exactly when something changed |
| `Routes.RouteTable.Shutdown` | src/routing/linkstate/db/route_table.rs:31-46 | Exactly the registered listeners are told, and nothing stays registered |
| `Routes.CostIsSet` | src/routing/linkstate/db/route_table.rs:156-166 | A changed cost is on one route of the sender; every other route is as before |
| `Routes.OnlyClosedGo` | src/routing/linkstate/db/route_table.rs:178-199 | A removal takes exactly the closed listeners of the endpoint away |
| `Routes.WithoutKeepsOrigins` | src/routing/linkstate/db/route_table.rs:266-295 | Filtering keeps at most one route per origin |
| `Database.LsDb.constructor` | src/routing/linkstate/db.rs:63-106 | A database of the own empty router advertisement alone, in a valid state |
| `Database.LsDb.HandleLsa` | src/routing/linkstate/db.rs:335-379 | Acknowledged always; own, stale and useless ones change nothing more; fresh ones are stored or withdrawn, indexed, flooded to exactly the allowed links and, for routers, followed by a search |
| `Database.LsDb.StoreAndPass` | src/routing/linkstate/db.rs:353-372 | A live foreign advertisement is stored, indexed and passed on exactly if it is unknown or strictly newer |
| `Database.LsDb.StoreAndFlood` | src/routing/linkstate/db.rs:353-375 | A fresh live advertisement is stored, indexed and flooded with the tree of before |
| `Database.LsDb.UpsertLsa` | src/routing/linkstate/db.rs:248-312 | Stored exactly when unknown or strictly newer, with the route it stands for |
| `Database.LsDb.RemoveDeadLsa` | src/routing/linkstate/db.rs:204-238 | A newer withdrawal removes the record, or all records and routes of the origin for a router, and is flooded; a stale one changes nothing |
| `Database.LsDb.RemoveOrigin` | src/routing/linkstate/db.rs:208-214 | All records of the origin and exactly their routes go |
| `Database.LsDb.RemoveRecord` | src/routing/linkstate/db.rs:216-219 | One record goes with its route |
| `Database.LsDb.FloodAllNeighbors` | src/routing/linkstate/db.rs:635-678 | Each link gets one realm-restricted copy, except the incoming link, links to the origin and links to the next hop towards the origin |
| `Database.LsDb.FloodPeer` | src/routing/linkstate/db.rs:528-560 | A new link is offered every stored record its realms allow, once each |
| `Database.LsDb.SendAck` | src/routing/linkstate/db.rs:315-332 | One acknowledgement on a known link |
| `Database.LsDb.RequestRebuild` | src/routing/linkstate/db.rs:240-244 | The first request stands |
| `Database.LsDb.AddPeer` | src/routing/linkstate/db.rs:397-468 | Link and adjacency are added together, the changed and newly numbered advertisement is flooded past the new link, which gets everything stored instead; the state stays valid if the connection id is fresh |
| `Database.LsDb.RemovePeer` | src/routing/linkstate/db.rs:471-512 | Link and adjacency go together, the shorter advertisement is flooded, the tree is recomputed; an unknown link changes nothing |
| `Database.LsDb.Detach` | src/routing/linkstate/db.rs:473-497 | The removed link always had an adjacency, so the advertisement always changes |
| `Database.LsDb.AddEndpoint` | src/routing/linkstate/db.rs:680-737 | The whole new database and table; what is advertised, to whom, and when nothing is; the first listener is announced as registered; the state stays valid unless the endpoint has the id of the node |
| `Database.LsDb.UpdateEndpointCost` | src/routing/linkstate/db.rs:739-763 | A changed cost is stored under the next number and flooded; anything else changes nothing |
| `Database.LsDb.SetAnycastCost` | src/routing/router.rs:170-216 | A changed cost of a listener is advertised exactly when it moves the minimum |
| `Database.LsDb.RemoveEndpoint` | src/routing/linkstate/db.rs:774-802 | The whole new database and table; the withdrawal carries the next sequence number; the state stays valid unless the endpoint has the id of the node |
| `Database.LsDb.Withdraw` | src/routing/linkstate/db.rs:783-799 | The own advertisement goes and its withdrawal is flooded |
| `Database.LsDb.RefreshOwn` | src/routing/linkstate/db.rs:157-169 | Exactly the own records older than a third of the lifetime are renewed, each listed once |
| `Database.LsDb.FloodEach` | src/routing/linkstate/db.rs:171-173 | The renewed advertisements are flooded one after another |
| `Database.LsDb.PurgeStaleLsas` | src/routing/linkstate/db.rs:185-200 | At most one stale record goes, none only if none is stale, and no route |
| `Database.LsDb.RefreshAndPurge` | src/routing/linkstate/db.rs:152-182 | Renewal, floods and purge together; a search and a rebuild exactly after a purge |
| `Database.LsDb.Tick` | src/routing/linkstate/db.rs:138-150 | Nothing before the refresh is due; a pending or new rebuild is reported once; after it no own record is older than a third of the lifetime |
| `Database.LsDb.FloodFarewell` | src/routing/linkstate/db.rs:108-125 | The withdrawal of the own router advertisement, under the next number, is flooded |
| `Database.LsDb.Shutdown` | src/routing/linkstate/db.rs:108-132 | The withdrawal of the node is flooded, every listener is told, and everything is forgotten |
| `Database.LsDb.BuildFib` | src/routing/linkstate/db.rs:804-810 | A fresh tree and a table built from it and the current routes |
| `LinkState.UpsertKeeps` | src/routing/linkstate/db.rs:248-312 | Storing a foreign advertisement keeps own advertisements right and the index exact |
| `LinkState.RemoveKeeps` | src/routing/linkstate/db.rs:216-219 | Removing a foreign record with its route keeps own advertisements right and the index exact |
| `LinkState.FirstListenerKeeps` | src/routing/linkstate/db.rs:697-717 | Announcing the first listener makes its advertisement right |
| `LinkState.NextListenerKeeps` | src/routing/linkstate/db.rs:718-724 | A further listener leaves at most a lower anycast minimum to advertise |
| `LinkState.RemoveListenersKeeps` | src/routing/linkstate/db/route_table.rs:178-215 | Closed listeners leave at most a higher anycast minimum to advertise, or a withdrawal |
| `LinkState.SetCostKeeps` | src/routing/linkstate/db/route_table.rs:143-176 | A changed cost leaves at most a moved minimum to advertise |
| `LinkState.RecostKeeps` | src/routing/linkstate/db.rs:739-763 | Advertising the minimum completes the state |
| `LinkState.AddLinkKeeps` | src/routing/linkstate/db.rs:397-468 | A link with a fresh connection id keeps adjacencies and links matched one to one |
| `LinkState.RemoveLinkKeeps` | src/routing/linkstate/db.rs:471-512 | A removed link takes exactly its adjacency along |
| `LinkState.ExpiryKeeps` | src/routing/linkstate/db.rs:185-200 | An expiry leaves at most the route of its own record behind |
| `LinkState.ExpiryStrands` | src/routing/linkstate/db.rs:185-200 | The index loses exactness at an expiry if and only if the expired record had a route |
| `LinkState.RefreshKeeps` | src/routing/linkstate/db.rs:152-170 | A refresh keeps the state and no own record can expire right after it |
| `LinkState.AdvertisementOutlives` | src/routing/linkstate/db/route_table.rs:178-215 | With the last listener the own advertisement goes if and only if no remote origin offers the endpoint |
| `LinkState.ErasedExactly` | src/routing/linkstate/db.rs:204-230 | At an arrival a record goes if and only if a withdrawal from another node comes in that is numbered above the record it names, which is this one or a router record of the origin; only such a withdrawal is passed on |
| `LinkState.OldWithdrawalIsVoid` | src/routing/linkstate/db.rs:207-230 | A withdrawal not numbered above the stored record changes neither database nor table and is not passed on |
| `LinkState.HandledSparesLocals` | src/routing/linkstate/db/route_table.rs:219-292 | Whatever advertisement comes in, every local listener keeps its route, in order |
| `LinkState.HandledSparesOthers` | src/routing/linkstate/db/route_table.rs:219-292 | And the routes of every other origin stay |
| `LinkState.RefreshLeavesYoung` | src/routing/linkstate/db.rs:152-170 | After a due tick every own record is there and none is older than a third of the lifetime |
| `LinkState.OldCopyReturns` | src/routing/linkstate/db.rs:216-219 | After a withdrawal an old copy is accepted if and only if its record was the one withdrawn |
| `LinkState.AnnouncementTaken` | src/routing/linkstate/db.rs:703-708 | A first announcement is taken exactly by nodes that have no record of the endpoint from this origin |
| `LinkState.OwnNumberFalls` | src/routing/linkstate/db.rs:703-716 | The own sequence number falls, while the record stays, exactly when a first listener is announced over a record numbered above 0 |
| `LinkState.ReturnIsIgnored` | src/routing/linkstate/db.rs:703-716 | After the last listener has gone while a remote origin stays, a new listener is announced in vain at every node that holds the old record |
| `Unserved.BeginsUnserved` | src/routing/linkstate/db/route_table.rs:178-215 | An endpoint is advertised without a listener after the last one has left if and only if a remote origin offers it too |
| `Unserved.StaysUnserved` | src/routing/linkstate/db.rs:138-802 | No operation but a new registration for the endpoint or a shutdown ends that, a withdrawal by the remote origin included |
| `Unserved.IsRenewed` | src/routing/linkstate/db.rs:152-183 | The advertisement is refreshed like any other and never expires at its origin |
| `Unserved.NobodyIsServed` | src/routing/linkstate/db/forward_table.rs:197-282 | No table the node builds meanwhile has a local listener for the endpoint |
| `LinkState.ReuseUncovers` | src/routing/linkstate/db.rs:397-412 | Taking in a link under a live connection id leaves every first hop a link if and only if another link leads to the peer of the old one |
| `LinkState.OwnIdOverwrites` | src/routing/linkstate/db.rs:680-737 | The first listener of an endpoint with the id of the node overwrites the router advertisement, nothing else does |
| `LinkState.RegistrationKeeps` | src/routing/linkstate/db.rs:680-737 | A registration keeps the state: whatever it leaves to advertise is advertised |
| `LinkState.RemovalKeeps` | src/routing/linkstate/db.rs:774-802 | A removal of listeners keeps the state |
| `LinkState.HandledIsMonotone` | src/routing/linkstate/db.rs:248-263 | While a record stays its sequence number never falls |
| `LinkState.NothingLeft` | src/routing/linkstate/db.rs:204-215 | An accepted withdrawal of a router leaves no record of the origin and no route but those of expired records |
| `Forwarding.BuildFromDb` | src/routing/linkstate/db/forward_table.rs:197-282 | Every endpoint gets exactly the entry its kind, routes and the tree call for, or none |
| `Forwarding.BuildEntry` | src/routing/linkstate/db/forward_table.rs:206-278 | The entry of one endpoint by kind, and the cases without an entry |
| `Forwarding.BestAnycastRoute` | src/routing/linkstate/db/forward_table.rs:207-215 | The first usable route of least total cost, if any is usable |
| `Forwarding.CheapestRoute` | src/routing/linkstate/db/forward_table.rs:226 | The first route of least registered cost |
| `Forwarding.Broadcasts` | src/routing/linkstate/db/forward_table.rs:245-276 | All local listeners in order, then one link per distinct first hop |
| `Forwarding.TakenExactly` | src/routing/linkstate/db/forward_table.rs:170-188 | A refusing queue loses its copies, every other queue takes all of them |
| `Forwarding.Forward` | src/routing/linkstate/db/forward_table.rs:111-167 | A packet from a peer goes to local listeners, then to links off the back path, if the reverse-path check passes, and nowhere otherwise; refusing queues lose their copy only |
| `Forwarding.Send` | src/routing/linkstate/db/forward_table.rs:54-109 | A packet from a client goes to all hops of the entry; errors exactly for a missing entry or a refused single hop |
| `Forwarding.OneRouteEntry` | src/routing/linkstate/db/forward_table.rs:222-243 | A unicast or node endpoint has the hop of its only route, if that has one |
| `Forwarding.AnycastEntry` | src/routing/linkstate/db/forward_table.rs:206-221 | An anycast endpoint with a usable route has an entry, and no usable route is cheaper |
| `Agreement.RemoteHopsExact` | src/routing/linkstate/db/forward_table.rs:263-269 | Every collected first hop has a next hop: the branch for a missing one is unreachable |
| `Agreement.FirstHopsAreOwn` | src/routing/linkstate/db/forward_table.rs:255-258 | The next hop of a next-hop neighbour is that neighbour |
| `Agreement.BroadcastEntryExact` | src/routing/linkstate/db/forward_table.rs:245-276 | A broadcast entry holds exactly the local listeners and one link per distinct first hop of reachable origins, no connection twice |
| `Routers.Router.constructor` | src/routing/router.rs:37-56 | The empty table is fresh for the initial database |
| `Routers.Router.Next` | src/routing/router.rs:80-271 | Every step keeps the published table fresh outside of changes, moves to the state the message calls for, and changes exactly what it calls for; ticks and shutdown included |
| `Routers.Router.HandleMsg` | src/routing/router.rs:119-222 | Database, links and routes after each kind of message, and the next state |
| `Routers.Router.HandleRegistration` | src/routing/router.rs:225-231 | Refusals change nothing and are answered at once; accepted listeners are registered and advertised |
| `Routers.Router.Publish` | src/routing/router.rs:241-260 | The new table is fresh and serves the registrant before it is told |
| `Routers.Router.HandleTick` | src/routing/router.rs:262-268 | A tick that reports no rebuild leaves the published table fresh |
| `Routers.Router.Run` | src/routing/router.rs:58-65 | Over any inputs each registration is answered exactly once, in order, before the next input is read, and the router comes back to listening, until the first request to stop, which ends the run with everything forgotten |
| `Routers.LostPeerIsGone` | src/routing/linkstate/db.rs:471-511 | After a peer is unregistered no link and no own adjacency has its connection, and the others stay |
| `Routers.NewPeerIsIn` | src/routing/linkstate/db.rs:397-469 | After a peer is registered its link and its adjacency are there beside the others |
| `Routers.MessagesTakeEffect` | src/routing/router.rs:119-222 | A fresh foreign advertisement is stored as it is, a changed cost is set, and exactly the closed listeners go |
| `Routers.RepliesAreHonest` | src/routing/router.rs:225-260 | Success is told only by the step that publishes the table, to the registrant who waits for it, and failure only by the step that refuses |
| `Routers.Accounts` | src/routing/router.rs:225-260 | Each step answers exactly the registrations it no longer carries |
| `Routers.ListenerIsServed` | src/routing/router.rs:241-260 | A fresh table serves every registered listener: alone for unicast, among all for broadcast, at no higher total for anycast |
| `Routers.FreshAfterRefresh` | src/routing/linkstate/db.rs:152-170 | Renewed sequence numbers do not make a published table stale |
| `Routers.PublishedIsBuilt` | src/routing/router.rs:241-243 | Whatever the router has published is a built table, however old |
| `Agreement.NoDuplicatesNoStorms` | README.md:54 | Over built tables that need not agree and stay as they are, in every interleaving with losses: each node accepts a packet at most once, each listener gets at most one copy, and the run is bounded |
| `Republishing.NoDuplicatesWhileSteady` | src/handle.rs:347-350 | The same with new built tables at every step, as long as no link back to the sender changes; the bound is the widest entry times the nodes and the sender |
| `Republishing.AcceptedOnceWhileSteady` | src/routing/linkstate/db/forward_table.rs:111-128 | Nodes whose links back stay all the way up to the sender accept a packet at most once, whatever changes in the tables of others |
| `Republishing.FirstCopy` | src/routing/linkstate/db/forward_table.rs:141-147 | What an accepting node sends to such a node is the first copy that node is ever sent |
| `Republishing.DeliversAlongRun` | src/routing/linkstate/db/forward_table.rs:54-167 | At such nodes a listener gets at most one copy, with tables that change |
| `Storms.StormAfterOneChange` | src/routing/router.rs:241-243 | After one change of one link back, over built tables that then stay as they are, a listener gets a packet as often as one likes and the packet never stops |
| `Storms.HopOver` | src/routing/linkstate/db.rs:604-616 | In the trees of those nodes a host with one way in is reached by it |
| `Agreement.BuiltNetOk` | src/routing/linkstate/db/forward_table.rs:197-282 | Built tables name no link twice, whatever their databases |
| `PacketNet.AcceptedAtMostOnce` | src/routing/linkstate/db/forward_table.rs:111-128 | The reverse-path check lets each node accept an injected packet at most once, in every interleaving |
| `PacketNet.DeliveredAtMostOnce` | src/routing/linkstate/db/forward_table.rs:54-167 | Each listener gets at most one copy |
| `PacketNet.ForwardingTerminates` | src/routing/linkstate/db/forward_table.rs:54-167 | A run is no longer than the hops of the sender plus those of all nodes |
| `PacketNet.StepDecreases` | src/routing/linkstate/db/forward_table.rs:111-167 | Every arrival or loss uses up what could still be sent |
| `PacketNet.ArriveInv` | src/routing/linkstate/db/forward_table.rs:111-167 | An arrival keeps one copy per wire and marks the reverse-path wire of an accepting node as used up |
| `Agreement.DistSymmetric` | src/routing/linkstate/db.rs:563-632 | Agreed distances are symmetric |
| `Agreement.Triangle` | src/routing/linkstate/db.rs:563-632 | Agreed distances obey the triangle inequality |
| `Agreement.NextHopIsTight` | src/routing/linkstate/db.rs:604-616 | A next hop is nearer by exactly its link |
| `Agreement.NextHopUnique` | src/routing/linkstate/db.rs:604-616 | Any neighbour on a shortest path is the next hop |
| `Agreement.ReversePathHolds` | src/routing/linkstate/db/forward_table.rs:113-128 | A packet that moves away from its sender along a shortest path passes the check |
| `Agreement.ConsistentNetOk` | src/routing/linkstate/db/forward_table.rs:197-282 | Consistent networks are networks of built tables |
| `Trails.DeliveredExactly` | src/routing/linkstate/db/forward_table.rs:54-167 | Over arbitrary tables, when a lossless run is over, a node has accepted the packet if and only if there is a trail of nodes handing it on to its reverse-path link, and each listener has exactly what such a node owes it |
| `Trails.TrailIsUnique` | src/routing/linkstate/db/forward_table.rs:117-128 | The only trail to a node is its own way back to the sender, reversed |
| `Trails.AcceptTrails` | src/routing/linkstate/db/forward_table.rs:111-167 | An acceptance extends the trail of the node that sent the copy |
| `Trails.RunToEnd` | src/routing/linkstate/db/forward_table.rs:54-167 | From every sender there is a lossless run that ends with nothing in flight |
| `Delivery.RouteDecides` | src/routing/linkstate/db/forward_table.rs:113-128 | Over any tables that lead to a listener, the packet is delivered, once and to nobody else, if and only if every node on the route goes back to the sender by the node before; the run is shorter than the route |
| `Delivery.StateAlongRoute` | src/routing/linkstate/db/forward_table.rs:111-167 | The whole state at every step of a lossless run over a route: under way, delivered or refused |
| `Delivery.AcceptsIffBack` | src/routing/linkstate/db/forward_table.rs:117-128 | A node on a route accepts the packet exactly if its next hop to the sender is the node before |
| `Delivery.RouteIsDistinct` | src/routing/linkstate/db/forward_table.rs:222-243 | A route that ends never comes back to a node |
| `Delivery.CourseAlong` | src/routing/linkstate/db/forward_table.rs:285-299 | Along a route that descends a potential, distance travelled and rest to go add up to the total of the sender |
| `Delivery.OwnedDescends` | src/routing.rs:239-252 | Tables for a unicast endpoint or a node address lead towards the owner, where the address resolves to the local endpoint |
| `Delivery.UnicastExactly` | src/routing/linkstate/db/forward_table.rs:113-128 | Ties or not, a packet to a unicast endpoint or to an address at a node is delivered to the owner, once, if and only if the way along next hops is retraced; otherwise nowhere |
| `Delivery.ChosenIsBest` | src/routing/linkstate/db/forward_table.rs:206-221 | The route a table picks is worth exactly the best total of its node |
| `Delivery.AnycastDescends` | src/routing/linkstate/db/forward_table.rs:285-299 | The best total drops by exactly the link cost at each hop |
| `Delivery.AnycastExactly` | src/routing/linkstate/db/forward_table.rs:206-221 | Ties or not, although every hop chooses afresh, the tables lead to a listener of least cost plus distance, where the packet is delivered, once, if and only if the way is retraced; otherwise nowhere |
| `Delivery.LastHopIsBest` | src/routing/linkstate/db/forward_table.rs:285-299 | No advertised origin beats the listener a packet on course is delivered to |
| `Delivery.HopStaysOnCourse` | src/routing/linkstate/db/forward_table.rs:113-150 | Where shortest paths are unique, each hop leads to the one end at which the next node accepts, and lowers the cost to go by exactly the link cost |
| `Delivery.UnicastDelivered` | src/routing/linkstate/db/forward_table.rs:113-128 | Corollary for unique symmetric shortest paths: the packet always reaches the owner, in fewer steps than there are nodes |
| `Delivery.AnycastDelivered` | src/routing/linkstate/db/forward_table.rs:206-221 | Corollary for unique symmetric shortest paths: the packet always ends at a listener that is best for the sender |
| `Broadcasting.HopsAreComplete` | src/routing/linkstate/db/forward_table.rs:245-276 | A node has a hop for each of its listeners and exactly the links towards reachable hosts |
| `Broadcasting.RelaysIffHands` | src/routing/linkstate/db/forward_table.rs:113-150 | A node hands a broadcast to a neighbour exactly if the neighbour goes back to the sender by it, and it reaches some host by the neighbour without going back |
| `Broadcasting.BroadcastExactly` | src/routing/linkstate/db/forward_table.rs:79-105 | Ties or not, when a broadcast has died down a listener has one copy if the packet is relayed to its node, and none otherwise |
| `Broadcasting.OffBackPath` | src/routing/linkstate/db/forward_table.rs:141-147 | Where costs are symmetric the back path never hides a node that lies beyond |
| `Broadcasting.BroadcastAtMostOnce` | src/routing/linkstate/db/forward_table.rs:79-105 | In every run over a consistent network, with whatever losses and at every moment, a listener has at most one copy of a broadcast |
| `Broadcasting.BroadcastExactlyOnce` | src/routing/linkstate/db/forward_table.rs:79-105 | Corollary for unique symmetric shortest paths: each registered listener the sender can reach has exactly one copy, and nobody else has any |
| `EqualCosts.EqualCostsDropPackets` | src/routing/linkstate/db/forward_table.rs:117-128 | On a ring of six equal links every lossless run from one node to the opposite one ends with nothing delivered |
| `EqualCosts.DroppingRun` | src/routing/linkstate/db/forward_table.rs:117-128 | And there is such a run |
| `EqualCosts.TiesCanDeliver` | src/routing/linkstate/db/forward_table.rs:117-128 | On a ring of four equal links the packet always arrives, although shortest paths are not unique |
| `EqualCosts.FarHop` | src/routing/linkstate.rs:252-277 | Across the ring the way goes by the far neighbour of smaller id |
| `EqualCosts.RingExists` | src/routing/linkstate/db/forward_table.rs:117-128 | Such a topology exists |
| `EqualCosts.RingNetworkExists` | src/routing/linkstate/db/forward_table.rs:117-128 | Nodes on any ring, with their links, trees, tables and one unicast endpoint, form the network those results are about |
| `EqualCosts.LostPacket` | src/routing/linkstate/db/forward_table.rs:117-128 | A packet that is lost with nothing refused and no link down: concrete ids, tables built by the rules, and the whole run |
| `Existence.TreeExists` | src/routing/linkstate/db.rs:563-632 | Links that cover a topology admit a shortest-path tree: the search always has a result |
| `Existence.FibExists` | src/routing/linkstate/db/forward_table.rs:197-282 | Every tree and route table admit a forwarding table |
| `Existence.NetworkExists` | src/routing/linkstate/db/forward_table.rs:197-282 | Any positive topology that nodes with wired links agree on gives a consistent network |
| `Existence.PairNetworkExists` | src/routing/linkstate/db/forward_table.rs:197-282 | Two nodes with one link form a network without ties |
| `Index.RouteIsAdvertised` | src/routing/linkstate/db.rs:275-310 | The route of a fresh advertisement that is not refused has its kind, cost and realm, or the distance of the router |
| `Index.WithdrawnRouteGoes` | src/routing/linkstate/db.rs:204-238 | A withdrawal that is not outdated clears the route it names, also one whose record has expired |
| `Index.HandledCompletes` | src/routing/linkstate/db.rs:335-379 | Handling any advertisement keeps every foreign record indexed, except those the route table refuses |
| `Index.RegistrationCompletes` | src/routing/linkstate/db.rs:680-737 | Registrations keep the index complete |
| `Index.RemovalCompletes` | src/routing/linkstate/db.rs:774-802 | Removals of listeners keep the index complete |
| `Index.CostChangeCompletes` | src/routing/linkstate/db.rs:739-763 | Cost changes keep the index complete |
| `Index.OperationCompletes` | src/routing/linkstate/db.rs:138-802 | Every operation of the database keeps the index complete, up to what the route table refuses |
| `Convergence.ConvergedIsConsistent` | src/routing/linkstate/db.rs:804-810 | Routers that listen and hold the same router advertisements form a consistent network |
| `Convergence.KnownAt` | src/routing/linkstate/db/route_table.rs:219-262 | What a node has in its table follows from the advertisements of the endpoint it holds |
| `Convergence.AnycastIsHosted` | src/routing/linkstate/db/forward_table.rs:206-221 | An anycast endpoint whose advertisements everyone holds has the routes that AnycastExactly relies on |
| `Convergence.BroadcastIsAnnounced` | src/routing/linkstate/db/forward_table.rs:245-276 | A broadcast endpoint whose advertisements everyone holds has the routes that BroadcastExactly relies on |
| `Convergence.UnicastIsOwned` | src/routing/linkstate/db/forward_table.rs:222-243 | A unicast endpoint whose advertisement everyone holds has the routes that UnicastExactly relies on |
| `Convergence.NodeIsOwned` | src/routing.rs:239-252 | So has the address of a node whose router advertisement everyone holds |
| `Convergence.ConvergedDelivers` | src/routing/linkstate/db/forward_table.rs:113-128 | From agreeing databases: a unicast packet is delivered if and only if its way is retraced |
| `LinkState.FloodIsExact` | src/routing/linkstate/db.rs:635-678 | Any advertisement, a router or a withdrawal included, goes out exactly once on every link that it has not come over, that leads neither to its origin nor to the next hop there and on which something of it is left: same key, number and dead flag, body cut to the shared realms |
| `LinkState.SkipsOneLink` | src/routing/linkstate/db.rs:635-639 | A flood that names a connection leaves out that link and no other: the first announcement of an endpoint names connection 0 |
| `Coverage.FloodReachesExactly` | src/routing/linkstate/db.rs:635-678 | By any fixed trees, in every interleaving with other traffic and whatever else nodes do: when no copy is left, a node has a fresh endpoint advertisement if and only if links that carry its realm and nobody leaves out lead to it from the origin |
| `Coverage.GoesAllTheWay` | src/routing/linkstate/db.rs:635-678 | When no copy is left, the advertisement has gone wherever such links lead |
| `Coverage.FloodCovers` | src/routing/linkstate/db.rs:635-678 | Where trees agree and links carry the realm, a fresh endpoint advertisement reaches every node that can reach the origin, although each node skips its next hop towards it, with at most as many messages as there are link ends |
| `Coverage.NextHopsAreOpen` | src/routing/linkstate/db.rs:644-653 | Against the next hops, links that nobody leaves out lead from the origin to everyone who can reach it |
| `Coverage.NextHopIsNearer` | src/routing/linkstate/db.rs:644-653 | Next hops towards an origin are strictly nearer, so two nodes never leave each other out |
| `Coverage.AcceptKeeps` | src/routing/linkstate/db.rs:335-379 | Storing and flooding keeps it exact who has the advertisement and who is still to get it |
| `Flooding.TakenOnce` | src/routing/linkstate/db.rs:248-263 | A node takes and re-floods an instance, and anything older of its key, at most once while its record is not withdrawn and the node keeps it, however realms have filtered the copies and whatever is lost or done meanwhile |
| `Flooding.HandleMonotone` | src/routing/linkstate/db.rs:248-263 | A stored number never falls, but for a withdrawal numbered above it or above the router record of its origin |
| `Flooding.ErasedBy` | src/routing/linkstate/db.rs:204-230 | Over any run, a record that its node does not drop itself goes only through a withdrawal of its own key numbered above it, or of a router record of its origin numbered above that |
| `Flooding.HandlePressure` | src/routing/linkstate/db.rs:335-379 | Handling a copy uses up one message or the link ends of a node that lacked the instance |
| `Flooding.MessagesBounded` | src/routing/linkstate/db.rs:635-678 | For any live instance, in any traffic, with losses, trees that change at every step and nodes that do anything else meanwhile: copies handled and in flight are at most those at the start plus the link ends of the nodes that lacked it |
| `Flooding.OncePerLink` | src/routing/linkstate/db.rs:635-678 | Every link direction carries an instance at most once |
| `Flooding.FloodTerminates` | src/routing/linkstate/db.rs:335-379 | Issuing any live advertisement causes at most as many messages as there are link ends, and at most one per link direction, losses and other doings included |
| `Filtering.FilteredFloodReachesExactly` | src/routing/linkstate/db.rs:335-379 | Any live advertisement, by any fixed trees, in every interleaving: when no copy is left, a node other than the origin has the instance if and only if a link nobody leaves out leads to it on which something is left of what the near node has; and what it has is what some path of such links leaves |
| `Filtering.ConfluentFloodReaches` | src/routing/linkstate/db.rs:335-379 | Where all paths to a node leave the same, it has the instance if and only if links lead to it along which something is left after filtering, and has just that |
| `Filtering.OrderMattersUnlessConfluent` | src/routing/linkstate/db.rs:248-263 | Every node ends up with what any path leaves to it, in every complete run, if and only if all paths to a node leave the same |
| `Filtering.UniformIsConfluent` | src/routing/linkstate.rs:199-218 | So it is where all links carry the same realms |
| `Filtering.EndpointsAreConfluent` | src/routing/linkstate.rs:199-218 | And for every endpoint advertisement |
| `Filtering.FirstComeFirstServed` | src/routing/linkstate/db.rs:248-263 | A complete run in which a node stays without a router advertisement although a path leaves something of it there |
| `Filtering.RunsOut` | src/routing/linkstate/db.rs:335-379 | From any moment on, handling the copies that are left comes to an end |
| `Filtering.ArrivalKeeps` | src/routing/linkstate/db.rs:335-379 | Handling any advertisement keeps it exact who has what of the instance, and who is still to get it |
| `Renewal.OwnNumbersGrow` | src/routing/linkstate/db.rs:460-462 | Whatever operation changes an own record, a first announcement aside, gives it a higher number and the time of the change |
| `Renewal.ChangeIsTaken` | src/routing/linkstate/db.rs:248-263 | So every other node whose number was at most the old one stores the changed record and passes it on |
| `Renewal.WithdrawalIsTaken` | src/routing/linkstate/db.rs:774-802 | The withdrawal of an endpoint removes its record at every node that is not ahead of the origin |
| `Renewal.FarewellIsTaken` | src/routing/linkstate/db.rs:108-125 | The withdrawal of a node that shuts down removes everything of it at every node that is not ahead of it |
| `Renewal.RenewedByNext` | src/routing/linkstate/db.rs:152-170 | An own record left alone since one refresh is renewed by the next |
| `Renewal.OneStaleGoes` | src/routing/linkstate/db.rs:185-201 | A purge takes a record exactly if one is stale, only a stale one, and just one |
| `Renewal.NeverExpires` | src/routing/linkstate/db.rs:185-201 | Over any run of operations of a node, a foreign record that is not withdrawn and renewed within each lifetime is never purged |
| `Routing.RestrictIs` | src/routing/linkstate.rs:199-218 | Filtering keeps exactly the adjacencies that share a realm with the link, cut down to the shared realms |
| `Realms.RestrictTwice` | src/routing/linkstate.rs:199-218 | Crossing two links is crossing one with the realms they share |
| `Realms.EndpointJourney` | src/routing/linkstate.rs:199-218 | An endpoint advertisement survives a journey if and only if every link carries its realm, and arrives unchanged |
| `Realms.RouterJourney` | src/routing/linkstate.rs:199-218 | What is left of a router advertisement after any journey, and when nothing is |
| `Realms.MoveKeeps` | src/routing/linkstate/db.rs:335-379 | Lawful operations, arrivals and losses keep every advertisement explained by a journey |
| `Operations.Perform` | src/routing/linkstate/db.rs:138-802 | Every operation of the database, from any valid state, has the result its method promises, keeps foreign records, takes in only what it has just been told, sends of its own only what its records say, and offers every altered record and every withdrawal to all links that must get it; arrivals are acknowledged, a new link gets everything |
| `Operations.SynchronizationIsComplete` | src/routing/linkstate/db.rs:528-560 | A new link gets a filtered copy of every record of which anything is left on it |
| `Operations.RefreshIsOffered` | src/routing/linkstate/db.rs:157-176 | Every renewed advertisement is flooded |
| `Operations.StepIsMove` | src/routing/linkstate/db.rs:335-379 | Such a step is a move of the histories below |
| `Realms.EndpointContained` | src/routing/linkstate/db.rs:335-379 | In every history of operations an endpoint advertisement held away from its origin is one that the origin has had in its own records, and came over links that all carry its realm |
| `Realms.AdjacencyContained` | src/routing/linkstate.rs:199-218 | In every history of operations a stored adjacency has only realms that its origin gave it in its own records and every crossed link carries |
| `Registrations.AnnouncedAsRegistered` | src/routing/linkstate/db.rs:697-717 | The first announcement of an endpoint carries exactly the registered kind, realm and cost |
| `Registrations.RealmStays` | src/routing/linkstate/db.rs:739-763 | No other operation announces an own endpoint or changes the kind or realm of its advertisement |
| `Registrations.OwnIsAsRegistered` | src/routing/linkstate/db.rs:680-735 | In every history an own endpoint advertisement has the kind and the realm of the last registration of a first listener |
| `Registrations.RegisteredRealmContains` | src/routing/linkstate.rs:199-218 | In every history an endpoint advertisement held away from its origin came over links that all carry the realm in which a first listener was registered there |
| `Registrations.PerformedIsDeed` | src/routing/linkstate/db.rs:680-735 | What a database object performs on what it has received is a step of those histories |
| `WebSocketPeer.Heartbeat.OnRx` | src/peers/common.rs:34-38 | Anything heard clears the pending ping |
| `WebSocketPeer.Heartbeat.NextDeadline` | src/peers/common.rs:49-55 | The earlier of the next ping and the timeout |
| `WebSocketPeer.Heartbeat.TakePingToken` | src/peers/common.rs:70-76 | Tokens count up, wrapping at 64 bits; the ping is on record |
| `WebSocketPeer.WsPeer.Step` | src/peers/ws/ws_peer.rs:140-182 | One event, for every phase, equals the step function of the machine |
| `WebSocketPeer.WsPeer.OnWire` | src/peers/ws/ws_peer.rs:184-200 | A node message is handed over, a ping echoed, a farewell or a stray greeting closes; all else the function of the machine says |
| `WebSocketPeer.WsPeer.OnTick` | src/peers/ws/ws_peer.rs:202-215 | One tick equals the function of the machine |
| `WebSocketPeer.WsPeer.Close` | src/peers/ws/ws_peer.rs:217-238 | Closing queues the farewell of its reason and one Unregister, once |
| `WebSocketPeer.StepOk` | src/peers/ws/ws_peer.rs:140-238 | Unregister is queued exactly once, last, by the event that leaves Open; later events queue nothing |
| `WebSocketPeer.TickAdvances` | src/peers/ws/ws_peer.rs:202-215 | A tick at or past the deadline moves it on with one ping, or closes, exactly from the timeout on |
| `WebSocketPeer.SilenceUsesIntervals` | src/peers/common.rs:49-76 | Each ping into a silence uses up an interval of the timeout |
| `WebSocketPeer.SilentPeerBound` | src/peers/common.rs:34-76 | A silent peer gets at most ceil(timeout / interval) - 1 further pings, also when the silence starts with a ping, and is open exactly until the first tick at or past the timeout |
| `WebSocketPeer.StepKeepsPulse` | src/peers/common.rs:34-76 | While the clock does not go back, a ping on record is never older than the last message heard |
| `WebSocketPeer.DriverEndsCleanly` | src/peers/ws/ws_peer.rs:251-284 | Whichever effects fail: external events are read only while Open, the driver ends once the machine has left Open, and Unregister is applied at most once, last, and exactly when no effect failed after leaving Open |
| `WebSocketPeer.RunWsPeer` | src/peers/ws/ws_peer.rs:241-284 | The driver loop computes the run that the theorem is about |
| `WebSocketPeer.Drain` | src/peers/ws/ws_peer.rs:252-261 | Effects are applied in order up to the first failure |
| `WebSocketPeer.DrainKeeps` | src/peers/ws/ws_peer.rs:252-261 | A drain applies the whole queue or a proper prefix, in order |
| `WebSocketPeer.FailureStands` | src/peers/ws/ws_peer.rs:145-150 | A failure while closing drops the rest of the queue with Unregister in it |
| `WebSocketPeer.UnregistersIff` | src/peers/ws/ws_peer.rs:251-284 | A peer that has left Open is unregistered if and only if every write and notification queued for it succeeds; the driver ends either way |
| `WebSocketPeer.LeavingUnregistersIff` | src/peers/ws/ws_peer.rs:140-238 | The same for whatever event makes an idle open peer leave Open |
| `WebSocketPeer.UnregisterCanBeLost` | src/peers/ws/ws_peer.rs:145-150 | A run of the driver: a local shutdown whose close frame cannot be written ends without unregistering |
| `PeerTraffic.TrafficIsCarried` | src/peers/ws/ws_peer.rs:251-284 | From an idle start the driver applies exactly the traffic that the events it reads ask for, in order and once each: node messages handed over, pings echoed, messages of the node sent; if a write fails, only that last one may be missing |
| `PeerTraffic.MessagesAreHandedOver` | src/peers/ws/ws_peer.rs:184-200 | Whatever fails, the node messages handed over are exactly those read while Open, in order |
| `PeerTraffic.StepAsks` | src/peers/ws/ws_peer.rs:140-200 | An event queues the traffic it asks for and no other |
| `PeerTraffic.FarewellIsApplied` | src/peers/ws/ws_peer.rs:217-238 | If nothing fails, the close frame is sent when the peer leaves itself, and the manager notified when the other side has gone |
| `PeerTraffic.PingsWhenDue` | src/peers/common.rs:49-76 | A ping due before the timeout goes out at the first deadline, the peer staying open, and an earlier tick does nothing |
| `PeerTraffic.PingsEveryInterval` | src/peers/common.rs:49-76 | Ticked at its deadlines through a silence, a peer pings once every interval |
| `PeerTraffic.SilentPeerExactly` | src/peers/common.rs:49-76 | Then it sends exactly ceil(timeout / interval) - 1 pings and is closed when the timeout is over |
| `PeerTraffic.HearingPutsOff` | src/peers/common.rs:34-47 | Whatever is heard puts off the timeout; a resume does and pings at once |

## Left out

- Transports, handshakes, IPC sockets, TLS, codecs: input and output. A link is two ends and what is in flight between them.
- `try_send` on queues: `LsDb.outbox` records what is offered to each link; the network models let any message be lost or, where stated, none.
- `src/peers/ws/ws_manager.rs` and `src/peers/ipc`: reconnect timers, socket binding and probing.
- `pending_tx` and the handling of acknowledgements: nothing is ever sent again, so they affect no other state. Acknowledgements sent are modelled.
- Payload encoding and downcasting: payloads are opaque bytes.
- Routers.Router.Next: registrations and advertisements of `RouteKind::Multicast` are excluded, since building a table for them panics in the program, and so are messages that reuse a live connection id, after which a first hop may have no link and the search may panic (`ReuseUncovers` says exactly when), or an endpoint id equal to the id of the node, whose first listener overwrites the router advertisement of the node (`OwnIdOverwrites`); HandleMsg and HandleRegistration likewise. The route table and the database take them all.
- Routers.Router.Run: stops at the first such message.
- Clocks: the time is a parameter, one value per call. An own record therefore cannot expire between a refresh and the purge right after it.
- Map iteration order: every choice the program leaves to it is an arbitrary choice here, the pick among parallel links included.
- `ConnectionIdCounter`: ids wrap at 16 bits. That an id is fresh among live links, and that endpoint ids are no node ids, is assumed of the messages a router receives (`Router.AdmissibleMsg`).
- Sequence numbers are unbounded; the program uses 64 bits.
- Several router advertisements of one origin: the search then uses any of them (`TopologyUnique` says when there is no choice).
- The error text of a refused registration, and `FailedRegistration` being sent by the database: the router model records the refusal.
- `update_endpoint_cost` after a cost change is called by the router in the program and by `LsDb.SetAnycastCost` here; one message does both.
- The one-shot reply to a cost change: `LsDb.SetAnycastCost` returns the outcome that is sent.
- When a shutdown happens, and what clients do about it.
- The local-only build of the program (without the `remote` feature).
- Delivery while databases still disagree: for that time only the absence of duplicates and storms is proved, over tables whose links back to the sender stay.
- Coverage.FloodCovers: like FloodReachesExactly about endpoint advertisements, trees that stay as they are while it floods, and floods without losses; the bounds of FloodTerminates and TakenOnce cover router advertisements, changing trees and losses.
- Agreement.NoDuplicatesNoStorms: tables stay as they are; NoDuplicatesWhileSteady lets them change.
- Filtering.FilteredFloodReachesExactly: trees stay as they are while it floods, no copy is lost and nothing of the origin is withdrawn, as in FloodReachesExactly.
- Filtering.ConfluentFloodReaches: a condition on paths alone that decides who gets a router advertisement is given where all paths leave the same; otherwise the order of arrival decides, and FilteredFloodReachesExactly says it by what the neighbours have.
- Convergence: that databases come to agree is assumed; `FloodCovers` is the step that brings them there.
- Database.LsDb.PurgeStaleLsas: drops one record as the program does; nothing is proved about how soon all stale records go.
- Delivery.RouteDecides: one link per pair of neighbours is assumed, so that a next hop names a link; `DeliveredExactly` does without.
- Delivery.UnicastDelivered: needs symmetric positive costs and unique shortest paths below 65535, as do AnycastDelivered and BroadcastExactlyOnce; UnicastExactly, AnycastExactly and BroadcastExactly need neither.
- WebSocketPeer.RunWsPeer: the events a driver reads are a given sequence, so the choice among ready sources is not modelled.
