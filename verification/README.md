# Yggdrasil-ng in Dafny

Yggdrasil-ng is a mesh router: nodes agree on a spanning tree by gossip, address each other by their
coordinates in it, and forward packets greedily. This project models the parts of it that are protocols or
algorithms, and proves what they promise:

- **the tree router** (`Tree`, `Metric`, `RouterSpec`, `RouterRuns`, `Crdt`, `ParentChoice`, `Forwarding`, `LookupOrder`,
  `Greedy`, `Joining`, `Switching`, `Upkeep`, `Router`): signed parent announcements that converge, gossip bookkeeping, the two-phase choice of a parent, the
  coordinate cache, greedy forwarding with a watermark;
- **peers, lookups and paths** (`Peers`, `BloomFilter`, `Blooms`, `BloomRuns`, `Multicast`, `Horizon`, `Pathfinder`, `PathRuns`, `Emitted`): ports, the bloom filters
  that steer lookups, and the cache of paths;
- **the packet queue** (`QueueSpec`, `QueueRep`, `QueuePush`, `Eviction`, `Drr`, `RingOrder`, `Fairness`, `Codel`, `CodelRuns`, `QueueRuns`, `FairRuns`,
  `PacketQueue`):
  deficit round robin over a swap-remove ring, byte caps, and controlled delay;
- **prefix sets and the route table** (`Dyadic`, `Cidr`, `RouteTable`);
- **formats** (`Bits`, `Wire`, `BloomWire`, `Address`): varints, paths, messages, frames, compressed filters, and the
  bits of a key that make up an address.

State that the source keeps in objects and changes in place is a class here, with the source's loops; each method is
proved equal to a function or relation on values, and the theorems are about those. Keys are numbers in the order of
their bytes. Signatures, hashes and clocks are parameters; iteration over a hash map is a nondeterministic choice, and
what is proved holds for every order.

The main results, with the module each is in:

- `Greedy.GreedyDelivery`: in a converged network a packet from any node is forwarded until it arrives, in at most as many
  hops as the tree distance, and is never lost. `PeerPorts.AllocatorsSeparateSiblings` supplies the condition on ports.
- `RouterRuns.TwoPasses`: of two consecutive maintenance passes of any run, one leaves the node with a valid, acyclic
  ancestry under a root no larger than itself. `RouterRuns.RunKeeps` keeps gossip, cache and signatures right in every state.
  Every operation of `Routers.Router` is proved to be a step of such a run.
- `Joining.JoinsSmallestRoot`: in every run in which nobody else announces the node, as soon as a peer offers a place under a better root,
  the next pass takes a place under the smallest root on offer. `Joining.PassStays` and `Switching.PassSwitches`: when a node stays, and when it changes its way to the same root.
- `Forwarding.ForwardingBounded`: with arbitrary, inconsistent views, a message is forwarded at most d times, d being
  the distance its first forwarder saw. `LookupOrder.DeterminedIffChampion`: when the next hop does not depend on the order of links.
- `Crdt.Convergence`, `Crdt.ExchangeLevels`: order and repetition of announcements do not matter, and one exchange levels two nodes.
- `FairRuns.FairStretch`: in every run of the queue, over any stretch with a fixed ring, two flows differ by at most three quanta
  and two packets;
  `QueueRuns.RunBounded` and `QueueRuns.OversizedWraps` say when the deficit arithmetic is sound and when it wraps.
- `CodelRuns.DropsExactlyStanding`, `CodelRuns.StartsExactly`, `CodelRuns.DropsWhenDue`, `CodelRuns.StartsAtRate`: exactly which packets are judged
  to go, when dropping starts, how it is paced and at what rate it resumes; `Codels.PopCodelConserves`: nothing else is lost.
- `Eviction.PushEvictsLargest`, `Eviction.PushEvictsJustEnough`: whom a push takes packets from, and that it takes no more than it must.
- `RingOrder.RotateSeeks`: the flow served is the first, going round from the cursor, that can send.
- `Multicast.LookupReachesAfter`, `Multicast.LookupOnce`: from any filters on which neighbours agree, after as many rounds as
  the farthest node is hops away, every node can look the target up; and no edge carries a lookup twice.
- `Horizon.FiltersExact`, `Horizon.LookupPruned`: what a filter advertises over an edge is exactly the far side, and lookups cross an edge only towards
  nodes that bear what is asked for.
- `Cidr.SubtractMany` with `Cidr.CoverMinimal`: exactly include minus excludes, with the fewest prefixes;
  `RouteTables.ResolveConfigured`: which configurations are refused, and what every address resolves to under the others.
- `Pathfinders.LifeOfAPath`, `PathRuns.FreedExactlyWithoutPath`, `PathRuns.LookupsSpaced`: what may change a cached path, when a packet that waits
  for one is sent, and how often its destination is looked up.

Places where the code and its comments differ, or where a property needs a condition:

- Inserting a duplicate prefix overwrites (crates/yggdrasil/src/ckr.rs:81), although the comment says it is skipped; the model overwrites.
- `emit_range` computes one past the end of a block, which at the top of the address space is the size of the space;
  `Cidr.EndExactModulo` shows that the wrapped value is right.
- A packet of more than four quanta is admitted but charged more than the deficit clamp allows; `QueueRuns.OversizedWraps` is the
  witness, `Fairness.ChargeExact` the exact condition.
- `lookup`'s choice depends on the order of visiting exactly when no link beats all others, which takes links of different
  priority to one key: `LookupOrder.DeterminedIffChampion`, `LookupOrder.UniformPrioDetermined`, with a node for which it does in
  `LookupOrder.LookupOrderMatters`.
- One pass of filter maintenance removes stale bits exactly when they were found in the pass before: `Blooms.RefreshExactIff`.
- A packet that waits for a path is sent on the notify exactly if there was no path at all. After a broken one it goes on waiting:
  `PathRuns.FreedExactlyWithoutPath`, with a history in `PathRuns.WaitsPastNotify`.
- A subnet derived under an odd address prefix fails the subnet validity test: `Address.SubnetValidIffEven`.
- Zero-terminated paths survive exactly when they contain no zero: `Wire.PathRoundTrip`; `Emitted.EmittedPathsDecode` shows that those a router emits do.

## Model

| member | source | states |
|---|---|---|
| `Tree.GetRootAndDists` | crates/ironwood/src/router.rs:961-980 | the walk succeeds exactly when the ancestry ends at a self-parent; then it gives the root and each ancestor's distance, otherwise the zero key |
| `Tree.GetRootAndPath` | crates/ironwood/src/router.rs:983-1008 | root and coordinates of a node with a valid ancestry, the node itself and no coordinates otherwise |
| `Tree.ChainUnique` | crates/ironwood/src/router.rs:961-1008 | a node has at most one ancestry |
| `Tree.ChainNoDup` | crates/ironwood/src/router.rs:961-1008 | an ancestry that ends at a root visits no node twice |
| `Tree.ChainTransfer` | crates/ironwood/src/router.rs:983-1008 | ancestry and coordinates depend on the parents and ports of the nodes on the chain only |
| `Tree.BackwardsAncestry` | crates/ironwood/src/router.rs:1139-1153 | the known ancestors, nearest first, up to the first unknown or repeated one |
| `Tree.GetAncestry` | crates/ironwood/src/router.rs:1133-1137 | the same nodes, root end first |
| `Tree.AncestorsClosed` | crates/ironwood/src/router.rs:1139-1153 | the ancestors are known, include the node, and are closed under known parents |
| `Tree.AncestorsAreChain` | crates/ironwood/src/router.rs:1139-1153 | for a node with a valid ancestry they are exactly that ancestry |
| `Metric.DistMetric` | crates/ironwood/src/router.rs:1025-1049 | distance of coordinates is symmetric, zero exactly for equal ones, and satisfies the triangle inequality |
| `Metric.DistParent` | crates/ironwood/src/router.rs:1025-1049 | a step between child and parent changes the distance by one, down exactly when the target lies below |
| `Metric.CoordsInjective` | crates/ironwood/src/router.rs:983-1008 | in one tree with distinct sibling ports, coordinates identify nodes |
| `Metric.NextHop` | crates/ironwood/src/router.rs:1058-1127 | from every node but the target some tree edge gets one closer |
| `Metric.DistIsShortestPath` | crates/ironwood/src/router.rs:1025-1049 | the distance of coordinates is the length of the shortest walk over tree edges |
| `RouterRuns.UpdateKeeps` | crates/ironwood/src/router.rs:611-654 | storing an announcement keeps gossip, cache, signature and bookkeeping invariants |
| `RouterRuns.HandleAnnounceKeeps` | crates/ironwood/src/router.rs:657-697 | so does handling one from a peer |
| `RouterRuns.AddPeerKeeps` | crates/ironwood/src/router.rs:422-476 | so does a new link |
| `RouterRuns.RemovePeerKeeps` | crates/ironwood/src/router.rs:479-514 | so does the loss of a link |
| `RouterRuns.HandleResponseKeeps` | crates/ironwood/src/router.rs:565-608 | so does a verified response |
| `RouterRuns.ExpireKeeps` | crates/ironwood/src/router.rs:1532-1569 | so does expiry of old announcements |
| `RouterRuns.SendAnnouncesKeeps` | crates/ironwood/src/router.rs:900-952 | so does telling peers what they have not been told |
| `RouterRuns.FixKeeps` | crates/ironwood/src/router.rs:816-861 | so does a change of position |
| `RouterRuns.MaintenanceKeeps` | crates/ironwood/src/router.rs:313-347 | so does a whole maintenance pass |
| `RouterRuns.RunKeeps` | crates/ironwood/src/router.rs:422-511 | in every reachable state: whatever counts as sent to a peer is known and is what was last exchanged with it, cached coordinates equal a fresh walk, and everything stored is signed with a non-zero port below a root |
| `RouterRuns.MaintenanceTells` | crates/ironwood/src/router.rs:900-952 | after a pass each peer has been told our ancestry and its own |
| `RouterRuns.SelectedLoopFree` | crates/ironwood/src/router.rs:742-813 | a selected parent is connected, and its ancestry reaches the selected root without us; the root is no larger than we are |
| `RouterRuns.AdoptingIsAcyclic` | crates/ironwood/src/router.rs:723-739 | adopting the selected parent makes an acyclic ancestry that ends at the selected root |
| `RouterRuns.BecomeRootAccepted` | crates/ironwood/src/router.rs:700-720 | announcing ourselves as root takes effect exactly when the sequence number is below its maximum |
| `RouterRuns.DecisionSigned` | crates/ironwood/src/router.rs:700-739 | what a node announces about itself passes the check other nodes apply |
| `RouterRuns.FixPosition` | crates/ironwood/src/router.rs:816-861 | a pass ends in a good position or notes that the next must; if that was noted, it ends in one |
| `RouterRuns.MaintenancePosition` | crates/ironwood/src/router.rs:313-347 | the same of a whole maintenance pass |
| `RouterRuns.NoteSurvives` | crates/ironwood/src/router.rs:816-861 | no other operation loses that note |
| `RouterRuns.TwoPasses` | crates/ironwood/src/router.rs:313-347 | of two consecutive passes of any run, whatever happens in between, at least one leaves the node in a good position |
| `Crdt.FoldIsMaximum` | crates/ironwood/src/router.rs:611-654 | after any series: the largest sequence number received about a node, with the smallest parent under it, with the smallest nonce under both |
| `Crdt.UpdateKeepsHigher` | crates/ironwood/src/router.rs:611-654 | of stored and announced information the one of larger sequence number, smaller parent, smaller nonce is kept, the stored one on a tie |
| `Crdt.Convergence` | crates/ironwood/src/router.rs:611-654 | nodes that received the same announcements, in any order and number, agree on sequence number, parent and nonce of every node |
| `Crdt.ReplyDominates` | crates/ironwood/src/router.rs:657-697 | an announcement is answered exactly when something else of no lower rank is stored, and with that |
| `Crdt.ExchangeLevels` | crates/ironwood/src/router.rs:657-697 | after an announcement and its reply the two sides hold equal rank, at least as new as before |
| `ParentChoice.ConsiderKeepsBest` | crates/ironwood/src/router.rs:785-809 | each candidate considered keeps: smallest root so far, offered by someone, present parent kept unless beaten, cheapest way |
| `ParentChoice.WinnerCheapest` | crates/ironwood/src/router.rs:785-809 | without wrap-around of the doubled cost, the winner costs no more than any way to the same root seen before |
| `ParentChoice.WinnerHalves` | crates/ironwood/src/router.rs:785-809 | leaving the present parent for the same root takes a cost below half of it |
| `ParentChoice.SelectedRootUnique` | crates/ironwood/src/router.rs:742-813 | the selected root does not depend on the order of candidates |
| `Routers.Router.constructor` | crates/ironwood/src/router.rs:274-306 | the initial state |
| `Routers.Router.Update` | crates/ironwood/src/router.rs:611-654 | accepted by larger sequence number, then smaller parent, then smaller nonce, or if nothing is known; what else changes |
| `Routers.Router.HandleAnnounce` | crates/ironwood/src/router.rs:657-697 | a step of the protocol that keeps the invariant: update, or an answer with what is stored |
| `Routers.Router.AddPeer` | crates/ironwood/src/router.rs:422-476 | a step of the protocol; what was sent to that key before is sent again over the new link, with the open request |
| `Routers.Router.HandleResponse` | crates/ironwood/src/router.rs:565-608 | a step of the protocol: the answer to the open request only, and the latency estimate |
| `Routers.Router.ExpireInfos` | crates/ironwood/src/router.rs:1532-1569 | a step of the protocol: exactly the expired announcements go, and what was sent about them |
| `Routers.Router.SelectParent` | crates/ironwood/src/router.rs:742-813 | the result is a selection: minimal root, loop-free, loyal to a valid parent |
| `Routers.Router.Decide` | crates/ironwood/src/router.rs:816-861 | use the response, become root, note it or stay; `Joining.FixOutcome` says which on the records |
| `Routers.Router.Fix` | crates/ironwood/src/router.rs:816-861 | selects, decides and carries it out; requests go out exactly when the position changes; `Joining.FixOutcome` says where the node ends up |
| `Routers.Router.SendReqs` | crates/ironwood/src/router.rs:863-886 | a fresh request to every peer, over each of its links, and no other message |
| `Routers.Router.SendAnnounces` | crates/ironwood/src/router.rs:900-952 | tells each peer what of the two ancestries it has not been told, and records it |
| `Routers.Router.DoMaintenance` | crates/ironwood/src/router.rs:313-347 | a step of the protocol; its messages are exactly the requests of a changed position and the news for each peer |
| `Routers.Router.ForceRefresh` | crates/ironwood/src/router.rs:1520-1529 | a step of the protocol that makes the next pass announce a position |
| `Joining.FixOutcome` | crates/ironwood/src/router.rs:816-861 | nothing without a reason to move; the selected place, with its root, if its signature outranks our last; else root if noted before; else a note |
| `Joining.MaintenanceOutcome` | crates/ironwood/src/router.rs:313-347 | the same of a whole pass, with the refresh timer and the note it starts from |
| `Joining.PassJoins` | crates/ironwood/src/router.rs:816-861 | with fresh offers and one under a better root, a pass takes a place under the smallest root on offer |
| `Joining.RunFresh` | crates/ironwood/src/router.rs:565-608 | in every run in which nobody else announces us, open requests and their answers outrank our last announcement |
| `Joining.JoinsSmallestRoot` | crates/ironwood/src/router.rs:313-347 | in such a run the first pass after a better offer takes a place under the smallest root on offer |
| `Joining.PassStays` | crates/ironwood/src/router.rs:742-813 | with nothing better on offer and no flag up, a pass leaves the position alone |
| `Switching.PassSwitches` | crates/ironwood/src/router.rs:742-813 | on a refresh, the cheapest way to our root is taken if it costs less than half of ours, and otherwise we stay |
| `Upkeep.AnnouncedIsTold` | crates/ironwood/src/router.rs:657-697 | the sender counts as told, others no longer if it was stored; news about ourselves asks for a refresh |
| `Upkeep.TellsExactly` | crates/ironwood/src/router.rs:900-952 | a pass sends what is known of both ancestries and not yet told, and nothing else |
| `Upkeep.ResponseKept` | crates/ironwood/src/router.rs:565-608 | the first answer to the open request is kept, and each link is measured once |
| `Upkeep.LagSmoothed` | crates/ironwood/src/router.rs:565-608 | latency moves an eighth of the way to the round trip, and grows by at most an eighth |
| `Upkeep.FirstAnswerDoubles` | crates/ironwood/src/router.rs:422-476 | the first answer over a new link sets its latency to twice the round trip |
| `Upkeep.RemovedIsForgotten` | crates/ironwood/src/router.rs:479-514 | a lost link leaves no record, and a peer without links none at all |
| `Upkeep.ExpiresExactly` | crates/ironwood/src/router.rs:1532-1569 | what is known of others lasts for less than the timeout; our own stays and asks for a refresh |
| `Routers.Router.CachedRootAndPath` | crates/ironwood/src/router.rs:1011-1018 | a step of the protocol; the cached walk equals a fresh one |
| `Routers.Router.GetDist` | crates/ironwood/src/router.rs:1025-1049 | tree distance for a common root and the maximum otherwise |
| `Routers.Router.Candidates` | crates/ironwood/src/router.rs:1070-1083 | exactly the links to peers strictly closer than we are |
| `Routers.Router.Lookup` | crates/ironwood/src/router.rs:1058-1127 | a lookup result for some order of visiting; `Forwarding.LookupPicksBest` and `Forwarding.LookupPicksPriority` say which link that is |
| `Routers.Router.Route` | crates/ironwood/src/router.rs:1231-1267 | forward, deliver or report broken; only the cache changes, and the invariant is kept |
| `Forwarding.SelfParentTestExact` | crates/ironwood/src/router.rs:1025-1049 | the self-parent test tells failed walks from valid ones exactly |
| `Forwarding.RootTestExact` | crates/ironwood/src/router.rs:1025-1049 | equal cached roots mean comparable coordinates, and conversely |
| `Forwarding.LookupPicksCloser` | crates/ironwood/src/router.rs:1058-1127 | the next hop is strictly closer; there is none exactly when the watermark forbids it or no peer is closer |
| `Forwarding.LookupPicksBest` | crates/ironwood/src/router.rs:1100-1123 | with one priority per key, no closer link is better in latency times distance, then distance, then latency, then age |
| `Forwarding.LookupPicksPriority` | crates/ironwood/src/router.rs:1085-1126 | among links to one peer the smallest priority number is chosen, and among equals the best link |
| `LookupOrder.BeatsIs` | crates/ironwood/src/router.rs:1100-1123 | which of two links wins when they meet: by priority to one peer, and by the same four criteria otherwise |
| `LookupOrder.DeterminedIffChampion` | crates/ironwood/src/router.rs:1085-1126 | all orders of visiting give the same next hop exactly when one link to a closer peer beats every other |
| `LookupOrder.NoHopDetermined` | crates/ironwood/src/router.rs:1058-1083 | where there is no next hop the order does not matter either |
| `LookupOrder.UniformPrioDetermined` | crates/ironwood/src/router.rs:1100-1123 | with one priority per key the next hop does not depend on the order |
| `LookupOrder.AllocatedDistinct` | crates/ironwood/src/peers.rs:87-144 | the order numbers that break the last tie are distinct, as connections get them |
| `LookupOrder.LookupOrderMatters` | crates/ironwood/src/router.rs:1100-1123 | a node with three links that sends the same message two ways, depending on the order |
| `Forwarding.WatermarkFalls` | crates/ironwood/src/router.rs:1058-1127 | each forward lowers the watermark strictly |
| `Forwarding.WatermarkPositive` | crates/ironwood/src/router.rs:1058-1083 | a forwarder writes its own distance, which is not zero |
| `Forwarding.ForwardingBounded` | crates/ironwood/src/router.rs:1058-1127 | whatever the views, traffic, notifies and broken reports are forwarded at most d times, and never at watermark zero |
| `Greedy.EveryTreeConverges` | crates/ironwood/src/router.rs:983-1049 | the hypothesis of greedy delivery can be met for every tree |
| `Greedy.ViewDist` | crates/ironwood/src/router.rs:1025-1049 | a converged node computes the distance in the shared tree |
| `Greedy.HopProgress` | crates/ironwood/src/router.rs:1058-1127 | every result of lookup away from the target is a closer node whose watermark check passes |
| `Greedy.TargetDelivers` | crates/ironwood/src/router.rs:1231-1267 | at the target there is no next hop |
| `Greedy.Handled` | crates/ironwood/src/router.rs:1231-1267 | in a converged network a packet is delivered exactly at its target and forwarded everywhere else |
| `Greedy.GreedyDelivery` | crates/ironwood/src/router.rs:1231-1267 | from every node, under every tie-break: forwarded short of the target and delivered at it, within the tree distance, never lost |
| `PeerPorts.Peers.constructor` | crates/ironwood/src/peers.rs:76-83 | no connections, consistent |
| `PeerPorts.Peers.AllocPort` | crates/ironwood/src/peers.rs:148-154 | the lowest free port, never zero |
| `PeerPorts.Peers.AllocatePeer` | crates/ironwood/src/peers.rs:87-144 | the port the key already has or the lowest free one; new identifier and order number, distinct from all others |
| `PeerPorts.Peers.RemovePeer` | crates/ironwood/src/peers.rs:157-171 | the link goes, and key and port with the last link; consistency kept |
| `PeerPorts.PortsIdentify` | crates/ironwood/src/peers.rs:87-171 | connected keys and their ports correspond one to one, and no port is zero |
| `PeerPorts.AllocatorsSeparateSiblings` | crates/ironwood/src/peers.rs:87-171 | ports handed out this way keep siblings in the tree apart and off zero |
| `Emitted.EmittedPathsDecode` | crates/ironwood/src/router.rs:83-90 | in every reachable state the coordinates of every node survive encoding |
| `BloomFilters.BloomFilter.Add` | crates/ironwood/src/bloom.rs:52-58 | adds exactly the eight positions that the base hashes of the key give |
| `BloomFilters.BloomFilter.Test` | crates/ironwood/src/bloom.rs:63-72 | true exactly when all those positions are set |
| `BloomFilters.BloomFilter.Merge` | crates/ironwood/src/bloom.rs:76-80 | the union of the set positions |
| `BloomFilters.BloomFilter.Equal` | crates/ironwood/src/bloom.rs:99-101 | equality of words is equality of set positions |
| `BloomFilters.FootprintIs` | crates/ironwood/src/bloom.rs:385-394 | the positions of a key are its eight locations |
| `BloomFilters.OnesSurviveWire` | crates/ironwood/src/wire.rs:468-518 | the positions of a filter survive its compressed encoding |
| `BloomFilters.SameOnes` | crates/ironwood/src/bloom.rs:87-97 | word and offset arithmetic loses no position |
| `Blooms.BloomTable.FixOnTree` | crates/ironwood/src/bloom.rs:187-217 | marks parent and children, and blanks exactly those that left the tree |
| `Blooms.BloomTable.Merged` | crates/ironwood/src/bloom.rs:228-244 | our own key and all that was heard from the other on-tree peers, in any order |
| `Blooms.BloomTable.GetBloomFor` | crates/ironwood/src/bloom.rs:221-268 | the filter to advertise, whether it is new, and when old bits count as stale |
| `Blooms.BloomTable.DoMaintenance` | crates/ironwood/src/bloom.rs:277-317 | exactly the new, the overdue and the blanked filters are sent; every changed filter is among them |
| `Blooms.BloomTable.GetMulticastTargets` | crates/ironwood/src/bloom.rs:320-341 | exactly the on-tree peers other than the sender whose filter matches |
| `Blooms.PassCovers` | crates/ironwood/src/bloom.rs:221-268 | after every pass what is advertised covers what is needed |
| `Blooms.TwoPassesExact` | crates/ironwood/src/bloom.rs:248-260 | two passes over unchanged inputs leave exactly what is needed and no stale mark |
| `Blooms.RefreshExactIff` | crates/ironwood/src/bloom.rs:248-260 | one pass leaves exactly what is needed if and only if stale bits were found before or there are none |
| `Blooms.OnePassExactIff` | crates/ironwood/src/bloom.rs:277-317 | the same of a maintenance pass over the whole table |
| `Blooms.ExactIsStable` | crates/ironwood/src/bloom.rs:248-260 | from then on filters do not change |
| `BloomRuns.SentExactly` | crates/ironwood/src/bloom.rs:277-317 | after it was sent, a filter is sent again exactly when changed or after 3600 passes |
| `BloomRuns.OffTreeBlank` | crates/ironwood/src/bloom.rs:187-218 | in every run, peers off the tree were left a blank filter |
| `Multicast.TreeLinkIsAdjacency` | crates/ironwood/src/bloom.rs:187-217 | nodes that share the tree agree with it on their tree links |
| `Multicast.FixedPointSettled` | crates/ironwood/src/bloom.rs:277-317 | at a fixed point of maintenance and delivery every filter held covers what its sender knows |
| `Multicast.EveryTreeSettles` | crates/ironwood/src/bloom.rs:221-268 | every tree has a settled exchange of filters |
| `Multicast.FilterReaches` | crates/ironwood/src/bloom.rs:221-244 | the filter received over an edge matches every node on the far side |
| `Multicast.SettledInformed` | crates/ironwood/src/bloom.rs:221-268 | so in a settled network every filter on the way to a node matches it |
| `Multicast.StartInSync` | crates/ironwood/src/bloom.rs:124-132 | nodes that have just met are in step |
| `Multicast.RoundInSync` | crates/ironwood/src/bloom.rs:277-317 | sending only what changed or is overdue, neighbours stay in step |
| `Multicast.RoundsReach` | crates/ironwood/src/bloom.rs:277-317 | after n rounds from any filters in step, the filter over an edge matches the nodes on the far side nearer than n |
| `Multicast.LookupReachesAfter` | crates/ironwood/src/router.rs:1312-1324 | from any filters in step, after as many rounds as the farthest node is hops away, a lookup from any node reaches the node it is for |
| `Multicast.LookupReaches` | crates/ironwood/src/router.rs:1312-1324 | where all filters on the way match, a lookup from any node arrives by the shortest way |
| `Horizon.RoundsClean` | crates/ironwood/src/bloom.rs:221-268 | in any number of rounds no filter gets bits from the near side of its edge |
| `Horizon.FiltersExact` | crates/ironwood/src/bloom.rs:221-268 | after enough rounds a filter is exactly the marks of the nodes on the far side |
| `Horizon.LookupPruned` | crates/ironwood/src/bloom.rs:320-343 | a lookup crosses an edge only towards nodes that bear what it asks for |
| `Multicast.LookupMovesAway` | crates/ironwood/src/router.rs:1312-1324 | however filters err, each hop leads away from the origin |
| `Multicast.LookupOnce` | crates/ironwood/src/router.rs:1312-1380 | a node has a lookup by one way only |
| `Multicast.LookupOneWay` | crates/ironwood/src/router.rs:1312-1380 | no edge carries a lookup in both directions |
| `Pathfinders.Pathfinder.AcceptNotify` | crates/ironwood/src/pathfinder.rs:219-297 | the new cache, whether it changed, and the packet released |
| `Pathfinders.Pathfinder.HandleBroken` | crates/ironwood/src/router.rs:1487-1490 | marks the path broken and looks it up unless that was done within the throttle |
| `Pathfinders.Pathfinder.TrafficArrived` | crates/ironwood/src/router.rs:1250-1251 | fills an empty slot, or refreshes a working path with the same coordinates, and nothing else |
| `Pathfinders.Pathfinder.DoSendLookup` | crates/ironwood/src/router.rs:1278-1283 | sends unless the path was asked for within the throttle |
| `Pathfinders.Pathfinder.SendTraffic` | crates/ironwood/src/router.rs:1194-1228 | use of a cached path, or a held packet and a throttled lookup |
| `Pathfinders.Pathfinder.SendLookup` | crates/ironwood/src/core.rs:419-424 | creates a rumor in any case, even where there is a path, and looks up under the same throttles |
| `Pathfinders.Pathfinder.ForceLookup` | crates/ironwood/src/router.rs:1301-1310 | a lookup past the rumor throttle |
| `Pathfinders.Pathfinder.RetryRumors` | crates/ironwood/src/router.rs:354-361 | marks and looks up exactly the waiting destinations that are due |
| `Pathfinders.Pathfinder.Maintain` | crates/ironwood/src/router.rs:348-361 | cleanup, then retries |
| `Pathfinders.ReleasedForSource` | crates/ironwood/src/pathfinder.rs:219-297 | a packet released by a notify is for the node that sent the notify |
| `Pathfinders.RunFiled` | crates/ironwood/src/router.rs:1194-1228 | in every reachable state packets are held under the key, or transformed key, of their destination |
| `Pathfinders.StepEvolves` | crates/ironwood/src/pathfinder.rs:219-353 | no event lowers a sequence number; only a notify with a larger one changes coordinates or mends a path; unsigned traffic changes neither |
| `Pathfinders.LifeOfAPath` | crates/ironwood/src/pathfinder.rs:219-353 | the same over the whole life of an entry |
| `Pathfinders.StepKeepsBase` | crates/ironwood/src/pathfinder.rs:197-201 | retries do not move what a rumor's lifetime counts from |
| `Pathfinders.RumorExpires` | crates/ironwood/src/pathfinder.rs:406-418 | a rumor not asked for again does not outlive the timeout, however often it is retried |
| `Pathfinders.RetriesSpaced` | crates/ironwood/src/pathfinder.rs:181-201 | two retries of a living rumor are at least the throttle apart |
| `PathRuns.NotifyOutcome` | crates/ironwood/src/pathfinder.rs:219-297 | when a notify is welcome, the path it gives, the packet it frees, and what else stays |
| `PathRuns.FreedExactlyWithoutPath` | crates/ironwood/src/pathfinder.rs:219-297 | in every run a waiting packet is freed by the first notify exactly if there was no path, not even a broken one |
| `PathRuns.WaitsPastNotify` | crates/ironwood/src/pathfinder.rs:227-251 | a history in which a packet goes on waiting although there is a path again |
| `PathRuns.LookupsSpaced` | crates/ironwood/src/pathfinder.rs:140-152 | lookups by sending are a throttle apart unless one is forced |
| `PathRuns.RetriedExactly` | crates/ironwood/src/pathfinder.rs:431-441 | which destinations a retry pass looks up |
| `PathRuns.LookedUpExactly` | crates/ironwood/src/pathfinder.rs:123-137 | when a path is looked up and stamped |
| `PathRuns.ForceLifts` | crates/ironwood/src/router.rs:1301-1310 | a forced lookup lifts the throttle for the next packet |
| `PathRuns.FirstIsKept` | crates/ironwood/src/pathfinder.rs:387-403 | a working path keeps the first packet sent along it |
| `PathRuns.KeptStays` | crates/ironwood/src/pathfinder.rs:387-403 | and keeps it until a welcome notify or expiry |
| `PathRuns.PathExpires` | crates/ironwood/src/pathfinder.rs:406-428 | a path lives for less than the timeout after it was confirmed |
| `PathRuns.LookupExpires` | crates/ironwood/src/pathfinder.rs:406-428 | a lookup lives for less than the timeout after it was asked for or made |
| `PathRuns.ConfirmedBy` | crates/ironwood/src/pathfinder.rs:348-355 | what confirms a path |
| `QueueRep.VacateRep` | crates/ironwood/src/traffic.rs:246-303 | taking an emptied flow out of the ring keeps ring, back-indices, cursor and totals right |
| `QueueRep.VacateKeepsTurn` | crates/ironwood/src/traffic.rs:246-279 | the cursor stays at its flow; if that goes, it moves to what takes its place, or to the first |
| `QueueRep.DropHeadRep` | crates/ironwood/src/traffic.rs:307-323 | so does removing the head of a flow |
| `QueueRep.DropHeadFifo` | crates/ironwood/src/traffic.rs:307-323 | and it removes exactly that packet |
| `QueueRep.EmptyAgree` | crates/ironwood/src/traffic.rs:232-234 | zero bytes, zero packets, an empty ring and no flows are the same |
| `QueuePush.LargestIsLargest` | crates/ironwood/src/traffic.rs:326-334 | the victim has the most bytes and, of flows with as many, the oldest head |
| `QueuePush.LargestIsLatest` | crates/ironwood/src/traffic.rs:326-334 | among flows that tie, the one furthest along the ring |
| `Eviction.PushEvictsLargest` | crates/ironwood/src/traffic.rs:346-397 | another flow loses packets only while it has the most bytes: with its last loss it would be as large as any left |
| `Eviction.PushEvictsForRoom` | crates/ironwood/src/traffic.rs:346-397 | another flow loses packets only if the new packet does not fit the queue |
| `Eviction.PushEvictsJustEnough` | crates/ironwood/src/traffic.rs:346-397 | with the last packet taken, the new one would exceed a cap |
| `QueuePush.PushRep` | crates/ironwood/src/traffic.rs:346-398 | every push keeps the representation |
| `QueuePush.PushFifo` | crates/ironwood/src/traffic.rs:346-398 | flows lose from the old end only; a packet within the cap of a flow becomes its newest; a larger one changes nothing |
| `QueuePush.PushCapped` | crates/ironwood/src/traffic.rs:366-383 | both byte caps hold after every push |
| `QueuePush.PushWithinCaps` | crates/ironwood/src/traffic.rs:366-383 | nothing is evicted when the packet fits |
| `Drr.AdvanceProgress` | crates/ironwood/src/traffic.rs:425-449 | each turn of the search lowers the total credit lacking or reaches a flow that can send |
| `Drr.Rotate` | crates/ironwood/src/traffic.rs:425-449 | the search ends at a flow that can send its head |
| `Drr.RotateSame` | crates/ironwood/src/traffic.rs:425-449 | and changes nothing but deficits and the cursor |
| `RingOrder.RotateSeeks` | crates/ironwood/src/traffic.rs:401-451 | the flow served is the first, round from the cursor, that can send once credited for each visit; all credits along the way |
| `Drr.PopRep` | crates/ironwood/src/traffic.rs:401-451 | every pop keeps the representation |
| `Drr.PopSome` | crates/ironwood/src/traffic.rs:401-405 | a pop yields a packet exactly when there is one |
| `Drr.PopTakes` | crates/ironwood/src/traffic.rs:401-451 | it is the head of its flow, and only it leaves the queue |
| `Fairness.ChargeExact` | crates/ironwood/src/traffic.rs:307-323 | the deficit after serving: exact up to four quanta, wrapped around above |
| `Fairness.ServeCharges` | crates/ironwood/src/traffic.rs:432-439 | within the bound a flow is charged what it sent: no clamp, no wrap-around |
| `Fairness.PushBounded` | crates/ironwood/src/traffic.rs:346-398 | a push keeps deficits below one packet, plus a quantum for the flow in turn |
| `Fairness.PopBounded` | crates/ironwood/src/traffic.rs:401-451 | so does a pop |
| `Fairness.PopBooks` | crates/ironwood/src/traffic.rs:401-451 | what a flow has sent and holds equals what it held plus its turns' credit, turns differing by at most one |
| `Fairness.PushSchedule` | crates/ironwood/src/traffic.rs:346-398 | a push that takes no flow out of the ring does not touch the schedule |
| `Fairness.Fair` | crates/ironwood/src/traffic.rs:401-451 | over any run with a fixed ring the bytes served to two flows differ by at most three quanta and two packets |
| `FairRuns.StandingStep` | crates/ironwood/src/traffic.rs:346-451 | an event that takes no flow out of the ring serves the flow in turn or leaves the schedule alone |
| `FairRuns.FairStretch` | crates/ironwood/src/traffic.rs:187-451 | in every run, over every stretch of pushes, pops and evictions in which the ring stands, two flows differ by at most three quanta and two packets |
| `QueueRuns.Run` | crates/ironwood/src/traffic.rs:187-451 | over every run of pushes, pops and evictions the representation and both caps hold |
| `QueueRuns.RunBounded` | crates/ironwood/src/traffic.rs:307-323 | with packets of at most three quanta the deficit bound holds throughout |
| `QueueRuns.OversizedWraps` | crates/ironwood/src/traffic.rs:436-437 | a packet of more than four quanta, sent twice to an empty queue, wraps the deficit around |
| `Codels.RoundRobinSound` | crates/ironwood/src/traffic.rs:401-451 | deficit round robin serves heads and yields nothing only when empty, which is all that CoDel relies on |
| `Codels.PopCodelConserves` | crates/ironwood/src/traffic.rs:464-519 | per flow and in order: before equals delivered, dropped and left |
| `Codels.PopCodelDelivers` | crates/ironwood/src/traffic.rs:464-519 | something is delivered unless the queue was empty, and only packets judged to be dropped are dropped |
| `Codels.ClockTracks` | crates/ironwood/src/traffic.rs:525-556 | the clock runs from an examination since which every packet was high; a verdict to drop means more than an interval of them |
| `Codels.OnlyStandingQueuesDrop` | crates/ironwood/src/traffic.rs:464-556 | in every run each drop follows more than an interval in which all packets examined had waited the target in front of two others |
| `CodelRuns.DropsExactlyStanding` | crates/ironwood/src/traffic.rs:525-556 | in every run a packet is judged to go exactly if it ends a stretch of standing packets that began more than an interval ago |
| `CodelRuns.StartsExactly` | crates/ironwood/src/traffic.rs:464-519 | exactly when a call that is not dropping drops one packet and goes on dropping; otherwise it delivers the first |
| `CodelRuns.StandingQueueDrops` | crates/ironwood/src/traffic.rs:464-519 | two intervals of standing packets and another one make it drop |
| `CodelRuns.DropsWhenDue` | crates/ironwood/src/traffic.rs:464-519 | a call that is dropping drops until the packet at hand is not to go or the next drop is not due |
| `CodelRuns.EmptyStops` | crates/ironwood/src/traffic.rs:464-519 | an empty queue ends the dropping |
| `CodelRuns.CountsDrops` | crates/ironwood/src/traffic.rs:464-519 | the counters tell how many packets the last dropping dropped |
| `CodelRuns.StartsAtRate` | crates/ironwood/src/traffic.rs:464-519 | dropping resumes at the rate it had reached within sixteen intervals of a scheduled drop, and at the lowest otherwise |
| `PacketQueues.PacketQueue.constructor` | crates/ironwood/src/traffic.rs:213-230 | an empty queue; quantum zero means one mebibyte |
| `PacketQueues.PacketQueue.RemoveFlow` | crates/ironwood/src/traffic.rs:246-279 | swap-remove from the ring with cursor and back-index repaired |
| `PacketQueues.PacketQueue.DropFrom` | crates/ironwood/src/traffic.rs:307-323 | the head of the flow, if any, and the queue without it |
| `PacketQueues.PacketQueue.LargestFlow` | crates/ironwood/src/traffic.rs:326-334 | a flow with the most bytes and, of those with as many, the oldest head |
| `PacketQueues.PacketQueue.DropLargest` | crates/ironwood/src/traffic.rs:338-343 | the oldest packet of that flow goes, unless the queue is empty |
| `PacketQueues.PacketQueue.Push` | crates/ironwood/src/traffic.rs:346-398 | the queue after a push; representation and caps kept |
| `PacketQueues.PacketQueue.FindServeable` | crates/ironwood/src/traffic.rs:425-449 | the search loop ends where the specification says |
| `PacketQueues.PacketQueue.PopInfo` | crates/ironwood/src/traffic.rs:401-451 | the packet and the queue after a pop; representation and caps kept |
| `PacketQueues.PacketQueue.ShouldDrop` | crates/ironwood/src/traffic.rs:525-556 | verdict and clock, including the case of no packet |
| `PacketQueues.PacketQueue.PopCodel` | crates/ironwood/src/traffic.rs:464-519 | the packet delivered and the state after a dequeue |
| `Dyadic.BlocksNest` | crates/yggdrasil/src/ckr.rs:507-536 | two prefix blocks are disjoint or nested |
| `Cidr.StepSizeExact` | crates/yggdrasil/src/ckr.rs:515-526 | the block chosen is the largest that is aligned and fits |
| `Cidr.StepMaximal` | crates/yggdrasil/src/ckr.rs:507-536 | every block that starts inside it and fits the range lies inside it |
| `Cidr.EmitRange` | crates/yggdrasil/src/ckr.rs:507-536 | extends the output by aligned, ascending, maximal blocks that cover exactly the range |
| `Cidr.EndExactModulo` | crates/yggdrasil/src/ckr.rs:528-534 | the end of a block is right in arithmetic modulo the size of the space, also at its top |
| `Cidr.MergeExcludes` | crates/yggdrasil/src/ckr.rs:448-469 | sorted, disjoint, non-adjacent ranges with exactly the excluded addresses |
| `Cidr.PartitionPoint` | crates/yggdrasil/src/ckr.rs:473-483 | the first range that does not end before the include |
| `Cidr.SubtractMany` | crates/yggdrasil/src/ckr.rs:473-504 | valid, ascending, disjoint, maximal blocks that cover exactly include minus excludes |
| `Cidr.CoverMinimal` | crates/yggdrasil/src/ckr.rs:473-536 | no other set of prefixes with the same addresses has fewer |
| `Cidr.CarvedIffMaximal` | crates/yggdrasil/src/ckr.rs:473-536 | the prefixes emitted are exactly the maximal ones |
| `RouteTables.MaskMatches` | crates/yggdrasil/src/ckr.rs:258-264 | equal masks mean membership in the prefix |
| `RouteTables.RouteTable.Insert` | crates/yggdrasil/src/ckr.rs:78-85 | appends a route, replacing an equal prefix, and says whether the prefix is new; the count is that of distinct prefixes |
| `RouteTables.RouteTable.Get` | crates/yggdrasil/src/ckr.rs:88-95 | the latest route of the longest matching prefix, as a scan over all routes would find it |
| `RouteTables.LatestIs` | crates/yggdrasil/src/ckr.rs:78-85 | a level holds the most recently inserted destination for each masked address |
| `RouteTables.Expand` | crates/yggdrasil/src/ckr.rs:417-431 | the union of the includes minus the union of the excludes, as exactly the maximal prefixes of what each include keeps |
| `RouteTables.BuildTable` | crates/yggdrasil/src/ckr.rs:172-187 | fails exactly when a maximal prefix of what an include keeps starts inside the overlay; otherwise an address is routed exactly when included and not excluded |
| `RouteTables.NotRefused` | crates/yggdrasil/src/ckr.rs:172-187 | a configuration that keeps no overlay address is never refused |
| `RouteTables.Resolve` | crates/yggdrasil/src/ckr.rs:220-231 | overlay addresses never resolve; others exactly when a route matches, to the longest |
| `RouteTables.ResolveConfigured` | crates/yggdrasil/src/ckr.rs:133-231 | unless refused, an address resolves to the destination exactly when included, not excluded and outside the overlay |
| `Address.ComputeAddress` | crates/yggdrasil/src/address.rs:128-168 | the bit loop computes prefix, count of leading ones of the inverted key, and the bits after the first zero |
| `Address.ComputeKey` | crates/yggdrasil/src/address.rs:61-89 | the bit loop recovers the partial key |
| `Address.RecoverThenAddress` | crates/yggdrasil/src/address.rs:61-168 | an address comes back from its partial key exactly when some key has it |
| `Address.AddressCanonical` | crates/yggdrasil/src/address.rs:128-168 | addresses of keys are of that kind, with any number of leading zeros |
| `Address.AddressRoundTrip` | crates/yggdrasil/src/address.rs:61-168 | the partial key of an address has the same address |
| `Address.TransformOfAddressKey` | crates/yggdrasil/src/address.rs:100-179 | the transform for lookups agrees on a key and on the partial key from its address |
| `Address.TransformIdempotent` | crates/yggdrasil/src/address.rs:100-179 | and on the partial key from its subnet |
| `Address.SubnetValidIffEven` | crates/yggdrasil/src/address.rs:173-189 | a derived subnet passes the validity test exactly for even prefixes |
| `Wire.EncodeUvarint` | crates/ironwood/src/wire.rs:57-70 | appends the varint |
| `Wire.UvarintSpells` | crates/ironwood/src/wire.rs:57-69 | a varint spells its value in groups of seven bits, marks all bytes but the last, and is as short as can be |
| `Wire.UvarintSize` | crates/ironwood/src/wire.rs:93-100 | the length of the encoding |
| `Wire.DecodeUvarint` | crates/ironwood/src/wire.rs:73-90 | reads one value, refusing more than 64 bits |
| `Wire.U64RoundTrip` | crates/ironwood/src/wire.rs:57-90 | decoding inverts encoding, whatever follows |
| `Wire.ReadUvarint` | crates/ironwood/src/peers.rs:321-341 | the streaming decoder agrees with the other one |
| `Wire.EncodePath` | crates/ironwood/src/wire.rs:107-112 | appends ports and a zero |
| `Wire.PathSize` | crates/ironwood/src/wire.rs:115-122 | the length of the encoding |
| `Wire.DecodePath` | crates/ironwood/src/wire.rs:125-137 | reads up to the first zero |
| `Wire.PathRoundTrip` | crates/ironwood/src/wire.rs:107-137 | a path comes back exactly when it contains no zero |
| `Wire.MessageRoundTrip` | crates/ironwood/src/wire.rs:205-459 | decoding inverts encoding for messages of every kind |
| `Wire.FrameRoundTrip` | crates/ironwood/src/wire.rs:536-591 | a frame comes back from a stream that goes on after it |
| `Wire.PacketEncoding` | crates/ironwood/src/wire.rs:420-437 | a packet's size is the length of its encoding |
| `Wire.EncodeTrafficFrame` | crates/ironwood/src/wire.rs:555-575 | the one-pass encoder writes the frame of the encoded packet |
| `BloomWire.EncodeBloom` | crates/ironwood/src/wire.rs:468-488 | two bitmaps and the other words |
| `BloomWire.BitmapsMark` | crates/ironwood/src/wire.rs:468-488 | bit by bit, which words the two bitmaps mark |
| `BloomWire.BloomWireSize` | crates/ironwood/src/wire.rs:521-529 | the length of the encoding |
| `BloomWire.DecodeBloom` | crates/ironwood/src/wire.rs:491-518 | the inverse loop, refusing short and long input |
| `BloomWire.BloomRoundTrip` | crates/ironwood/src/wire.rs:468-518 | decoding inverts encoding for every filter |

## Left out

- Tasks, channels, sockets, transports, the admin socket, configuration, TUN, and installation of system routes: input and output around the logic modelled here.
- Ed25519, BLAKE2b and Murmur3: uninterpreted functions, of which only "what a node signs verifies under its key" is used.
- The delivery queue with its count of waiting readers: the packet queue inside it is modelled, the interleaving of its two steps is not.
- The square root in CoDel's control law: the law is an arbitrary function of time and count; nothing proved depends on it.
- Text: parsing of prefixes, keys, URLs and route-list files. `RouteTables` starts from parsed includes and excludes of one address family and one key.
- The choice of link in `best_peer_for_key`, and the direct-peer shortcut of `send_traffic`, which touches none of the state modelled.
- Status and debug snapshots, logging, RTT reporting, `salsa20-simd`, `firewall.rs`, `links.rs`, `peer_timeout.rs`, `version.rs`, `ipv6rwc.rs`: they would only add easy members.
- Uniqueness of encodings: longer varints and uncompressed uniform words also decode; only decoding after encoding is the identity.
- Routers.Router.AddPeer: the filter repeated to a reconnecting key belongs to `Blooms` and is not among the actions returned here.
- Routers.Router.SendReqs: the round-trip timers of requests are not kept; latencies enter with the response.
- Routers.Router.RemovePeer: the filter repeated to the remaining links belongs to `Blooms` and is not returned here.
- Routers.Router.SelectParent: that the choice is cheapest among equal roots is claimed where doubling a cost does not wrap around 64 bits.
- Wire.MessageRoundTrip: message encoders are modelled on values, field by field, not as pushes to a buffer.
- Address.ComputeAddress: byte buffers are addressed bit by bit through a bit sequence.
- BloomFilters.BloomFilter.Add: setting a bit and the bitwise or of words are defined on the bits they spell, not by shifts; the four base hashes are parameters.
- Blooms.BloomTable.GetBloomFor: filters are values, the sets of their positions; `BloomFilters` relates these to the words of a filter.
- PacketQueues.PacketQueue.Push: the empty flow the source inserts before making room is not modelled; nothing reads it before it is filled.
- PacketQueues.PacketQueue.PopCodel: the count of drops wraps around at 32 bits.
- PeerPorts.Peers.AllocatePeer: fewer than 2^64 - 1 ports are in use.
- FairRuns.FairStretch: stretches with a fixed ring only; a flow that empties hands its place, without credit, to another.
- Multicast.LookupReachesAfter: rounds are synchronous and deliver every filter that is sent; loss on a link is not modelled.
- Pathfinders.Pathfinder.SendTraffic: the direct-peer shortcut, which touches no state here, and the routing of a packet with a path are not part of it.
- Joining.JoinsSmallestRoot: a run in which somebody else announces us is not covered; `Joining.FixOutcome` says what a pass does then.
- Pathfinders.Pathfinder.Maintain: the node's own signed path, sent in answer to lookups, is not part of the state.
