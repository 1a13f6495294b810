# WorldDat, verified

A Dafny model of the WorldDat peer: a Kademlia-style routing table, the peer protocol and the
simulator that connects many peers. `dafny verify dfyconfig.toml` checks the whole project.

| file | models |
|---|---|
| `Hash.dfy` | 256-bit hashes, XOR, and the rank computed by `leading_zeros` |
| `PeerTypes.dfy`, `Distance.dfy` | peer ids, contacts, messages, `distance_rank`; the rank against the logarithm of the distance |
| `Sequences.dfy` | filtering, flattening, truncating, counting (helpers) |
| `FlatTable.dfy`, `FlatPeerMaps.dfy` | `FlatPeerMap`: the table as a value, and the class over one flat array |
| `RingWalk.dfy` | its outward search around the ring of 256 buckets |
| `FlatHistory.dfy` | what the table holds after any history of insertions |
| `PeerMaps.dfy`, `Refinement.dfy` | `PeerMap` and its search; the two tables compared |
| `Workers.dfy` | one peer's message handling and main loop |
| `Network.dfy` | workers, queues and router as a system of atomic steps |
| `Termination.dfy`, `Knowledge.dfy`, `AddressBinding.dfy`, `Paths.dfy`, `SimulatorReach.dfy`, `StartUpOrder.dfy` | results about all runs of that system |
| `JoinQueue.dfy` | the queue of workers waiting to be registered |
| `Simulator.dfy`, `Simulation.dfy` | the simulator's loop, with worker threads running between the router's steps; the simulation from start to finish |

Modelling decisions:

- A peer id is any 32-byte value and a socket address is a plain value. Hash maps iterate in an order of
  their own: an `orders` value gives one listing per bucket, each entry once, and every result holds for
  all such orders. Channels are FIFO sequences. Worker threads are interleaved atomic steps, so a run of
  the network is any sequence of enabled steps. The simulator class takes a schedule of its worker threads,
  consulted between any two steps of the router. Clock readings are an input.
- The buckets are specified by the plain map they represent (`BucketsOf`), the flat array by the rows it
  is cut into.
- Where code and comments disagree the code is modelled: `leading_zeros` is governed by the last nonzero
  byte (src/hash.rs:156-163), so `distance_rank` is the promised logarithm of the distance only under the
  condition of `RankIsFloorLogIff` (src/types.rs:43-48); eviction always takes slot 0 (src/types.rs:387-388); the "behind" guard
  of the `PeerMap` search only ever admits bucket 0 (src/types.rs:216-220); the flat search visits every
  bucket but the target's twice if it runs to the end (src/types.rs:419-440); a new simulated worker finds
  its start-up messages in its own inbox (src/bin/sim.rs:92-97).

## Model

| member | source | states |
|---|---|---|
| `Hash.BitXor` | src/hash.rs:60-68 | the array-filling loop sets exactly the bits in which the two hashes differ |
| `Hash.XorBits` | src/hash.rs:57-69 | a bit is set in the exclusive or exactly when it is set in one of the two |
| `Hash.LeadingZeros` | src/hash.rs:150-165 | the overwriting loop returns the rank given by the last nonzero byte, below 256 |
| `Hash.RankInBits` | src/hash.rs:150-165 | for a nonzero hash the rank is one less (floored at 0) than the position of the first set bit of the last byte that has a set bit |
| `Hash.RankMeetsDocumentIff` | src/hash.rs:146-165 | the rank is never below the documented number of leading zero bits minus one, and equals it exactly when at most one byte is nonzero |
| `Hash.RankOvershoots` | src/hash.rs:146-165 | the hash 0x80 0x01 0 0 ... has documented value 0 and rank 14 |
| `PeerTypes.ComputeDistanceRank` | src/types.rs:45-48 | the XOR and rank loops together compute `DistanceRank` |
| `PeerTypes.DistanceRankInBits` | src/types.rs:45-48 | the bucket of two different ids is one less (floored at 0) than the first bit in which they differ inside the last byte in which they differ |
| `PeerTypes.SingleBitRank` | src/types.rs:481-491 | ids that differ in bit n only have rank n - 1 (floored at 0) |
| `PeerTypes.DistanceRankLaws` | src/types.rs:43-48 | rank is symmetric, unchanged when both ids are XORed with a third, and 255 exactly for equal ids |
| `Distance.RankIsFloorLogIff` | src/types.rs:43-48 | the rank of two different ids is the documented floor of the base-2 logarithm of their distance exactly when p + q = 256, with q the first set bit of the distance and p the first set bit of its last nonzero byte |
| `Distance.FarDistanceRanksZero` | src/types.rs:43-48 | an input that fails: distance 0x80 0 0 ... has rank 0, not its logarithm |
| `Distance.NearerRankedLower` | src/types.rs:43-48 | nearness and rank can disagree: 0x01 0 0 ... is nearer than 0x80 0x01 0 ... and has rank 6 against 14 |
| `Distance.NearerRankedHigherIff` | src/types.rs:43-48 | every nearer distance is ranked at least as high as a given one exactly when the given one has at most one nonzero byte |
| `FlatTable.ScanKeepsDistinctIff` | src/types.rs:344-376 | inserting by scanning to the first empty slot keeps ids distinct exactly when the id does not sit behind that slot, so the no-holes invariant is what makes it safe |
| `FlatTable.ScanOnPacked` | src/types.rs:344-376 | without holes the scan keeps the bucket without holes and its ids distinct, and is: update in place, else append, else overwrite slot 0 |
| `FlatTable.StoredIdsDistinct` | src/types.rs:339-340 | ids are distinct across the whole table, not only within a bucket |
| `FlatPeerMaps.FlatInvariant` | src/types.rs:280-304 | of the flat array: length 256 * bucket size, every contact in the bucket of its rank, no hole before it in its bucket, all ids distinct |
| `FlatPeerMaps.FilledIsContents` | src/types.rs:281-282 | the filled slots read left to right are the buckets in order, so the count of filled slots is the number of contacts |
| `FlatPeerMaps.FlatPeerMap.constructor` | src/types.rs:296-304 | a new table is valid and empty, for any bucket size |
| `FlatPeerMaps.FlatPeerMap.Insert` | src/types.rs:341-376 | on any valid table with bucket size at least 1: stays valid, contents become the table insertion, `count` is the number of contacts held, the history grows by the contact; the full-bucket assertions hold whenever they are reached |
| `FlatPeerMaps.FlatPeerMap.HoldsClosedForm` | src/types.rs:341-389 | in every valid state each bucket of the object is the closed form of what was inserted into the object |
| `FlatPeerMaps.FlatPeerMap.Contains` | src/types.rs:392-399 | finds the contact with the id if one is stored anywhere in the table, and it is the only one |
| `FlatPeerMaps.FlatPeerMap.FindClosestPeers` | src/types.rs:405-444 | the early-exit loop and truncation return the first `count` entries of the complete 255-width walk, whose contents and order the rows on `RingWalk` describe |
| `FlatPeerMaps.FlatPeerMap.Lookup` | src/types.rs:448-454 | succeeds exactly for stored ids, otherwise answers with the closest contacts; the count assertion cannot fail |
| `RingWalk.RingSteps` | src/types.rs:423-432 | `wrapping_add` and `wrapping_sub` modulo 256 are steps around the ring, the 64-bit wrap is invisible |
| `RingWalk.EarlyExit` | src/types.rs:408-443 | stopping when enough contacts are listed, then truncating, equals truncating the full walk |
| `RingWalk.ClosestMonotone` | src/types.rs:441-443 | the answer for a smaller count is a prefix of the answer for a larger one |
| `RingWalk.FullWalkShape` | src/types.rs:408-440 | the full walk lists every contact once, then every contact outside the target bucket once more; length 2N - T |
| `RingWalk.ClosestComplete` | src/types.rs:401-444 | the first N entries list each stored contact exactly once; an answer has exactly min(count, N) distinct ids and length exactly min(count, 2N - T) |
| `RingWalk.ClosestNearest` | src/types.rs:412-443 | if a stored contact is missing, no answered contact sits in a bucket farther around the ring from the target's bucket |
| `RingWalk.AnswerOrder` | src/types.rs:419-440 | the order of every answer: a contact has before it all stored ones that are nearer around the ring, or as near but ahead where it is behind, or in front of it in its bucket; so none of those is missing when it is answered |
| `FlatHistory.ReplayByBucket` | src/types.rs:341-376 | a bucket depends only on the insertions whose rank is the bucket's |
| `FlatHistory.BucketClosedForm` | src/types.rs:341-389 | after any history, slots 1.. hold the 2nd to k-th distinct ids in arrival order, slot 0 the latest id not among them, each with its last address |
| `FlatHistory.HistoryClosedForm` | src/types.rs:341-389 | the closed form for every bucket of the table after every history |
| `PeerMaps.InsertRepresents` | src/types.rs:189-199 | inserting into the bucket of its rank is inserting into the plain map, last writer winning |
| `PeerMaps.TotalSizeIsKnown` | src/types.rs:256-260 | the sum of bucket sizes is the number of peers known |
| `PeerMaps.PeerMap.Insert` | src/types.rs:189-199 | changes the one bucket; whatever map was represented, the updated map is represented afterwards |
| `PeerMaps.PeerMap.Contains` | src/types.rs:235-238 | reports exactly the represented map |
| `PeerMaps.PeerMap.Count` | src/types.rs:256-260 | the number of ids in the represented map |
| `PeerMaps.SearchOutward` | src/types.rs:206-231 | the loop with early exit and `take` returns the first entries of the complete search |
| `PeerMaps.SearchSound` | src/types.rs:203-232 | answers name only known peers, none of a rank strictly between 0 and the target's |
| `PeerMaps.SearchListsKnown` | src/types.rs:203-226 | after width w exactly the known peers of rank target..target+w, and of rank 0 once w exceeds the target, are listed |
| `PeerMaps.ShortSearchCompleteIff` | src/types.rs:201-232 | an answer shorter than the bucket size names a known peer exactly when its rank is at least the target's, or is 0 with a target below 255 |
| `PeerMaps.SearchRepeats` | src/types.rs:206-226 | how often each known peer is listed after each width: once for ranks from the target up, and anew at every width beyond the target for rank 0 |
| `PeerMaps.SearchLength` | src/types.rs:206-226 | the exact length of the listing after each width |
| `PeerMaps.AnswerRepeatsIff` | src/types.rs:201-232 | an answer is free of repeats exactly when bucket 0 is empty, or is listed at most once, or enough peers are listed before its second listing |
| `PeerMaps.SearchOrder` | src/types.rs:206-226 | at which positions the complete search lists each bucket, every time it does |
| `PeerMaps.SearchOrdered` | src/types.rs:203-232 | in an answer every peer has those before it whose rank has an earlier turn: ranks from the target up, rank 0 in front of the first rank above twice the target |
| `PeerMaps.SearchIsNeighbourList` | src/types.rs:203-232 | of the map alone: an answer names known peers of admissible rank, has the smaller of 16 and the full length, is complete if shorter than 16, and is in that order |
| `PeerMaps.PeerMap.Lookup` | src/types.rs:242-252 | the address if known, otherwise the search result |
| `Refinement.FlatRefinesMap` | src/types.rs:341-399 | after any common history, whatever `FlatPeerMap` reports is what `PeerMap` reports |
| `Refinement.TablesAgreeIff` | src/types.rs:189-199 | the two agree on every id exactly when no bucket has received more distinct ids than it has slots |
| `Workers.WorkerState.Start` | src/worker.rs:108-129 | a fresh worker knows exactly itself and has sent nothing |
| `Workers.WorkerState.Handle` | src/worker.rs:155-197 | one message: the map and the outgoing queue change as `Learn` and `Replies` say; a FindPeer gets exactly one answer, to the sender and for its id: the address known for it, or else a neighbour list as above |
| `Workers.FindIsAnswered` | src/worker.rs:181-194 | the same of the reply function, which the network's workers use |
| `Workers.KnownIsLastPong` | src/worker.rs:111-180 | an id is known exactly if it is the worker's own or some Pong handled named it, and its address is that of the last such Pong, or the worker's own |
| `Workers.WorkerState.Run` | src/worker.rs:139-205 | the loop handles exactly the messages before the first Quit, in order |
| `Workers.MapIsFold` | src/worker.rs:111-180 | the map is the worker's own binding overwritten by the Pongs handled, last writer winning |
| `Workers.KnownGrows` | src/worker.rs:174-180 | known ids are never lost |
| `Workers.ReplyConservation` | src/worker.rs:161-196 | to every correspondent: Pongs sent equal Pings handled, responses equal FindPeers, Pings equal Pings from ids unknown at that moment, and no FindPeer is sent |
| `Network.RunKeepsRouterOk` | src/bin/sim.rs:126-142 | in every run only registered workers' messages reach the router |
| `Network.RoutedIfRegistered` | src/bin/sim.rs:131-141 | any message is appended to its destination's inbox exactly if the destination is registered; a worker that is started but not registered gets nothing, and nothing else changes but the router's hands |
| `Network.StuckIffDrained` | src/bin/sim.rs:124-142 | in every state no step of work is possible exactly when the router's hands, all inboxes and all registered outboxes are empty |
| `Termination.RepliesCost` | src/worker.rs:162-194 | the replies to a message weigh less than the message |
| `Termination.HandleLowers` | src/worker.rs:155-197 | handling any message lowers the potential |
| `Termination.CollectLowers` | src/bin/sim.rs:126-130 | collecting lowers the potential |
| `Termination.DeliverLowers` | src/bin/sim.rs:131-138 | delivering lowers the potential; the FIFO path keeps a ping-back behind its Pong |
| `Termination.DropLowers` | src/bin/sim.rs:139-141 | dropping a message to an unknown address lowers the potential |
| `Termination.WorkIsBounded` | src/worker.rs:139-205 | in any run from any state in which the router holds only registered workers' messages, steps of work are at most the potential plus 30 per injected message and 20 per started worker, whatever is injected from whatever source |
| `Termination.WorkFromEmpty` | src/bin/sim.rs:102-146 | the same from an empty network |
| `Termination.NetworkTerminates` | src/bin/sim.rs:102-146 | from any state in which the router holds only registered workers' messages the network left alone takes at most `Potential` steps; it is stuck exactly when it is drained, which with everybody registered is when every queue is empty |
| `Termination.ComesToRest` | src/bin/sim.rs:124-142 | every run can be continued by work until the network is drained |
| `Knowledge.TransitStep` | src/bin/sim.rs:126-142 | a message to a registered worker stays on its way until that worker handles it |
| `Knowledge.MutualKnowledge` | src/worker.rs:162-180 | once B has handled a truthful Ping from registered A, at any later rest A knows B's id and B knows A's |
| `Knowledge.MutualContact` | src/worker.rs:162-180 | if besides every injected Pong was truthful and ids are distinct, each then holds the other's id under the other's true address |
| `Knowledge.PingConnects` | src/bin/sim.rs:124-142 | one truthful Ping delivered in any state with all workers registered: at most 30 steps beyond the potential follow, and once none is possible every queue is empty and both ends know each other |
| `AddressBinding.RepliesTruthful` | src/worker.rs:162-194 | a worker whose map is true answers truthfully, neighbour lists included |
| `AddressBinding.InjectKeepsSoundIff` | src/worker.rs:82-89 | an injected message keeps all addresses true exactly when it is truthful itself; Pings and FindPeers always are |
| `AddressBinding.ForgedPongIsBelieved` | src/worker.rs:174-180 | a forged Pong puts a false address in the map as soon as it is handled |
| `AddressBinding.AddressesAreTrueIff` | src/worker.rs:161-196 | every address in any map, Pong, found reply or neighbour list belongs to a worker with that id in every state of a run exactly when every injected message is truthful; leaving responses aside, exactly when every injected Pong is |
| `AddressBinding.MapsAreTrueIff` | src/worker.rs:174-180 | every address in every map is true in every state of a run exactly when every Pong is true at the moment it is handled |
| `AddressBinding.RequestsAreHonest` | src/worker.rs:82-89 | Pings and FindPeers may be injected freely, whatever they claim |
| `Paths.RouterKeepsPath` | src/bin/sim.rs:124-142 | while only the router works, nothing on its way to a registered worker is lost, repeated or overtaken |
| `Paths.PathConserved` | src/bin/sim.rs:124-142 | over any stretch of work, what one worker handled from another and what is still underway are, in order, what was underway and what the other replied |
| `Paths.Arrival` | src/bin/sim.rs:124-142 | if an outbox was found empty and the router's hands are empty in the end, everything that was underway on a path has been handled or is in the inbox, in order |
| `Paths.HandleMovesPath` | src/worker.rs:155-197 | handling takes the first message off its path and appends the replies to the paths back |
| `SimulatorReach.OthersKnowOnlyThemselves` | src/bin/sim.rs:87-142 | in every state of every run in which all workers are started with one bootstrap address and nothing is injected, whatever the order of registration: every other worker's map is its own binding, the bootstrap worker's holds true addresses of registered workers and its own |
| `SimulatorReach.ReportConserved` | src/bin/sim.rs:87-142 | in every such state each worker's one report, and likewise its one found answer, is pending, or was handled, or was dropped, exactly one of the three |
| `StartUpOrder.ReportsInOrder` | src/bin/sim.rs:92-97 | in every such state what is on its way or still to come from a worker to the bootstrap address is its Pong and then the answer that it found itself, less those already handled or dropped |
| `SimulatorReach.KnownUnlessDropped` | src/bin/sim.rs:131-141 | at rest, with distinct ids, the bootstrap worker knows another worker exactly when that worker's report was never routed while the bootstrap address was unregistered |
| `SimulatorReach.KnownOrPending` | src/bin/sim.rs:87-142 | if the bootstrap worker is registered first, in every state it knows each other worker or that worker's report is pending |
| `SimulatorReach.SimulatorReaches` | src/bin/sim.rs:87-142 | if the bootstrap worker is registered first, at rest it knows every worker under its true address and nobody else |
| `SimulatorReach.LateBootstrapMissesReport` | src/bin/sim.rs:131-141 | a run that ends at rest with both workers started and registered and the bootstrap worker not knowing the other |
| `JoinQueue.SortSorts` | src/bin/sim.rs:106-107 | the sort is descending by delay, keeps every joiner, and keeps ties in order |
| `JoinQueue.JoinsInOrder` | src/bin/sim.rs:108-123 | joins happen in non-decreasing delay order, nobody overtakes a shorter delay, waiting plus joined is the original queue |
| `JoinQueue.JoinsWhenDue` | src/bin/sim.rs:108-123 | every joiner is admitted at exactly the first turn after the previous join whose reading exceeds its delay, and whoever waits next was not due since |
| `JoinQueue.ReadingsOfTurns` | src/bin/sim.rs:108-123 | the readings logged for the joins are the clock's readings at those turns |
| `JoinQueue.FirstToJoinIff` | src/bin/sim.rs:106-112 | exactly the worker with the least delay, the last added among equals, is the first to join |
| `JoinQueue.EveryoneJoins` | src/bin/sim.rs:108-123 | every reading beyond all delays admits somebody or finds everybody joined, so as many of them as there are joiners empty the queue |
| `JoinQueue.JoinCountIff` | src/bin/sim.rs:108-123 | at least m have joined exactly when the readings allow m joins at all, one per turn, in order, nobody too early; hence exactly when the queue empties |
| `Simulator.WorkerSim.AddNewWorker` | src/bin/sim.rs:87-100 | starts a worker that knows itself and, with a bootstrap address, has a Ping and then a FindPeer for its own id in its own inbox, and queues it for joining; nothing else changes |
| `Simulator.WorkerSim.JoinDue` | src/bin/sim.rs:110-123 | registers the next joiner if its delay has passed and logs the reading, else leaves everything as it was; exactly the logged joiners are registered, each once |
| `Simulator.WorkerSim.WorkerHandles` | src/worker.rs:139-205 | one worker handles the letter at the head of its inbox, as one step of the network's run |
| `Simulator.WorkerSim.WorkersAct` | src/worker.rs:139-205 | every worker has handled one letter for each time the next batch names it, as long as it had one |
| `Simulator.WorkerSim.CollectAll` | src/bin/sim.rs:126-130 | however busy the workers, the loop ends, with the worker's outbox empty |
| `Simulator.WorkerSim.RouteRound` | src/bin/sim.rs:124-142 | the collecting and draining loops, interleaved with the workers, extend the run by steps of work only, find every registered outbox empty at some moment and end with the router's hands empty; everything that was underway between registered workers when the round began has been handled or is in the inbox, in order, and with idle workers exactly that is in the inbox |
| `Simulator.WorkerSim.Turn` | src/bin/sim.rs:108-145 | a turn whose first batch names every worker does a step or ends with nothing left to do; with nobody waiting and nothing to do it does nothing; it uses up at most one batch per step and n + 2 more |
| `Simulator.WorkerSim.Run` | src/bin/sim.rs:102-146 | for any clock readings and worker schedule: the queue, the joins and the readings that admitted them in closed form; exactly those who joined are registered; the run is extended by work and registrations only; while batches naming everybody last, the network is at rest or every turn since all joined has done a step |
| `Simulation.StepsBounded` | src/bin/sim.rs:87-146 | every run of the simulator has at most 22 steps for each worker |
| `Simulation.PlentyExists` | src/bin/sim.rs:102-146 | for every choice of workers there are clock readings and schedules under which the simulation comes to rest |
| `Simulation.Simulate` | src/bin/sim.rs:156-167 | the whole simulation, for all workers, delays, readings and schedules: those who are due are registered, no worker but the bootstrap worker learns anything, and if that one joins first, then each worker is known to it or has its report pending, and at rest it knows every worker at its true address and nobody else; with more than 23 readings per worker beyond all delays and a long enough schedule naming everybody it does come to rest, with everybody registered |

## Left out

- `PeerMaps.TotalSizeIsKnown`: counts without bound, the source sums in 32 bits.
- `FlatPeerMaps.FlatPeerMap.Insert`: bucket size 0 is excluded, because the source then indexes an empty bucket.
- `Simulator.WorkerSim.AddNewWorker`: requires an address not in use; the source would start a second worker and replace the first when it joins.
- `Simulation.Simulate`: likewise requires distinct addresses.
- src/bin/peer.rs, src/peer.rs, src/peer2.rs, src/proto.rs: QUIC and TLS plumbing, unused networking code and type declarations.
- Blake2 hashing, base64, serialisation and random ids: foreign library calls; ids are arbitrary.
- Closed channels, thread join failures, logging, sleeping and command-line options.
- Quit in the network: the simulator never reaches it; `Workers.WorkerState.Run` covers it for one worker.
- Orderings of hashes and contacts (`cmp`): nothing modelled here depends on them.
- XOR-nearest ordering of search results: the code orders by bucket only.
