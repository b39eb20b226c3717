# Verified model of the COVERED cooperative edge cache

COVERED is a cooperative edge-caching system. Edge nodes answer clients from their own caches, redirect misses to
other edges that hold a copy, and decide together where to place new copies. This project models, in Dafny, the
single-node simulator that drives N edge caches through global tables, the cache each edge keeps, and the control
protocol that drives a distributed benchmark; and it proves what the program's own assertions rely on.

Three stacks build on `Types` and, where the program keeps maps of iterators, on `Iterators`.

* **Edge cache.** `Lru` specifies the BestGuess cache; `LocalCache` is the object the program keeps (list, iterator map,
  byte counter, logical clock). `Wrapper` specifies the cache wrapper (validity flags, beacon edges) and its histories;
  `CacheWrapper` is the object. `Recency` tells victims from events. `Snapshot` is dump and load.
* **Simulator.** `Directory` is the global directory. `BestGuessSim`, `BestGuessRuns`, `BestGuessEffects` and
  `BestGuessSimulator` are the simulator with BestGuess: specification, theorems over runs, what a request does to every
  edge, and the program's methods on the edge objects. `PopularityIndex`, `UncachedIndex`, `Victims`, `EvictionCost`,
  `Placement` and `Nearest` are the parts of COVERED's placement, and `HitValue` is what they calculate; `CoveredNode` is
  COVERED's local cache as a contract; `CoveredSim`, `CoveredRuns` and `CoveredSimulator` are the simulator with COVERED.
  `CoveredMargins` adds the free bytes on record, `CoveredOutcomes` says how requests and runs end, `CoveredAccess` what a
  lookup does, `CoveredIndex` what the popularity tables hold, `CoveredPlacement` which placement is chosen,
  `CoveredCopies` when the copies of an object agree, and `CoveredExamples` holds three concrete runs.
* **Control protocol.** `Protocol` is evaluator, nodes and network as a state machine, `ProtocolRuns` what every run
  keeps, `ProtocolEffects` what requests do to clients, `Schedule` the rounds an evaluation is to hold, `Evaluator` the
  evaluator's rounds and evaluation loops, `ClientWrapper` the client's request handlers.

Check the whole project with `dafny verify dfyconfig.toml`.

## Main results

* BestGuess, over every run: the directory lists exactly the caching edges, no key is cached twice, every edge is
  within capacity, the victim-time index is true, and no assertion or exit is reached (`BestGuessRuns.RunTheorem`).
  What each request does to the list of every edge is given in full (`BestGuessEffects.HitEffect`, `MissEffect`,
  `WriteEffect`); a cached key always has the value of the last GET of it that missed everywhere
  (`BestGuessEffects.RunShows`).
* COVERED, over every run without deleted values: victim records equal each edge's current least rewarding objects and
  its current free bytes, neighbour flags are set exactly where another copy exists, cached and uncached views are
  disjoint, the directory is coherent and every edge is within capacity. The early return for an edge that already caches
  the object and the branch for an edge without a record are never taken. A run fails exactly when it reaches a write to
  a key the directory does not know, exits exactly when it reaches a placement search with a short edge, and otherwise
  goes through (`CoveredOutcomes.RunTheorem`).
* COVERED, over every run, deleted values included: all copies of every key agree after each request exactly if no write
  deploys its value while some edge holds the key with another (`CoveredCopies.RunAgreesIff`). Copies agree exactly if
  the clients of all edges get the same answer (`CoveredCopies.SameAnswersIff`), and no request changes a copy in place
  (`CoveredCopies.FinishEffect`).
* COVERED, over every run: the popularity tables hold for each object and edge what that edge last reported, unless it
  has reported the object untracked or admitted it since (`CoveredIndex.IndexIsHistory`).
* The eviction cost is the value that goes with the selected copies: local weight where a copy is, cooperative weight
  where another copy serves, nothing otherwise (`HitValue.CostIsLoss`); and it is the same whichever way the placement set
  and the map of victims are walked (`EvictionCost.CostIsOrderFree`). The placement is the shortest prefix of the most
  popular edges that makes everything worth most (`CoveredPlacement.PlaceIsBest`), and the victims it plans with make
  exactly enough room (`CoveredPlacement.VictimsMakeRoom`).
* The wrapper refines a map of last writes, and an eviction takes the cached key whose last use is the oldest, told from
  the observed events alone (`Recency.VictimIsLeastRecent`). A snapshot, loaded, answers every later operation as what
  was dumped would; sizes for capacity agree exactly when no uncached key has a flag (`Snapshot.IndistinguishableIff`).
* A control round is a barrier under any loss, repetition, delay or reordering; between rounds slot numbers agree and all
  clients are in the warmup or none is (`ProtocolEffects.WarmupAgrees`). An evaluation holds exactly the rounds its timers
  call for, up to the first in which not all nodes answer (`Evaluator.Evaluation.StartEvaluation`).

## Where the code falls short

Each of these is a lemma, with the exact condition where there is one.

* Admitting a cached key keeps its old value but sets its flag, so a later get can be stale (`Wrapper.AdmitFreshIff`,
  `Wrapper.StaleAdmission`).
* A snapshot forgets the flags of uncached keys, which count for capacity (`Snapshot.SizeIff`, `Snapshot.FlagForgotten`),
  and loading starts the clock anew, so victim times survive only an empty cache (`Snapshot.VictimTimeIff`).
* With BestGuess a write never changes any cached value and places none, so later GETs return the value from before
  (`BestGuessRuns.WriteIsInvisible`).
* With COVERED a write changes no copy in place either, but it may place its value as a new copy while other edges keep
  the old one; GETs never do this (`CoveredCopies.WriteAgreesIff`, `CoveredCopies.GetAgrees`,
  `CoveredExamples.CopiesDiffer`).
* COVERED's placement search fetches victims for the whole object instead of the bytes required, so it exits at edges
  that could make room (`CoveredOutcomes.PlaceExhaustedIff`, `Victims.FetchAsksTooMuch`,
  `CoveredExamples.SearchAsksTooMuch`).
* Weight differences are cut off at zero, so where the cooperative weight exceeds the local one the eviction cost misses
  the value that goes (`HitValue.ExcessIff`, `HitValue.LossNotCost`).
* In COVERED a deleted value skips eviction and with it the first victim record; the following margin update then fails
  its assertion (`CoveredRuns.ValidateKeeps`, `CoveredOutcomes.DeletedFirst`).
* A deleted value can also leave an edge over capacity; a later write there may then evict the last copy of its own key
  and look it up again (`CoveredRuns.WriteTheorem`, `CoveredExamples.LastCopyLost`).
* A top-k bound of zero yields one entry and fails the size assertion (`PopularityIndex.TopKSize`).
* A repeated start or slot-switch request ends the client, and a finish is answered once only, so retransmission never
  makes up for a lost reply of these rounds (`ProtocolRuns.CrashIff`, `ProtocolRuns.NoSecondReply`).
* A repeated rule update is applied again, so clients may be ahead of the evaluator's rule rounds
  (`ProtocolRuns.RulesCount`, `ProtocolRuns.RulesTwice`).

## Assumptions

* Popularities, weights and rewards are reals, popularities not negative; byte counts, slots and sequence numbers are
  unbounded naturals.
* Each operation of a cache or table is atomic.
* A value is a deleted mark and a size. A deleted value has no content.
* BestGuess: an item's bytes are key, value and constants; each edge's remaining metadata is a fixed overhead no larger
  than its capacity. Writes go to keys the directory knows.
* COVERED: where rewards rank an object, its popularities, what is tracked, metadata sizes, the random redirection
  target and the order of the placement set are arbitrary inputs of each request (`CoveredSim.Policy`). Of the local
  cache only this is fixed: a key is ranked iff cached, a cached key is not tracked, a key whose value is too large is
  not tracked, an access or admission moves the accessed key only, and it reports an effect on the victims iff that key
  is among the first ranks before or after. Accesses and flags do not change the bytes of metadata, since these count
  cached, tracked and grouped keys, and an eviction does not add any. All edges have the same capacity. That metadata
  alone stays within the capacity is assumed where a result says that a request goes through.
* The network delivers any message that was sent, any number of times, at any later time, or never.

## Model

| member | source | states |
|---|---|---|
| `LocalCache.LinkedErase` | src/cache/bestguess_local_cache.c:223-252 | unlinking the node an iterator stands on keeps list and lookup map in agreement: unique nodes, every key on its own node, no dangling iterator |
| `LocalCache.LinkedPush` | src/cache/bestguess_local_cache.c:160-201 | linking a fresh node at the front for an uncached key keeps that agreement |
| `LocalCache.IteratorOnItsItem` | src/cache/bestguess_local_cache.c:54-84 | the iterator the map holds for a key is the node of that key's item |
| `LocalCache.Unlink` | src/cache/bestguess_local_cache.c:223-252 | following the map's iterator removes exactly the key's item, wherever it is in the list |
| `LocalCache.Relink` | src/cache/bestguess_local_cache.c:54-84 | the key's item moves to the front and everything else keeps its order |
| `LocalCache.Resize` | src/cache/bestguess_local_cache.c:120-136 | the byte counter after a value is replaced; the clamped subtraction never underflows |
| `LocalCache.BestGuessLocalCache.GetLocalCache` | src/cache/bestguess_local_cache.c:54-84 | a get refines the LRU specification: hit iff cached, item restamped at the front, clock advances on misses too; byte counter and map stay exact |
| `LocalCache.BestGuessLocalCache.UpdateLocalCache` | src/cache/bestguess_local_cache.c:93-147 | an update refines the specification and succeeds iff cached and of valid size; an oversized value leaves the cache and the clock alone |
| `LocalCache.BestGuessLocalCache.AdmitLocalCache` | src/cache/bestguess_local_cache.c:160-201 | admission refines the specification: a cached key keeps its old value and still reports success |
| `LocalCache.BestGuessLocalCache.GetVictimKey` | src/cache/bestguess_local_cache.c:203-221 | the victim is the list tail; none iff the cache is empty |
| `LocalCache.BestGuessLocalCache.EvictWithGivenKey` | src/cache/bestguess_local_cache.c:223-252 | eviction removes that item only, subtracts its exact bytes, and never hands the evicted value out |
| `LocalCache.BestGuessLocalCache.GetLocalVictimVtime` | src/cache/bestguess_local_cache.c:333-344 | the tail's stamp, zero for an empty cache |
| `LocalCache.BestGuessLocalCache.GetPlacementEdgeIdx` | src/cache/bestguess_local_cache.c:346-376 | a true minimum over this edge and all recorded neighbours, ties to this edge; a chosen neighbour leaves the record |
| `Lru.TouchWf` | src/cache/bestguess_local_cache.c:54-84 | restamping keeps stamps strictly decreasing from front to back and below the clock, keys unique, and the key set unchanged |
| `Lru.TouchOthers` | src/cache/bestguess_local_cache.c:54-84 | an access changes no other key's value or presence |
| `Lru.TouchBytes` | src/cache/bestguess_local_cache.c:54-147 | the bytes of the list after an access differ by the value sizes only |
| `Lru.EvictTail` | src/cache/bestguess_local_cache.c:203-252 | evicting the victim leaves the list without its last item |
| `Lru.BytesWithout` | src/cache/bestguess_local_cache.c:223-252 | removing a key removes exactly its item and lookup-entry bytes |
| `Wrapper.StepInv` | src/cache/cache_wrapper.c:138-433 | every operation keeps: each cached key has a validity flag, only cached keys have a beacon edge, all cached sizes are valid |
| `Wrapper.HistoryInv` | src/cache/cache_wrapper.c:347-433 | in every history of interleaved operations those invariants hold |
| `Wrapper.NoFatalExit` | src/cache/cache_wrapper.c:791-858 | in every history an operation exits iff it is an eviction on an empty cache: the victim-not-found exits are unreachable |
| `Wrapper.EvictInv` | src/cache/cache_wrapper.c:791-858 | an eviction fails iff the cache is empty |
| `Wrapper.StepVisible` | src/cache/cache_wrapper.c:138-391 | what a get would return changes exactly as the observed event says, for every key |
| `Wrapper.NoStaleRead` | src/cache/cache_wrapper.c:138-284 | refinement to a map of last writes: a get anywhere in a history returns a value iff it came from the last effective admission or update with no later invalidation, eviction or failed update |
| `Wrapper.AdmitFreshIff` | src/cache/cache_wrapper.c:347-391 | admission is right for the next get iff the key was uncached, is left invalid, or already held that value |
| `Wrapper.StaleAdmission` | src/cache/cache_wrapper.c:347-391 | a concrete history that reads a stale value after admitting a cached key |
| `Wrapper.HistoryMaps` | src/cache/cache_wrapper.c:347-433 | in every history the flag and the beacon of every key, cached or not, are what the operations and their events say; a recorded beacon is kept until eviction |
| `Recency.HistoryFollows` | src/cache/bestguess_local_cache.c:54-252 | in every history the list holds the keys the events say are cached, in the order of their last uses |
| `Recency.VictimIsLeastRecent` | src/cache/bestguess_local_cache.c:203-221 | over every history, reading events only: an eviction takes the cached key whose last get, successful update or admission is the oldest, and finds none iff no key is cached |
| `CacheWrapper.Wrapper.Get` | src/cache/cache_wrapper.c:138-158 | the wrapper object's get refines the specification; a hit needs a cached and valid key |
| `CacheWrapper.Wrapper.Update` | src/cache/cache_wrapper.c:184-221 | validates on success and invalidates on failure, for cached keys only |
| `CacheWrapper.Wrapper.UpdateIfInvalidForGetrsp` | src/cache/cache_wrapper.c:232-284 | writes only where the key is cached and invalid; its assertions hold |
| `CacheWrapper.Wrapper.Admit` | src/cache/cache_wrapper.c:347-391 | flag and beacon follow the local cache; an existing beacon entry is kept |
| `CacheWrapper.Wrapper.Evict` | src/cache/cache_wrapper.c:394-433 | evicts the LRU tail with its flag and beacon; none iff empty; the reported value is always the deleted value |
| `CacheWrapper.Wrapper.GetSizeForCapacity` | src/cache/cache_wrapper.c:530-542 | local cache bytes plus one flag per validity entry |
| `CacheWrapper.Wrapper.InvalidateKey` | src/cache/cache_wrapper.c:120-134 | clears one flag and nothing else |
| `Snapshot.DumpContents` | src/cache/cache_wrapper.c:546-626 | dumping changes no content, flag or beacon, and records exactly what each cached key holds |
| `Snapshot.DumpFront` | src/cache/cache_wrapper.c:546-626 | the dump's own gets leave the list in reverse dump order |
| `Snapshot.LoadIntoEmpty` | src/cache/cache_wrapper.c:628-707 | loading distinct records of valid size into an empty wrapper yields exactly these, newest first |
| `Snapshot.RoundTrip` | src/cache/cache_wrapper.c:546-707 | dump in any iteration order, load into an empty wrapper of equal capacity: same keys, values, flags, beacons, and the LRU order the dump left behind |
| `Snapshot.LoadedSameAnswers` | src/cache/cache_wrapper.c:546-707 | every later get, update, invalidation, admission and eviction gives the same answer on both wrappers, so both evict the same victims in the same order; with size queries too if no uncached key had a flag |
| `Snapshot.IndistinguishableIff` | src/cache/cache_wrapper.c:530-707 | all sequences of operations, size queries included, give the same answers iff no uncached key has a flag |
| `Snapshot.SizeIff` | src/cache/cache_wrapper.c:530-542 | dumped and loaded wrapper have the same size for capacity iff no uncached key has a flag |
| `Snapshot.FlagForgotten` | src/cache/cache_wrapper.c:743-756 | a concrete wrapper whose size is lost: one invalidated uncached key |
| `Snapshot.VictimTimeIff` | src/cache/bestguess_local_cache.c:333-344 | loading starts the clock anew: the victim time survives iff nothing is cached |
| `Snapshot.SameRun` | src/cache/cache_wrapper.c:138-542 | wrappers equal up to stamps and flags of uncached keys answer every history alike, with size queries if those flags agree too; victim times are not compared |
| `CacheWrapper.Wrapper.DumpSnapshot` | src/cache/cache_wrapper.c:546-626 | the dump loop refines the specification |
| `CacheWrapper.Wrapper.LoadSnapshot` | src/cache/cache_wrapper.c:628-707 | the load loop refines the specification |
| `Directory.CoherentAdd` | src/single_node_simulator.c:568-579 | adding an edge that newly caches a key keeps the directory in agreement with the caches |
| `Directory.CoherentRemoveAll` | src/single_node_simulator.c:1781-1785 | taking an edge out of the lists of its victims keeps the agreement; empty lists disappear |
| `Directory.RemoveAllOrder` | src/single_node_simulator.c:1781-1785 | the hash map's order of victims does not matter |
| `Directory.PerkeyGlobalCachedObjinfo.AddEdgeNode` | src/single_node_simulator.c:568-579 | appends; the list stays duplicate-free iff the edge was not in it |
| `Directory.PerkeyGlobalCachedObjinfo.RemoveEdgeNode` | src/single_node_simulator.c:581-604 | erases the edge's entry and the key with its last edge |
| `Directory.PerkeyGlobalCachedObjinfo.IsNeighborCached` | src/single_node_simulator.c:540-553 | true iff some other edge is listed; needs a known key, as the lookup is used unchecked |
| `Directory.PerkeyGlobalCachedObjinfo.GetEdgeNodeIdxes` | src/single_node_simulator.c:555-566 | the list, or nothing for an unknown key |
| `BestGuessSim.EvictLoopSpec` | src/single_node_simulator.c:1738-1785 | eviction ends, and removes exactly the shortest LRU suffix that brings the edge within capacity; victims are the keys lost |
| `BestGuessSim.TailKeysDistinct` | src/single_node_simulator.c:1778-1779 | the victims are distinct cached keys, so the reported victim count is the number of keys lost |
| `BestGuessSim.SmallestIsMinimal` | src/single_node_simulator.c:2582-2598 | the search returns an edge of least recorded victim time |
| `BestGuessRuns.GetTheorem` | src/single_node_simulator.c:966-1110 | a GET fails no assertion; global miss iff no edge caches the key, local hit iff the closest edge does, and a hit returns what the holder stores |
| `BestGuessRuns.RemoteLookup` | src/single_node_simulator.c:1382-1428 | redirection goes to the one other holder and finds a valid copy |
| `BestGuessRuns.WriteTheorem` | src/single_node_simulator.c:1111-1209 | a PUT or DEL changes no cached or visible value at any edge and no directory entry |
| `BestGuessRuns.WriteIsInvisible` | src/single_node_simulator.c:1239-1275 | a GET after a write still returns the value from before it |
| `BestGuessRuns.RunTheorem` | src/single_node_simulator.c:966-1213 | over every run of legal requests no assertion or exit is reached, and after each request the directory lists exactly the caching edges, no key is cached twice, every edge is within capacity and the victim-time index is true |
| `BestGuessRuns.InitInv` | src/single_node_simulator.c:303-340 | the invariant holds for empty caches whose fixed overhead fits |
| `BestGuessRuns.PlacementIsOldest` | src/single_node_simulator.c:2582-2598 | the placement edge is a true minimum by real victim times over all recorded edges |
| `BestGuessRuns.ObjectsAreDirectoryKeys` | src/single_node_simulator.c:1604-1615 | never replicated: the cached objects over all edges number the directory's keys |
| `BestGuessEffects.HitEffect` | src/single_node_simulator.c:1216-1428 | a GET that hits: the holder's item comes first, stamped with its clock, the closest edge only moves its clock, no other edge or entry changes |
| `BestGuessEffects.MissEffect` | src/single_node_simulator.c:1574-1785 | a GET that misses everywhere: the object goes to the first recorded edge with the oldest victim, comes first there, exactly the least recently used items that no longer fit are gone, and nothing else changes at any edge |
| `BestGuessEffects.WriteEffect` | src/single_node_simulator.c:1111-1209 | a write only moves the clock of the closest edge, and only if that edge does not hold the key |
| `BestGuessEffects.PlacedStaysIff` | src/single_node_simulator.c:1738-1785 | a placed object stays iff it alone fits |
| `BestGuessEffects.MissThenKnown` | src/single_node_simulator.c:1602-1736 | after a miss the directory knows the key iff the object fits where it was placed, and then its fetched value is visible there |
| `BestGuessEffects.RepeatHits` | src/single_node_simulator.c:966-1110 | asking again, from any edge, is never a global miss if the object fits, and gives the value fetched before |
| `BestGuessEffects.RunShows` | src/single_node_simulator.c:966-1213 | over every run a cached key has the value of the last GET of it that missed everywhere |
| `BestGuessSimulator.EvictToFit` | src/single_node_simulator.c:1738-1785 | the eviction loop over the wrapper object refines the specification and never meets an exit |
| `BestGuessSimulator.Simulator.ProcessGetRequest` | src/single_node_simulator.c:1002-1110 | a GET on the objects refines the specification and keeps the invariant |
| `BestGuessSimulator.Simulator.ProcessWriteRequest` | src/single_node_simulator.c:1111-1209 | a write on the objects refines the specification and keeps the invariant |
| `BestGuessSimulator.Simulator.AdmitIntoEdge` | src/single_node_simulator.c:1669-1736 | admission, directory entry, victim time and eviction in the program's order |
| `BestGuessSimulator.Simulator.ContentDiscovery` | src/single_node_simulator.c:1277-1380 | picks among the listed edges other than the closest one; none iff there is none |
| `BestGuessSimulator.Simulator.GetEdgeidxWithSmallestVtime` | src/single_node_simulator.c:2582-2598 | the search loop refines the minimum |
| `PopularityIndex.RunIsMap` | src/single_node_simulator.c:649-698 | under any updates and removals the sorted multimap holds exactly the entries of a plain map from edges to popularities |
| `PopularityIndex.InsertWf` | src/single_node_simulator.c:649-675 | insertion keeps descending order and one entry per edge |
| `PopularityIndex.TopKDominates` | src/single_node_simulator.c:700-721 | everything in the top-k list is at least as popular as everything left out, and nothing is left out of a list shorter than k |
| `PopularityIndex.TopKSize` | src/single_node_simulator.c:700-721 | the size assertion holds iff the bound is positive or the index is empty: a bound of zero still takes one entry |
| `PopularityIndex.Copy` | src/single_node_simulator.c:723-744 | inserting the entries one by one reproduces the sequence, ties included |
| `Iterators.OnItsElement` | src/single_node_simulator.c:662-663 | an iterator of the lookup map is not the end iterator of the multimap and stands on the only entry of its own edge |
| `Iterators.LinkedErase` | src/single_node_simulator.c:666-691 | erasing by iterator keeps multimap and lookup map in agreement and every other iterator valid |
| `Iterators.LinkedInsert` | src/single_node_simulator.c:655-671 | inserting a fresh node anywhere keeps the agreement and every iterator valid |
| `PopularityIndex.LocalUncachedObjinfo.UpdateEdge` | src/single_node_simulator.c:649-675 | both assertions on the iterator hold; the sorted entries are updated, the edge gets a fresh node, and no other iterator changes |
| `PopularityIndex.LocalUncachedObjinfo.RemoveEdge` | src/single_node_simulator.c:677-698 | both assertions on the iterator hold; the edge's entry and its iterator go, all others stay; reports empty iff nothing is left |
| `PopularityIndex.LocalUncachedObjinfo.GetTopk` | src/single_node_simulator.c:700-721 | the list's prefix of the asked length |
| `PopularityIndex.LocalUncachedObjinfo.CopyFrom` | src/single_node_simulator.c:723-744 | copy assignment reproduces the entries in order, ties included, with iterators into the copy's own multimap |
| `UncachedIndex.PerkeyLocalUncachedObjinfo.AddLocalUncachedPopularity` | src/single_node_simulator.c:776-791 | one key's index changes, created if missing |
| `UncachedIndex.PerkeyLocalUncachedObjinfo.TryToRemove` | src/single_node_simulator.c:761-774 | one key's index changes and goes with its last entry |
| `CoveredIndex.AddPopTells` | src/single_node_simulator.c:776-791 | adding a popularity sets that of one edge and keeps those of all others |
| `CoveredIndex.DropPopTells` | src/single_node_simulator.c:761-774 | removing one takes that of one edge and keeps those of all others |
| `CoveredIndex.KnownIff` | src/single_node_simulator.c:649-698 | a popularity counts iff it is in the last report about the object at the edge |
| `CoveredIndex.IndexIsHistory` | src/single_node_simulator.c:1844-1875 | over every run the tables hold a popularity for an object and an edge iff the edge's last request of the object left it tracked with that popularity and the edge has not admitted it since; the size is the one reported last |
| `Victims.SelectedIsShortest` | src/single_node_simulator.c:1911-2002 | selected victims are the shortest prefix of the edge's reward order covering the required bytes, whether recorded or fetched; fails iff the record falls short and the edge cannot cover the object |
| `Victims.SelectedMakesRoom` | src/single_node_simulator.c:1925-2001 | selected victims and free bytes together make room for the object, and fewer victims would not |
| `Victims.TakeVictims` | src/single_node_simulator.c:1962-2002 | the loop takes victims in order until they cover the bytes |
| `Victims.FetchAsksTooMuch` | src/single_node_simulator.c:1940-1946 | a concrete edge that exits although its victims could free what is required: the fetch asks for the whole object |
| `Victims.SelectVictims` | src/single_node_simulator.c:1911-2002 | one edge's selection refines that specification |
| `EvictionCost.GroupedIsFlat` | src/single_node_simulator.c:2005-2058 | regrouping per victim and summing group by group, in any order, is the flat sum over selected pairs |
| `EvictionCost.PairsPermutation` | src/single_node_simulator.c:1911-2003 | any two orders of the placement set select the same victims at the same edges |
| `EvictionCost.CostIsOrderFree` | src/single_node_simulator.c:1899-2061 | the cost, and whether the calculation exits, is the same for any two orders of the placement set, and equals the sum grouped per victim in any order of the victims |
| `EvictionCost.LastCopiesIs` | src/single_node_simulator.c:2013-2027 | last copies iff every listed holder is among the edges the victim is selected at |
| `EvictionCost.NoSizeMismatch` | src/single_node_simulator.c:2029-2038 | as many records as edges per victim: the size-mismatch exit is unreachable |
| `EvictionCost.CollectVictims` | src/single_node_simulator.c:1911-2003 | walking the placement set in its own order fills the two maps with the selected pairs grouped by victim, and exits iff an edge met cannot be covered |
| `EvictionCost.CalcEvictionCost` | src/single_node_simulator.c:1899-2061 | walk the set, regroup, sum: the flat cost of any list of the set's edges |
| `HitValue.CostIsLoss` | src/edge/covered_edge_wrapper.c:588-615 | the eviction cost is the value of all copies before minus the value without the selected ones, plus the excess of the clamped weight difference |
| `HitValue.ExcessIff` | src/edge/covered_edge_wrapper.c:608-611 | that excess is positive iff the cooperative weight is the higher one and some selected copy that is not the last has requests of its own |
| `HitValue.LossNotCost` | src/edge/covered_edge_wrapper.c:608-611 | two copies, one selected, reversed weights: cost zero although the value rises |
| `HitValue.BenefitIsGain` | src/edge/covered_edge_wrapper.c:617-649 | the admission benefit is what requests for the object are worth with it minus without it, at the chosen and at the other edges |
| `HitValue.GainIsWorth` | src/single_node_simulator.c:2335-2362 | the placement gain is the worth of everything afterwards minus before |
| `Placement.SplitTotal` | src/single_node_simulator.c:2313-2345 | for non-negative popularities chosen plus remaining is the total, at every prefix |
| `Placement.SumHoldsIff` | src/single_node_simulator.c:2340-2342 | the assertion that the chosen popularity is no more than the total holds at every prefix iff no popularity is negative |
| `Placement.ChooseExitIff` | src/single_node_simulator.c:1940-1946 | the search exits iff some edge of the top-k list cannot be covered |
| `Placement.ChoiceUnique` | src/single_node_simulator.c:2512-2525 | the search outcome is determined: exit, nothing, or one placement |
| `Placement.PlacementCalculation` | src/single_node_simulator.c:2289-2525 | returns the smallest prefix of the top-k list with maximal benefit minus cost, and one iff that maximum is positive; the assertion on the sums holds in every iteration |
| `CoveredPlacement.PlaceIsBest` | src/single_node_simulator.c:2289-2525 | the placement is the shortest prefix of the most popular edges on record that makes everything worth most, and empty iff no prefix makes it worth more, provided the local weight is not below the cooperative one |
| `CoveredPlacement.RecordIsTrue` | src/single_node_simulator.c:1877-1897 | what is on record for an edge are its free bytes and its least rewarding objects in order, as many as are synced |
| `CoveredPlacement.VictimsMakeRoom` | src/single_node_simulator.c:1925-2001 | the victims planned with at an edge within capacity make room for the object there, and fewer would not |
| `Nearest.NearestHolder` | src/single_node_simulator.c:2398-2409 | the first nearest holder outside the excluded edges, earlier ones being strictly farther; none iff no eligible holder exists |
| `CoveredNode.TouchSynced` | src/cache/covered/local_cached_metadata.c:51-61 | an access that reports no effect on the victims leaves the synchronised victims exactly as they were |
| `CoveredNode.AdmitSynced` | src/cache/covered/local_cached_metadata.c:51-61 | so does such an admission |
| `CoveredNode.SameButFlagsWf` | src/cache/covered/local_cached_metadata.c:34-47 | a neighbour-flag change carries no reward, so victim information does not move |
| `CoveredNode.EvictCountFits` | src/single_node_simulator.c:1752-1776 | when the eviction loop ends the edge is within capacity |
| `CoveredNode.OneRound` | src/single_node_simulator.c:1752-1776 | what the first round of the eviction loop finds is the whole answer: the shortest prefix of the reward order covering the excess, after which the edge fits |
| `CoveredNode.EvictCountExists` | src/cache/covered_local_cache.c:437-447 | the objects run out iff the metadata alone exceeds the capacity |
| `CoveredNode.EvictedIff` | src/cache/covered_local_cache.c:387-452 | an object is evicted iff those ranked before it do not cover the excess |
| `CoveredNode.TouchUsed` | src/cache/covered_local_cache.c:90-104 | an access moves one object and changes no size |
| `CoveredRuns.SyncKeeps` | src/single_node_simulator.c:1877-1897 | a margin-only update fails iff the edge has no record; either way of recording keeps records equal to the current victims |
| `CoveredRuns.SettledKeeps` | src/single_node_simulator.c:1781-1811 | eviction, directory removal, recording and notification keep the whole invariant |
| `CoveredRuns.FlagAfterEviction` | src/single_node_simulator.c:1796-1811 | clearing the flag only at single remaining holders makes every flag right again |
| `CoveredRuns.FlagAfterAdmission` | src/single_node_simulator.c:1717-1724 | setting the flag only at a single previous holder makes every flag right again |
| `CoveredRuns.ValidateKeeps` | src/single_node_simulator.c:1430-1463 | fails iff a deleted value reaches an edge without a record; afterwards the edge has a record and tracks the key only if the value is admissible |
| `CoveredRuns.AggregateKeeps` | src/single_node_simulator.c:1844-1875 | cached and uncached views stay disjoint under popularity aggregation |
| `CoveredRuns.EdgeIsUsable` | src/single_node_simulator.c:2014-2017 | every recorded or fetched victim is cached and in the directory |
| `CoveredRuns.ProblemIsSolvable` | src/single_node_simulator.c:1917-1923 | every placement edge has a record: the treat-as-empty branch is unreachable, and so is the victim assertion |
| `CoveredRuns.NoSumFails` | src/single_node_simulator.c:2340-2342 | the assertion on the sums of popularities never fails |
| `CoveredRuns.AdmitIntoKeeps` | src/single_node_simulator.c:1669-1736 | the already-cached early return is unreachable, no assertion fails, the invariant is kept and other candidates stay candidates |
| `CoveredRuns.DeployKeeps` | src/single_node_simulator.c:2530-2541 | deployment over a placement in any order keeps the invariant |
| `CoveredRuns.OtherHolder` | src/single_node_simulator.c:2398-2409 | a nearest other holder exists for every placement edge of a globally cached object |
| `CoveredRuns.Survivor` | src/single_node_simulator.c:2246-2265 | a nearest surviving holder exists for a selected victim iff not all holders are selected |
| `CoveredRuns.LookupKeeps` | src/single_node_simulator.c:1216-1428 | redirection finds a valid copy; local hit iff cached locally, global miss iff the directory does not know the key |
| `CoveredAccess.LocalMoves` | src/single_node_simulator.c:1216-1310 | a local hit moves the object to the place its new reward gives it, with its new popularities, and changes nothing else |
| `CoveredAccess.RemoteMoves` | src/single_node_simulator.c:1310-1428 | a local miss is noted at the closest edge, a redirected request moves the object at the edge that answers, and nothing else changes |
| `CoveredRuns.GetTheorem` | src/single_node_simulator.c:1002-1110 | a GET fails iff it fetches a deleted value at an edge without a record; when it goes through it keeps the invariant and returns a stored copy or the backend's value |
| `CoveredRuns.DirectoryIsCaches` | src/single_node_simulator.c:555-566 | the directory knows a key iff some edge caches it |
| `CoveredRuns.WriteTheorem` | src/single_node_simulator.c:1111-1209 | a write fails iff the key is unknown, or a deleted value meets an edge without a record, or its edge is the only holder and what is ranked before the key does not cover the edge's excess |
| `CoveredOutcomes.RoomSettle` | src/single_node_simulator.c:1738-1785 | eviction never runs out of objects and leaves its edge within capacity |
| `CoveredOutcomes.PlaceExhaustedIff` | src/single_node_simulator.c:1925-1949 | the placement search exits iff some top-k edge is short: its synchronised victims do not cover what its free bytes leave open and all its objects together are smaller than the new one |
| `CoveredOutcomes.GetOutcome` | src/single_node_simulator.c:1002-1110 | a GET runs out of objects iff its placement search meets a short edge |
| `CoveredOutcomes.FitsKeepsCopy` | src/single_node_simulator.c:1111-1171 | an edge within capacity never loses a key to a write's validation |
| `CoveredOutcomes.WriteOutcome` | src/single_node_simulator.c:1111-1209 | a write at an edge within capacity fails iff the key is unknown, and runs out of objects iff its placement search meets a short edge |
| `CoveredOutcomes.ProcessOutcome` | src/single_node_simulator.c:966-1213 | without deleted values each request ends in exactly one of three ways, each by a condition on the state it starts in |
| `CoveredOutcomes.RunTheorem` | src/single_node_simulator.c:966-1213 | over every run without deleted values: after every request recorded victims and margins are current, flags right, views disjoint, the directory coherent and every edge within capacity; the run fails iff it reaches a write to an unknown key, exits iff it reaches a search with a short edge, and otherwise goes through |
| `CoveredOutcomes.RunKeeps` | src/single_node_simulator.c:966-1213 | over every run, deleted values included, each request that goes through leaves the whole invariant with recorded victims and margins current |
| `CoveredMargins.MarginsValidate` | src/single_node_simulator.c:1430-1463 | after validation the edge's recorded margin is right, whatever lookup and fetched value did to its metadata |
| `CoveredMargins.MarginsAdmit` | src/single_node_simulator.c:1669-1736 | admission and its eviction leave every recorded margin as current as before |
| `CoveredMargins.GetMargins` | src/single_node_simulator.c:1002-1110 | a GET that goes through leaves every recorded margin equal to the edge's free bytes |
| `CoveredMargins.WriteMargins` | src/single_node_simulator.c:1111-1209 | so does a write |
| `CoveredCopies.StaysIff` | src/single_node_simulator.c:1669-1736 | a newly admitted object is evicted again at once iff what ranks before it does not cover the edge's excess |
| `CoveredCopies.FinishEffect` | src/single_node_simulator.c:1430-1601 | no request changes a copy in place; its new copies are of its own key and value, exist iff a placement edge keeps one, and then all older copies of the key are still there |
| `CoveredCopies.GetAgrees` | src/single_node_simulator.c:1002-1110 | over agreeing copies a GET returns the value every copy has and leaves all copies agreeing |
| `CoveredCopies.WriteAgreesIff` | src/single_node_simulator.c:1111-1209 | a write leaves copies disagreeing iff it deploys its value while some edge holds the key with another |
| `CoveredCopies.SameAnswersIff` | src/single_node_simulator.c:1216-1428 | copies of a cached key agree iff the clients of all edges get the same answer |
| `CoveredCopies.RunAgreesIff` | src/single_node_simulator.c:966-1213 | over every run copies agree after each request iff no write deploys its value beside another one; in runs of GETs they always agree |
| `CoveredExamples.CopiesDiffer` | src/single_node_simulator.c:1111-1209 | a run of one GET and one write at two edges after which the edges answer differently |
| `CoveredExamples.LastCopyLost` | src/single_node_simulator.c:1438-1454 | a run with a deleted value in which a write to a known key loses the last copy and fails |
| `CoveredExamples.SearchAsksTooMuch` | src/single_node_simulator.c:1940-1946 | a run that exits: sixty bytes cached, forty free, and an object of seventy asked for |
| `CoveredOutcomes.InitInv` | src/single_node_simulator.c:303-340 | the invariant holds for empty edges, which are within capacity if their metadata is |
| `CoveredOutcomes.DeletedFirst` | src/single_node_simulator.c:1438-1454 | a first GET of a deleted value fails the margin assertion |
| `CoveredSimulator.EvictToFit` | src/single_node_simulator.c:1752-1776 | the eviction loop, victim by victim, ends after at most one round with the specified victims |
| `CoveredSimulator.TouchNode` | src/cache/covered_local_cache.c:90-104 | rank before and after decides whether victims are affected |
| `CoveredSimulator.Simulator.VictimSynchronization` | src/single_node_simulator.c:1877-1897 | full and margin-only recording |
| `CoveredSimulator.Simulator.EvictForCapacity` | src/single_node_simulator.c:1738-1820 | the method refines eviction with directory, record and notifications |
| `CoveredSimulator.Simulator.ValidateClosestEdge` | src/single_node_simulator.c:1430-1463 | the method refines validation |
| `CoveredSimulator.Simulator.PlacementCalculation` | src/single_node_simulator.c:2289-2525 | the method refines the placement choice; the assertions on existence, list length, sums and victims are discharged |
| `CoveredSimulator.Simulator.AdmitIntoEdge` | src/single_node_simulator.c:1669-1736 | the method refines admission |
| `CoveredSimulator.Simulator.PlacementDeployment` | src/single_node_simulator.c:2530-2541 | the loop refines deployment |
| `CoveredSimulator.Simulator.TriggerCacheManagement` | src/single_node_simulator.c:1574-1601 | the method refines aggregation, placement and deployment |
| `CoveredSimulator.Simulator.ProcessGetRequest` | src/single_node_simulator.c:1002-1110 | the method refines a GET, deleted values included |
| `CoveredSimulator.Simulator.ProcessWriteRequest` | src/single_node_simulator.c:1111-1209 | the method refines a PUT or DEL of any key, including both unchecked directory lookups |
| `CoveredSimulator.Simulator.Simulate` | src/single_node_simulator.c:395-407 | any run of GETs, PUTs and DELs ends as the specification's run ends, in all three ways |
| `ProtocolRuns.StepKeeps` | src/benchmark/evaluator_wrapper.c:587-701 | every step of evaluator, network and nodes keeps the protocol invariant |
| `ProtocolRuns.RoundBarrier` | src/benchmark/evaluator_wrapper.c:605-687 | when a round returns every node of it has processed its request, and what is held for a node is one of its replies to this round, the only one where a node cannot answer twice |
| `ProtocolRuns.ReplyAssertions` | src/benchmark/evaluator_wrapper.c:628-676 | type, sender and slot assertions hold for every response that is not stale |
| `ProtocolRuns.SlotsAgree` | src/statistics/client_statistics_tracker.c:401-429 | between rounds every client is in the evaluator's slot, whatever was lost, repeated or reordered |
| `ProtocolRuns.CrashIff` | src/statistics/client_statistics_tracker.c:405-415 | a request crashes a live client iff the client has processed it before and it is a start or a slot switch |
| `ProtocolRuns.NoSecondReply` | src/common/node_wrapper_base.c:221-251 | a start, slot switch or finish is never answered twice, so retransmission cannot make up for a lost reply |
| `ProtocolRuns.DuplicateCrashes` | src/common/node_wrapper_base.c:185-219 | a concrete run in which a repeated start request ends the client |
| `ProtocolRuns.RulesCount` | src/benchmark/client_wrapper.c:397-407 | over every run a client has applied exactly the rule updates it took while running; between rounds that is at least the number of rule rounds, and equal to it iff the client took each of them once |
| `ProtocolRuns.RulesTwice` | src/benchmark/client_wrapper.c:397-407 | a concrete run in which one rule round changes a client's rules twice |
| `ProtocolEffects.WarmupEnds` | src/benchmark/client_wrapper.c:385-415 | over every run a client is in the warmup iff the run started in it and the client has processed no request to end it |
| `ProtocolEffects.WarmupAgrees` | src/benchmark/client_wrapper.c:385-415 | between rounds all clients are in the warmup iff the run started in it and no round has ended it: before the stress test and while a snapshot is dumped |
| `ProtocolEffects.FirstIsAnswered` | src/benchmark/client_wrapper.c:306-407 | a live node answers every request the first time it is handed it |
| `ProtocolEffects.ReportsAreTrue` | src/benchmark/client_wrapper.c:365-383 | over every run what a node reports is what it had when it was handed the request |
| `ProtocolRuns.PhaseOrder` | src/benchmark/evaluator_wrapper.c:323-409 | the rounds of every run follow the phase order |
| `Evaluator.AcksSpec` | src/benchmark/evaluator_wrapper.c:1220-1243 | a node counts iff some response with the round's number came from it, and the answer held is such a response |
| `Evaluator.AcksAreReceived` | src/benchmark/evaluator_wrapper.c:616-684 | the round's bookkeeping is what the protocol's receive steps add up to |
| `Evaluator.StandingCount` | src/benchmark/evaluator_wrapper.c:607-610 | the counter equals the number of set flags and reaches its bound iff all nodes have answered |
| `Evaluator.ProcessMsgForAck` | src/benchmark/evaluator_wrapper.c:1220-1243 | a flag is set once; the counter follows the flags |
| `Evaluator.ReceiveResponses` | src/benchmark/evaluator_wrapper.c:617-686 | the inner receive loop ends with the first timeout or stale response, or when as many responses have come as were missing |
| `Evaluator.NotifyNodes` | src/benchmark/evaluator_wrapper.c:605-687 | a round completes iff every node answers with its number before any response of the wrong type, at the first such moment; each transmission goes to exactly the nodes that have not answered, one follows every timeout, and none follows a stale response before a timeout |
| `Schedule.PlanGrows` | src/benchmark/evaluator_wrapper.c:323-409 | later iterations only add rounds, and none after the one that ends the run |
| `Schedule.PlanSlots` | src/benchmark/evaluator_wrapper.c:366-381 | a plan opens exactly one slot for each iteration in which one is due |
| `Evaluator.CompleteIsBarrier` | src/benchmark/evaluator_wrapper.c:605-687 | a round that completes on responses sent in a reached state: every node has processed the request, the answer held is its own, and no response fails the type assertion |
| `Evaluator.Evaluation.NotifySwitchSlot` | src/benchmark/evaluator_wrapper.c:587-701 | the target slot counts slot rounds and the number counts rounds; it succeeds iff every node answers |
| `Evaluator.Evaluation.Notify` | src/benchmark/evaluator_wrapper.c:732-811 | any other round takes the next number and succeeds iff every node answers; the end of warmup clears the flag |
| `Evaluator.Evaluation.NotifyUpdateRules` | src/benchmark/evaluator_wrapper.c:886-968 | the assertion that warmup is over holds at every rule update |
| `Evaluator.Evaluation.NormalEval` | src/benchmark/evaluator_wrapper.c:323-409 | the rounds are those the iterations call for (a slot when due, rules after the warmup, the end of warmup at the first iteration that says so, the finishes at the first one afterwards that says so), up to the first in which not all nodes answer; finished iff that end is reached |
| `Evaluator.Evaluation.RealnetDumpEval` | src/benchmark/evaluator_wrapper.c:429-497 | likewise: slots when due, then the dump and the finishes at the first iteration that ends the warmup; in warmup throughout, as asserted |
| `Evaluator.Evaluation.RealnetLoadEval` | src/benchmark/evaluator_wrapper.c:499-583 | likewise without a warmup, as asserted |
| `Evaluator.Evaluation.StartEvaluation` | src/benchmark/evaluator_wrapper.c:166-199 | a whole evaluation holds the start round and the planned ones up to the first in which not all nodes answer, and follows the order of its option when it finishes |
| `ClientWrapper.Client.Receive` | src/common/node_wrapper_base.c:185-251 | the client object refines the node model in every phase of its life |
| `ClientWrapper.Client.ProcessSwitchSlotRequest` | src/benchmark/client_wrapper.c:365-383 | a slot switch refines the node model |
| `ClientWrapper.Client.ProcessOtherBenchmarkControlRequest` | src/benchmark/client_wrapper.c:306-331 | dispatch refines the node model |
| `ClientWrapper.Client.ProcessFinishrunRequest` | src/benchmark/client_wrapper.c:284-304 | a finish refines the node model |

## Left out

- Peer-to-peer reward numbers (`src/single_node_simulator.c:1392-1400`, `2225-2276`, `2375-2493`): the sign of one term disagrees with its comment and unsigned subtractions may wrap; only the choice of the nearest holder is modelled.
- CoveredOutcomes.RunTheorem: how runs with deleted values end; what they keep is `CoveredOutcomes.RunKeeps`, and single requests with them are covered by `CoveredRuns.GetTheorem` and `CoveredRuns.WriteTheorem`.
- Snapshot.SameRun: victim times are not compared, because loading does not keep them.
- Placement.SumHoldsIff: the assertion allows for rounding of floats, which reals do not have.
- BestGuessRuns.RunTheorem: runs whose writes go to keys the directory knows, because the directory entry is used without a check.
- Eviction counts over a placement with several edges: each admission resets them, so only the last edge's count survives.
- Reports of neighbours' victim times between the edges of a distributed BestGuess (`src/cache/bestguess_local_cache.c:285-307`): an insertion into a map; the choice of a placement edge is proved for any record.
- Latencies, bandwidth accounting and statistics strings: additive bookkeeping.
- Weight tuning, frequencies and the reward values of COVERED's local cache, its small LRU in front of the tracked metadata, and the size check on tracked objects: inputs of the model.
- The 32-bit byte counters of the eviction cost calculation and 64-bit wrap-around of counters.
- Other local caches (MagNet clustering, ARC, AdaptSize, CacheLib and the rest): thin wrappers around libraries.
- Initialization before the start round: repeated initialization requests are not answered again, so only safety after it is modelled.
- Threads, per-key locks, sockets, message encoding and the snapshot file format: operations are atomic and records are values.
- The slot barrier among the worker threads of one client, and termination of rounds, which needs a network that delivers.
- Workload generation and dataset loading.
