# Auto router route search, modelled in Dafny

This project models the route search of the 18xx auto router (`Engine::AutoRouter`). The router picks, for a corporation's trains, a set of routes that earns the most. The search has two phases. First, for each train, it walks the track graph and collects candidate routes. Then it looks for the best conflict-free combination of those routes. Two routes conflict when they use the same hexside.

The model covers these parts of the router:

- **Bitfields** (`bitfields.dfy`). A bitfield is a growable array of 32-bit words (`bv32`). The model covers `set_bit`, the word-wise OR merge and the common-prefix AND conflict test. Each is also read as a set of bit positions: a merge is a set union, and a conflict is a non-empty intersection.
- **Hexside numbering** (`hexsides.dfy`). A class covers the hexside table and the `@next_hexside_bit` counter, with `check_edge_and_set` and `check_and_set`. It also covers `bitfield_from_connection`, including the special case of a one-path chain, which encodes its node ids. The table stays injective, and every number in it is below the counter. The bitfield of a connection holds exactly the bits of that connection's hexsides. Two bitfields conflict exactly when their connections share a hexside.
- **Routes and exact revenue** (`tracks.dfy`, `routes.dfy`). The game computes a route's exact revenue. The model treats that computation as an oracle, which may raise an error. `real_revenue` returns -1 when the oracle raises.
- **Selection metadata** (`metadata.dfy`). Covers `get_empty_metadata`, `add_train_to_routes_metadata`, `estimate_revenue` and `is_worth_adding_trains`. The metadata of a selection holds three things: the sum of the routes' estimates, the union of their bits, and an overlap flag, which is raised exactly when two of the routes share a hexside.
- **Branch-and-bound search** (`search.dfy`).
  - `new_autoroute` builds a linked list of per-train frames. Each frame carries a bound: the sum of the best estimates of the trains still to come.
  - `find_best_combo` is specified by pure functions. The method that updates the router's `best_revenue_so_far` and `best_routes` is proved to follow them.
  - Three results are proved about the search:
    - the best never decreases;
    - the best it ends with is a real selection (one route per train, from the frames) at its exact revenue;
    - the best is at least the exact revenue of every admissible selection, given the assumption the pruning rests on.
- **Exhaustive combo builder** (`combos.dfy`). `js_evaluate_combos` is specified by a function giving the list of combos in the order they are built, plus a fold of the keep-the-best step. The lemmas prove four things:
  - every combo is a conflict-free draw of routes from increasing trains, starting with the first train;
  - every such draw is built;
  - every kept combo passes the game's check and earns the maximum;
  - every checked draw that earns the maximum is kept.
- **Candidate routes per train** (`pathwalk.dfy`). This file covers the callback `path` gives the graph walk and the final sort-and-trim.
  - The callback's steps: it assembles the paths into chains, builds the connection and its key, skips a key it has already seen, builds one route per train and takes the trains' abort vote (`path_abort`).
  - The final step keeps the best `route_limit` routes per train.
- **Train grouping** (`grouping.dfy`). Covers the `group_by` of `compute`. Trains are grouped by the first declared group that names them. Each group keeps the trains' order. Groups are ordered by the first appearance of their key.

Anything the router gets from the rest of the engine enters as a parameter:

- the exact revenue of a set of routes (`RevenueOracle`);
- the pricing of one train's route over a connection (`TrainCheck`), whose outcomes are a revenue, `RouteTooLong`, `ReusesCity`, or one of the other rejections;
- the game's combo check (`ComboCheck`);
- the game title;
- the declared train groups;
- the paths the graph walk hands over.

## Model

| member | source | states |
|---|---|---|
| Bitfields.SetBit | lib/engine/auto_router.rb:342-351 | the result has max(size, bit / 32 + 1) words; appended words are 0 and every other old word is kept; the bit is set; as a set of bits it is the old set plus that bit |
| Bitfields.MergeBitfields | lib/engine/auto_router.rb:698-705 | the index loop returns the word-wise OR up to the longer length, with missing words read as 0; its bits are the union of the two bitfields' bits |
| Bitfields.MergeIsUnion | lib/engine/auto_router.rb:698-705 | as sets of bit positions, a merge is the union |
| Bitfields.MergeCommutes | lib/engine/auto_router.rb:698-705 | merging is commutative |
| Bitfields.BitfieldsConflict | lib/engine/auto_router.rb:689-696 | the downward scan returns true exactly when some word of the common prefix has a nonzero AND, and exactly when the two bit sets intersect |
| Bitfields.ConflictsIffSharedBit | lib/engine/auto_router.rb:689-696 | a conflict is exactly a shared bit position |
| Bitfields.ConflictsSymmetric | lib/engine/auto_router.rb:689-696 | the conflict test is symmetric |
| Bitfields.ConflictsWithMerge | lib/engine/auto_router.rb:689-705 | a bitfield conflicts with a merge exactly when it conflicts with one of the merged bitfields |
| Hexsides.HexsideNumbering.constructor | lib/engine/auto_router.rb:112-114 | a search starts with an empty hexside table and the counter at 0, which is well numbered |
| Hexsides.HexsideNumbering.CheckEdgeAndSet | lib/engine/auto_router.rb:330-338 | a known hexside keeps its number; a new one takes the counter and the counter moves on; the table stays injective with every number below the counter; the bitfield then stands for exactly the hexsides visited so far |
| Hexsides.HexsideNumbering.CheckAndSet | lib/engine/auto_router.rb:325-328 | the left hexside is numbered and set, then the right |
| Hexsides.HexsideNumbering.BitfieldFromConnection | lib/engine/auto_router.rb:285-323 | starting from [0], the table becomes the old table after numbering the connection's hexsides in order; it stays well numbered; every hexside of the connection is numbered; the bitfield's bits are exactly those hexsides' bits |
| Hexsides.HexsideNumbering.ChainBitfield | lib/engine/auto_router.rb:287-320 | one chain adds exactly its hexsides: node ids for a single path, join edges otherwise |
| Hexsides.HexsideNumbering.SinglePathBitfield | lib/engine/auto_router.rb:289-295 | a single path adds its first node id, and its second one when it has one |
| Hexsides.HexsideNumbering.JoinsBitfield | lib/engine/auto_router.rb:297-319 | a chain of several paths adds the hexsides of each join in order |
| Hexsides.HexsideNumbering.JoinsUpTo | lib/engine/auto_router.rb:297-319 | the loop over the joins: after it the bitfield and table hold exactly the hexsides of every join of the chain, on top of those seen before |
| Hexsides.HexsideNumbering.JoinBitfield | lib/engine/auto_router.rb:299-318 | a join whose first path has 1 edge adds that edge and the next path's first edge; with 2 edges it adds both, then the second again with the next path's first edge; otherwise it adds nothing |
| Hexsides.StepExtends | lib/engine/auto_router.rb:330-338 | numbering a hexside keeps every earlier number; it gives a new hexside the counter and raises the counter by one |
| Hexsides.StepNumbers | lib/engine/auto_router.rb:330-338 | numbering a hexside keeps the table injective, with every number below the counter and the counter equal to the table's size |
| Hexsides.NumberedNumbers | lib/engine/auto_router.rb:285-338 | numbering a connection's hexsides keeps the table well numbered |
| Hexsides.NumberedExtends | lib/engine/auto_router.rb:285-338 | numbering keeps old numbers, numbers every hexside and opens at most one number per hexside |
| Hexsides.KeyPositionsStable | lib/engine/auto_router.rb:330-338 | numbering later hexsides leaves an earlier route's bitfield meaning the same hexsides |
| Hexsides.ConflictIffSharedHexside | lib/engine/auto_router.rb:285-351 | two bitfields built from one table conflict exactly when their connections share a hexside |
| Hexsides.ConnectionKeysFromPaths | lib/engine/auto_router.rb:285-323 | every hexside the encoder visits is a node or edge id of one of the connection's paths |
| Routes.RealRevenue | lib/engine/auto_router.rb:50-59 | the game's exact revenue of the routes, or -1 when the game raises |
| Metadata.EmptyMetadata | lib/engine/auto_router.rb:570-576 | estimate 0, no bits, no overlap |
| Metadata.AddTrain | lib/engine/auto_router.rb:549-568 | the estimate grows by the route's revenue; the bits become the union; the overlap flag is raised exactly when it was raised already or the route shares a bit with the selection, so once raised it stays raised |
| Metadata.MetadataOfMeaning | lib/engine/auto_router.rb:549-576 | after folding in a selection, the estimate is its revenue sum, the bits are the union of its routes' bits, and the flag is raised exactly when two of its routes share a hexside |
| Metadata.OverlapPersists | lib/engine/auto_router.rb:561-566 | once a selection overlaps, every extension of it does |
| Metadata.EstimateRevenue | lib/engine/auto_router.rb:516-536 | -1 for an overlapping selection unless the title is one of 1822, 1860, 1862 or 18 Los Angeles 2; otherwise the summed estimate; what that is for a whole selection is stated by Metadata.EstimateOfSelection |
| Metadata.IsWorthAddingTrains | lib/engine/auto_router.rb:539-547 | worth exactly when the raw summed estimate (not the -1 of an overlap) plus the bound of the remaining trains beats the best so far; that this pruning loses no better selection is proved by Search.PrunedCovered and Search.ExploreOptimal |
| Metadata.EstimateOfSelection | lib/engine/auto_router.rb:516-536 | a selection's estimate is its revenue sum when the title scores overlaps or no two routes share a hexside, and -1 otherwise |
| Search.Consider | lib/engine/auto_router.rb:645-654 | the best never drops; it is replaced only when the estimate beats it, and only by the selection at its exact revenue, which must beat it strictly; when the estimate beats it, the result is at least the exact revenue |
| Search.ExploreMonotone | lib/engine/auto_router.rb:619-687 | the best revenue never decreases over a search |
| Search.ExploreSound | lib/engine/auto_router.rb:619-687 | the search either leaves the best alone, or ends with the selection extended by a nonempty draw (at most one route per later layer), at that draw's exact revenue, above the old best |
| Search.ExploreOptimal | lib/engine/auto_router.rb:619-687 | assume the frames are sorted best-first with bounds equal to suffix sums, and that revenue is subadditive; then the search ends at or above the exact revenue of every nonempty admissible draw |
| Search.BuildFramesLayers | lib/engine/auto_router.rb:599-610 | the frames are the train lists last-first, and each frame's bound is the sum of the first-route estimates of the lists up to it |
| Search.BuildFramesRoutes | lib/engine/auto_router.rb:599-610 | frame i holds the routes of train list \|lists\|-1-i, one frame per list |
| Search.BuildFramesChain | lib/engine/auto_router.rb:599-610 | each frame's bound is its first route's estimate plus the next frame's bound, or 0 after the last frame |
| Search.BuildFramesOk | lib/engine/auto_router.rb:599-610 | lists sorted best-first with a nonnegative head give frames whose bounds cover every draw |
| Search.Router.FindBestCombo | lib/engine/auto_router.rb:619-687 | the router's best after the recursive loop is the one Explore gives from the old best |
| Search.Router.NewAutoroute | lib/engine/auto_router.rb:585-614 | records the title and resets the best to 0 and no routes; fails exactly when there is no train or some train has no route; otherwise the best is the search over the frames it builds, and it returns the best routes |
| Search.Router.NewRoute | lib/engine/auto_router.rb:28-48 | the routes the search settles on, or no routes when it fails (given a flash callback) |
| Search.AutorouteSound | lib/engine/auto_router.rb:585-687 | the result is no routes at revenue 0, or a nonempty draw of at most one route per train at its exact revenue, above 0 |
| Search.AutorouteOptimal | lib/engine/auto_router.rb:585-687 | assume revenue is subadditive and the lists are sorted best-first; then the result earns at least the exact revenue of every nonempty admissible draw |
| Combos.ComboConflicts | lib/engine/auto_router.rb:502-514 | true exactly when some route of the combo shares a bit with the test route |
| Combos.AnyConflictMeaning | lib/engine/auto_router.rb:502-514 | a conflict with a combo is a shared bit with some route of the combo |
| Combos.Seeds | lib/engine/auto_router.rb:382-387 | one combo per route of the first train, at that route's revenue |
| Combos.SeedCombos | lib/engine/auto_router.rb:382-402 | the first train's loop builds the seeds and tallies each as built |
| Combos.Keep | lib/engine/auto_router.rb:389-401 | a checked combo at the maximum is added; above it, the kept list restarts with it; otherwise nothing changes |
| Combos.ExtendTrain | lib/engine/auto_router.rb:418-457 | one train's pass appends, route by route and combo by combo, every conflict-free extension, and tallies each one |
| Combos.ExtendRoute | lib/engine/auto_router.rb:421-455 | one route extends each combo it does not conflict with |
| Combos.EvaluateCombos | lib/engine/auto_router.rb:354-476 | returns the routes of the tally of every combo built, in build order |
| Combos.TalliedMeaning | lib/engine/auto_router.rb:442-453 | the tally's maximum is the largest checked revenue (at least 0), and the kept combos are exactly the checked ones at that maximum, in build order |
| Combos.MaxCheckedIsMax | lib/engine/auto_router.rb:442-453 | no checked combo earns more than the maximum, and the maximum is 0 or the revenue of a checked combo |
| Combos.CheckedAtMembers | lib/engine/auto_router.rb:442-453 | kept means built, checked and at that revenue |
| Combos.GeneratedWellBuilt | lib/engine/auto_router.rb:382-457 | every combo built has its routes' revenue sum, no two of its routes conflict, and it draws one route each from increasing trains starting with train 0 |
| Combos.GeneratedComplete | lib/engine/auto_router.rb:382-457 | every conflict-free draw from increasing trains starting with train 0 is built |
| Combos.CombosOptimal | lib/engine/auto_router.rb:354-476 | every possibility is well built, checked and at the maximum; no checked conflict-free draw earns more; every one that earns the maximum is a possibility |
| Combos.RoutesOf | lib/engine/auto_router.rb:460-468 | the routes of each combo, in order |
| PathWalk.AssembleChains | lib/engine/auto_router.rb:127-166 | the chains cover a prefix of the paths in order; each chain is closed on a two-node path (ends swapped back when they repeat the previous chain's ends) or on a second single-node path; the remaining paths are open from the returned left end |
| PathWalk.AssembledUnique | lib/engine/auto_router.rb:127-166 | the paths determine the chains and the open left end: two assemblies of the same paths are equal, since each chain closes at the first path that can close it |
| PathWalk.EncodableExactly | lib/engine/auto_router.rb:127-166 | the walk is encodable exactly when the chains assembled from it can be encoded (each two adjacent paths of a chain are joined by an edge where the encoder reads one) |
| PathWalk.AssembledShaped | lib/engine/auto_router.rb:127-166 | a sufficient condition: a walk in which every one- or two-edge path that is not the last is followed by a path with an edge is encodable |
| PathWalk.SameTileJoinEncodable | lib/engine/auto_router.rb:289-297 | the condition is not necessary: two towns joined by one-edge paths, then an edgeless path inside one tile, form an encodable walk that is not well shaped |
| PathWalk.ConnectionOfShaped | lib/engine/auto_router.rb:168-187 | every connection built from an encodable walk, the one-city local connection included, can be encoded |
| PathWalk.SameKey | lib/engine/auto_router.rb:168-181 | two walks share a key exactly when both met one lone city and it is the same city, or both closed chains over the same paths |
| PathWalk.PathWalker.constructor | lib/engine/auto_router.rb:89-114 | no connections, no routes, a fresh empty hexside table |
| PathWalk.PathWalker.Visit | lib/engine/auto_router.rb:126-218 | with no connection or a key already seen, nothing changes and the walk goes on; otherwise the connection is stored under its key, one route per priced train is recorded, and the walk aborts exactly when a train reuses a city or every train's route is too long; the hexside table is the old one numbered over the connection's hexsides when there are trains and unchanged otherwise, so it only ever extends the old table |
| PathWalk.PathWalker.BuildRoutes | lib/engine/auto_router.rb:191-217 | the vote aborts exactly as above; each priced train gets a route over the connection at its revenue, whose bitfield stands for exactly the connection's hexsides; the table holds the connection's hexsides |
| PathWalk.PathWalker.VoteStep | lib/engine/auto_router.rb:195-215 | one train: a too-long route drops it from the vote, a reused city clears the vote, a revenue adds its route |
| PathWalk.PathWalker.Record | lib/engine/auto_router.rb:208 | the route is appended to its train's list |
| PathWalk.PathWalker.KeepBest | lib/engine/auto_router.rb:233-235 | every train's list becomes its top routes, no other state changes |
| PathWalk.AbortSetStep | lib/engine/auto_router.rb:209-213 | the vote loses the train on a too-long route, empties on a reused city, and is unchanged otherwise |
| PathWalk.AbortSetEmpty | lib/engine/auto_router.rb:192-217 | the vote ends empty exactly when a train reuses a city or every train's route is too long, which includes having no trains |
| PathWalk.NumberedTwice | lib/engine/auto_router.rb:204 | encoding the same connection again for the next train numbers nothing new |
| PathWalk.SortDescendingSorts | lib/engine/auto_router.rb:234 | the sort orders routes highest revenue first and is a permutation |
| PathWalk.TopRoutesBest | lib/engine/auto_router.rb:233-235 | the kept routes are highest first, there are min(limit, n) of them, they are a sub-multiset of the train's routes, and no dropped route earns more than a kept one |
| Grouping.GroupIndex | lib/engine/auto_router.rb:66 | the first declared group naming the train, or none when no group names it |
| Grouping.FirstAt | lib/engine/auto_router.rb:66 | the index of the first train whose key is the given one, or the number of trains when none has it |
| Grouping.BucketsOrdered | lib/engine/auto_router.rb:66 | the `group_by` entries come in the order their keys first appear among the trains (Ruby hashes keep insertion order) |
| Grouping.BucketsGrouped | lib/engine/auto_router.rb:66 | each group holds, in order, exactly the trains with its key and at least one of them; no key has two groups; every train's key has one |
| Grouping.TrainGroupsPartition | lib/engine/auto_router.rb:64-69 | the groups together hold every train exactly once; with declared groups each is nonempty, holds in order exactly the trains of its key, keys are distinct, every train's key has a group, and the groups are ordered by the first appearance of their keys |

## Left out

- Timing and cooperative scheduling. This covers `performance.now`, `requestAnimationFrame`, `await`, the 30 ms yield, the `running` cancellation flag and the `g_update` progress callback. It also covers the path and route timeouts, the counters `counter`, `possibilities_count` and `conflicts`, and the recomputed depth `limit`. These depend on the clock or only feed logging. The model runs a single synchronous recursion that always finishes.
- Logging, flash messages and `console.log`. This leaves out a crash: the failure handler of `new_route` calls the flash callback, which defaults to nil (auto_router.rb:12, 42).
- The graph walk itself and the node ordering of `path` (auto_router.rb:93-102). The walk belongs to the engine, and the ordering depends on per-node revenue from the engine. The model takes the paths of one walk step as input.
- PathWalk.PathWalker.Visit: requires the walk to be encodable (`Encodable`). Inside each chain the step assembles, a path with one or two edges must be followed by a path with an edge, since `bitfield_from_connection` reads that edge without a nil check (auto_router.rb:297, 305, 311). Otherwise the Ruby code raises a `NoMethodError` no rescue clause catches. The requirement also applies when there are no trains or the key was already seen, where the Ruby code never calls the encoder.
- Static (pinned) routes and `skip_paths`/`skip_trains` (auto_router.rb:107-110, 227-231, 71-76).
- `compute_for_train_group` (auto_router.rb:240-276). It runs `path` and `js_evaluate_combos`, then a `max_by` sanity-check pass through the game's revenue, which mutates route caches. The model has the two parts but not the glue, the sanity check or the marshalling between Ruby and JavaScript.
- `compute`'s and `compute_new`'s sort of the trains by price, and the `flat_map` over groups. The trains come in the order given.
- PathWalk.PathWalker.Visit: the connection key is modelled as the multiset of the chains' paths. The Ruby code sorts the path list, and a sorted list is determined by its multiset, so the two keys agree. The model compares paths as values, by their nodes and edges; in Ruby the key holds path objects, so two distinct path objects with equal nodes and edges could give two keys there and one here.
- PathWalk.SortDescending: the tie order of `sort_by(&:revenue).reverse` is not pinned. Ruby's `sort_by` is not stable. The model puts a route before routes of equal revenue, and the proved properties do not depend on ties.
- PathWalk.PathWalker.BuildRoutes: the clone of the connection array, and `route.routes = [route]`. These only break aliasing between engine objects.
- Exceptions the trains loop does not rescue are not modelled. The rescued errors are modelled: `NoToken`, `RouteTooShort` and `GameError` become `Rejected`.
- Combos.EvaluateCombos: requires at least one train. With none, the Ruby code reads the routes of train 0, which do not exist, and fails.
- Search.AutorouteOptimal: the optimality theorem relies on two hypotheses. First, the game's exact revenue never exceeds the summed estimates. The source leaves this as an open question (auto_router.rb:540-541). Second, each train's list is sorted best-first with a nonnegative head. `path` sorts the lists best-first (auto_router.rb:234). The nonnegative head is an assumption about the game's revenue. Without them the pruning can cut off a better selection.
- Search.Router.NewRoute: the empty result on failure assumes the router was given a flash callback. With the default nil flash (auto_router.rb:12), the failure handler raises at `self.flash` (auto_router.rb:42) before `callback([])`, and `running` stays set. The model does not model that crash.
- `real_revenue`'s side effects on route caches (`clear_cache!`, `routes=`). In the model, exact revenue is a pure oracle.

## Notes on the source

- `is_worth_adding_trains` compares the raw summed estimate, not the overlap-adjusted estimate. An overlapping selection is still extended when its raw estimate plus the bound beats the best. The model follows the code.
- `path_abort` only decides whether to abort a walk branch. It never removes trains from later steps.
- `js_evaluate_combos` seeds combos only from train 0's routes. A combination that leaves train 0 without a route is never built, and `Combos.GeneratedComplete` is stated for draws that start at train 0.
- In `find_best_combo`, the "without this train" recursion runs once for each route of the frame, not once per frame. The model makes the same repeated calls.
- `new_autoroute` with no trains, or with a train that has no candidate route, raises a type error. The model returns `None` in both cases. `new_route`'s failure handler first calls the flash callback and only then hands back no routes. When the router was built without a flash callback (the default nil), that call raises: the callback is never called and `running` stays set.
