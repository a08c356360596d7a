# EasyEDA bridge: verified model

EasyEDA MCP Pro connects an MCP server to the EasyEDA Pro editor. This project models the
four parts of it whose behaviour spans many steps, and proves what they promise.

**Schematic nets** (`Connectivity`, `NetModel`, `NetInference`, `NetTheorems`, `NetMeaning`,
`WireFollow`, `MoveMeaning`, `Geometry`, `CollisionGuard`). The extension infers nets from wire coordinates with a
path-compressing union-find, per-root label sets that later unions make stale, and fresh
names for unlabelled classes. `NetModel` says on plain sets of points, segments and labels
what the result is; `NetInference` follows the loops and ends with exactly that;
`NetTheorems` reads off who is on which net. `WireFollow` moves a component with its wires
and shows that a clean move keeps the inferred partition.

**The bridge protocol** (`Text`, `Chunking`, `ChunkTable`, `Framing`, `HotSwap`,
`HotSwapReplies`, `BridgeManager`, `BridgeCauses`, `ExtensionConnection`, `ExtensionSafety`,
`ScanOrder`, `SessionMeaning`, `SessionRequests`, `ExtensionSession`). Sending in chunks and
putting them together again, the bytes of the frames on the wire, swapping the dispatcher at
run time, the server's session and request table, and the extension's connection machine with
its runs, generations and timers. Each is a step function over events; the classes make
exactly those steps; the theorems are about every run.

**Block ranks** (`BlockGraph`). The bounded relaxation over block edges, its value as a
longest walk, and the placement order it gives.

**Layout** (`SchematicGeometry`, `Placement`, `PlacementMeaning`, `PlacementReport`,
`PlannerModel`, `Planner`, `PlannerTheorems`, `PlanSafety`, `PlanExact`, `PlanMeaning`,
`PlanReport`, `Operations`, `OverlapTheorems`, `OverlapMeaning`, `BlockDetector`,
`BlockPartition`, `BlockHomes`). Checking a placement and searching the grid, the functional
layout plan, resolving overlaps, and the blocks the components end in.

Beside the theorems about whole runs and whole results, the modules `NetMeaning`,
`MoveMeaning`, `ChunkTable`, `HotSwapReplies`, `BridgeCauses`, `ScanOrder`, `SessionMeaning`,
`SessionRequests`, `PlacementMeaning`, `PlacementReport`, `PlanMeaning`, `PlanReport`,
`OverlapMeaning` and `BlockHomes` say what each result is in the fields of inputs and outputs
alone, without the functions that compute it.

`Basics` holds what several parts share: optional values, orders, the stable sort,
selections and groupings.

## How the source is represented

- Coordinates are integers, in thousandths of a unit, so a point and its rounded key are the
  same thing. `Operations` uses real numbers and keeps `EPSILON`, because centers need halves.
- `localeCompare` is a parameter `less`. Only results that need an order ask that it be a
  strict total order. `compareIds` is written out, by code unit.
- A distance is compared by its square; an overlap carries its depth.
- Sorting is the stable sort for the source's comparator.
- Text is a sequence of UTF-16 code units; a digest is an arbitrary function.
- Timers, socket callbacks, frames and the editor's acceptance of a rewrite are events or
  parameters that take any value in any order.
- A method that loops or updates state is proved equal to a function or step; the theorems
  are stated about those.

## Where the code does less than it seems to

Each of these is a lemma below, with the exact condition or a concrete input.

- `BlockPartition.DetectionPartitionsIff`: two components with one id and declared blocks end
  in two places.
- `BlockGraph.PlacementIsTopological`: at the clamp 9 the id decides, not the edge.
- `Framing.ChunkFramesPassIff`, `Framing.FrameThreshold`: the chunk size counts code units,
  the server's limit counts bytes of the escaped frame. Below 3 * 16384 + 60 bytes plus the
  id a payload of three-byte units has a chunk frame that closes the connection.
- `Framing.PlainFramesPassIff`: so does an unchunked payload of half the limit in such units,
  at every limit from 12 on.
- `HotSwap.RevertLastsIff`: a commit that waits for its digest or evaluation overtakes a revert.
- `HotSwap.FailedPushSwapsIff`, `HotSwap.LostReplySwaps`: a push fails after the swap when the
  commit's reply times out or is lost, or reports another build id, although the comment of
  `pushDispatcher` (src/bridge/hotswap.ts:80-83) says that the extension keeps its previous
  dispatcher when a step fails.
- `BridgeManagers.SweptEarlyIff`: the sweep ignores a request's own longer timeout.
- `BridgeManagers.DisconnectLastsIff`: a reconnect timer that a later one has replaced is
  never cleared and listens again after a disconnect.
- `ExtensionSafety.DisconnectIsFinalIff`: an auto-connect switch still being saved reconnects
  after a disconnect.
- `ExtensionSafety.FailedRunRetriesIff`: one socket of a scan that opens and closes before its
  hello, on any port, leaves the scan's end without a retry, although the comment in
  `recoverConnection` (easyeda-bridge-extension/src/index.ts:889-890) wants a failed handshake
  to count as one failed port only.
- `CollisionGuard.GuardedIff`, `CollisionGuard.ObliqueWireUnreported`: oblique segments are
  outside the guard unless axis-aligned neighbours cover them.
- `PlannerTheorems.RowApartIff`: snapping makes parts of one block overlap unless each keeps
  clear; the planner does not check it.
- `PlanExact.RowInsideIff`, `PlanExact.UnpaddedPartSticksOut`: with less than half a grid step
  of padding snapping pushes parts out of their block.
- `OverlapTheorems.ResultKeepsIff`: parts that share an id all receive the same placement.

## Model

| member | source | states |
|---|---|---|
| DisjointSets.DisjointSet.Find | easyeda-bridge-extension/src/dispatcher.ts:922-929 | Registers an unknown key as its own class, otherwise leaves every class as it is however much it compresses; returns the root the key had; ends because heights fall along parent links. |
| DisjointSets.DisjointSet.Union | easyeda-bridge-extension/src/dispatcher.ts:934-938 | Registers both keys if they are new, joins exactly their two classes, hanging the second root under the first, and records the link. |
| DisjointSets.SameRootIffConnected | easyeda-bridge-extension/src/dispatcher.ts:920-940 | Two keys have the same root iff they are connected by the links joined so far (reflexive, symmetric and transitive closure). |
| DisjointSets.ForestAcyclic | easyeda-bridge-extension/src/dispatcher.ts:920-940 | Climbing parent links never leaves the class and never returns to a non-root key: the parent map stays an acyclic forest. |
| DisjointSets.RepresentsUnion | easyeda-bridge-extension/src/dispatcher.ts:934-938 | Redirecting one class to the other's root represents the old links plus the new one. |
| DisjointSets.ForestCompress | easyeda-bridge-extension/src/dispatcher.ts:922-929 | Pointing a key straight at its root keeps the forest and every root. |
| NetInference.NetMap.EnsureEntry | easyeda-bridge-extension/src/dispatcher.ts:990-999 | Adds an empty entry for a missing name and changes nothing else. |
| NetInference.NetMap.PushUnique | easyeda-bridge-extension/src/dispatcher.ts:1001-1010 | Adds a node at the end of a list unless name, component or pin is empty or the list has an entry with that component and pin; lists without a repeated pin stay so. |
| NetInference.AddNetLabel | easyeda-bridge-extension/src/dispatcher.ts:1082-1089 | An empty name does nothing; any other is stored under the point's current root so that every label given so far is still held by its class and nothing else is. |
| NetInference.JoinPolyline | easyeda-bridge-extension/src/dispatcher.ts:1096-1099 | Adds exactly the consecutive vertex pairs of the wire to the joined links. |
| NetInference.ReadWires | easyeda-bridge-extension/src/dispatcher.ts:1091-1103 | After all wires the links are all their segments, the known points all their vertices, and the held labels exactly the wires' nets at their first vertices, stale roots included. |
| NetInference.RenormaliseRoots | easyeda-bridge-extension/src/dispatcher.ts:1106-1113 | Moves every label to a current root without losing or misattaching one, whatever unions made its root stale. |
| NetInference.ReadFlags | easyeda-bridge-extension/src/dispatcher.ts:1115-1122 | Adds exactly the labels of flags and ports that carry a net and a position. |
| NetInference.LeastPoints | easyeda-bridge-extension/src/dispatcher.ts:1038-1045 | Finds, for every class, its least point in the given order, leaving the classes alone. |
| NetInference.FreeNumber | easyeda-bridge-extension/src/dispatcher.ts:1053-1058 | The search for a free number ends at the first name that is not taken. |
| NetInference.AddUnnamedWireNetLabels | easyeda-bridge-extension/src/dispatcher.ts:1033-1062 | Gives every unlabelled class, in the order of least points, the next name not taken, and no other class a name. |
| NetInference.ReadParts | easyeda-bridge-extension/src/dispatcher.ts:1129-1161 | Pushes every numbered, located pin of every named component into all nets of its point's class. |
| NetInference.AddCoordinateFallbackNets | easyeda-bridge-extension/src/dispatcher.ts:1064-1162 | The whole loop nest over union-find and maps ends with the net map the specification on sets of points, segments and labels defines; no wire at all changes nothing. |
| NetTheorems.InferredMembership | easyeda-bridge-extension/src/dispatcher.ts:1080-1161 | With at least one wire, a (component, pin) is in net N after iff it was before or the pin's point is connected through wire vertices to a wire or flag labelled N, or N is the fresh name of its unlabelled class; the entries are the old names, the labels and the fresh names. |
| NetTheorems.ShareNetIff | easyeda-bridge-extension/src/dispatcher.ts:1115-1161 | Two points have a net in common iff their classes share a label, or both are unlabelled and connected. |
| NetTheorems.WireOrderIrrelevant | easyeda-bridge-extension/src/dispatcher.ts:1091-1127 | Any permutation of the wires gives the same net map. |
| NetTheorems.AnonymousNamesDiffer | easyeda-bridge-extension/src/dispatcher.ts:1047-1060 | Different unlabelled classes get different names. |
| NetTheorems.NamesOfUnlabelled | easyeda-bridge-extension/src/dispatcher.ts:1033-1062 | An unlabelled class carries exactly one name, numbered by its least point and not among the taken ones. |
| NetTheorems.NamesOfLabelled | easyeda-bridge-extension/src/dispatcher.ts:1105-1127 | A labelled class keeps exactly its labels: no fresh name is added to it. |
| NetMeaning.InferredMeans | easyeda-bridge-extension/src/dispatcher.ts:1064-1162 | From wires, flags and pins alone, on sets and polylines that share vertices: which nets exist afterwards, and which (component, pin) each of them lists. |
| NetMeaning.InferredOnce | easyeda-bridge-extension/src/dispatcher.ts:1001-1010 | If no net listed a pin of a component twice before, none does afterwards, for any wires and parts. |
| NetMeaning.InferredListing | easyeda-bridge-extension/src/dispatcher.ts:1129-1161 | Every old list is a prefix of the new one; the rest is exactly the pins on the net it did not list, each once, as read first, with that reading's own place, in reading order. |
| NetMeaning.PartsRead | easyeda-bridge-extension/src/dispatcher.ts:1129-1161 | The nodes read are the numbered located pins of the designated components with a pin list, part by part and pin by pin, each once. |
| NetMeaning.NamesMean | easyeda-bridge-extension/src/dispatcher.ts:1081-1127 | The nets of a point are the names of the wires and flags its wiring leads to, or, if there are none, the fresh name of its wiring. |
| NetMeaning.FreshNumber | easyeda-bridge-extension/src/dispatcher.ts:1033-1062 | A fresh name is N$ with a number from 1 on that no existing name has; every smaller number is that of an existing name or of an unnamed piece of wiring whose least vertex comes before. |
| NetModel.NextFreeIsLeast | easyeda-bridge-extension/src/dispatcher.ts:1053-1057 | The number chosen is the least free one from the start on: every smaller one is taken. |
| NetModel.AnonNameInjective | easyeda-bridge-extension/src/dispatcher.ts:1053-1056 | Different numbers print as different names, so skipping taken names ends. |
| WireFollow.ShiftWireLine | easyeda-bridge-extension/src/dispatcher.ts:3137-3163 | Both line shapes: some result iff a vertex is on a target, and then exactly those vertices are moved, extra numbers kept. |
| WireFollow.ShiftNumbers | easyeda-bridge-extension/src/dispatcher.ts:3155-3161 | In-place edit of the copied flat line: the array ends as the shifted line, and the flag tells whether any pair was hit. |
| WireFollow.ShiftedVertices | easyeda-bridge-extension/src/dispatcher.ts:3137-3163 | The vertices read from a rewritten line are the old ones, each followed if it was on a target. |
| WireFollow.FollowConnectedWires | easyeda-bridge-extension/src/dispatcher.ts:3176-3225 | Every touched wire the editor accepts is rewritten once, no other changes, and the moved and failed ids are exactly those; empty targets or a zero delta do nothing. |
| WireFollow.MoveComponent | easyeda-bridge-extension/src/dispatcher.ts:3871-3922 | A position change moves the part and its pins by the delta; every wire on an old pin point that the editor accepts follows, every other wire stays, and the two reports list exactly those that followed and that failed. Without a change, and for a flag or port, no wire changes. |
| WireFollow.MovePreservesPartition | easyeda-bridge-extension/src/dispatcher.ts:3137-3225 | After a clean move (only this part stands on its old pin points, nothing unmoved on the new ones, all rewrites accepted) two visible points share a net iff they did before, and each class keeps its explicit labels. |
| WireFollow.MoveKeepsNamedNets | easyeda-bridge-extension/src/dispatcher.ts:3903-3922 | After a clean move the inferred net map lists the same pins under every name that existed or is a label. |
| WireFollow.MovedConnectivity | easyeda-bridge-extension/src/dispatcher.ts:3176-3225 | Points are connected after a clean move iff their old places were. |
| WireFollow.PinsFollow | easyeda-bridge-extension/src/dispatcher.ts:3903-3922 | Every located pin of the moved sheet is the followed image of its old place, with its number. |
| MoveMeaning.FlatVertices | easyeda-bridge-extension/src/dispatcher.ts:946-964 | A flat line holds one vertex for every two numbers; a dangling number carries none. |
| MoveMeaning.PairVertices | easyeda-bridge-extension/src/dispatcher.ts:946-964 | A line of pairs holds, in order, the first two numbers of every entry that has two. |
| MoveMeaning.FlatNumbers | easyeda-bridge-extension/src/dispatcher.ts:3155-3163 | Number by number: both numbers of a vertex on a target are shifted, by dx and dy, and every other number stays. |
| MoveMeaning.PairNumbers | easyeda-bridge-extension/src/dispatcher.ts:3145-3154 | Entry by entry: the first two numbers of an entry on a target are shifted; further numbers and all other entries stay. |
| MoveMeaning.FollowedMeans | easyeda-bridge-extension/src/dispatcher.ts:3202-3223 | A touched wire with an id whose rewrite the editor accepts is rewritten; every other stays; none changes id, net or style. |
| MoveMeaning.MovedIdsMean | easyeda-bridge-extension/src/dispatcher.ts:3202-3223 | The report of moved wires is the ids of exactly the wires that follow, in list order. |
| MoveMeaning.FailedIdsMean | easyeda-bridge-extension/src/dispatcher.ts:3202-3223 | The report of failures is exactly the touched wires that stay behind, in list order, one without an id as <unknown>. |
| MoveMeaning.MovePartMeans | easyeda-bridge-extension/src/dispatcher.ts:3871-3922 | The part keeps all but its place and its pins' places, which all move by (dx, dy). |
| CollisionGuard.IntersectionExact | easyeda-bridge-extension/src/dispatcher.ts:334-361 | The segment test fires iff both segments are axis-aligned and share a point. |
| CollisionGuard.IntersectionLowest | easyeda-bridge-extension/src/dispatcher.ts:334-361 | The reported point is the common one with the smallest coordinates. |
| CollisionGuard.PolylineIntersection | easyeda-bridge-extension/src/dispatcher.ts:363-374 | Finds a crossing iff the polylines have one, and reports that of the first crossing pair in loop order. |
| CollisionGuard.CrossesAtBoth | easyeda-bridge-extension/src/dispatcher.ts:363-374 | A reported point lies on both polylines. |
| CollisionGuard.FindForeignNetCollision | easyeda-bridge-extension/src/dispatcher.ts:487-530 | None for an empty net or polyline; otherwise the first foreign wire of the list that is crossed, with its first crossing, else the first foreign pin or flag that is met, and none iff neither exists. |
| CollisionGuard.CrossingExact | easyeda-bridge-extension/src/dispatcher.ts:363-374 | For rectilinear polylines the crossing test is exactly "some point of the plane lies on both". |
| CollisionGuard.PointOnPolylineExact | easyeda-bridge-extension/src/dispatcher.ts:323-332 | For rectilinear polylines the point test is exact. |
| CollisionGuard.PointMetIff | easyeda-bridge-extension/src/dispatcher.ts:323-332 | For any polyline, rectilinear or not: a point is met iff it lies on an axis-aligned segment, or is an end of an oblique one, or is the only vertex. |
| CollisionGuard.SegmentGuardedIff | easyeda-bridge-extension/src/dispatcher.ts:334-361 | A single drawn segment is guarded exactly against all rectilinear wires iff it is axis-aligned. |
| CollisionGuard.GuardedIff | easyeda-bridge-extension/src/dispatcher.ts:334-374 | A drawn polyline is guarded exactly against all rectilinear wires iff every grid point and unit grid edge that an oblique segment touches is touched by an axis-aligned segment too. |
| CollisionGuard.UnitDiagonalGuarded | easyeda-bridge-extension/src/dispatcher.ts:334-374 | A polyline that is not rectilinear can still be guarded exactly: a unit diagonal between axis-aligned neighbours. |
| CollisionGuard.ObliqueWireUnreported | easyeda-bridge-extension/src/dispatcher.ts:334-361 | An oblique wire through a rectilinear polyline is not reported. |
| LayoutGeometry.SegmentsIntersectExact | src/layout/geometry.ts:119-141 | The orientation tests hold iff the closed segments share a point, degenerate and collinear cases included. |
| LayoutGeometry.SegmentIntersectsRectExact | src/layout/geometry.ts:143-155 | The rectangle test holds iff the segment meets the closed rectangle, also when both ends are outside. |
| LayoutGeometry.PointOnSegmentExact | src/layout/geometry.ts:105-113 | The point test holds iff the point is on the closed segment. |
| BlockGraph.DeriveBlockEdges | src/layout/graph.ts:146-175 | The edges are exactly those of the first component edge with each key of net and turned block pair, so the first of a directed and an undirected one survives; no key occurs twice. |
| BlockGraph.OrientedExact | src/layout/graph.ts:146-175 | What one link yields, from the lists of the blocks: an edge between the last blocks that list its ends, if they differ and have ids; a directed link keeps its direction, an undirected one is turned iff base ranks, or ids on a tie, demand it. |
| BlockGraph.EdgesMean | src/layout/graph.ts:146-175 | The edges are exactly those of the first link of each key, and every link that joins two blocks, directed or not, has an edge with its net and step. |
| BlockGraph.DerivedEdgesSound | src/layout/graph.ts:146-175 | A derived edge joins two different known blocks; an undirected one runs from the lower base rank, or the lower id on a tie. |
| BlockGraph.RelaxPass | src/layout/graph.ts:192-210 | One pass keeps every rank attained by a walk and at least relaxes every directed edge; no change means a fixpoint. |
| BlockGraph.RelaxRanks | src/layout/graph.ts:191-210 | Ranks stay between base rank and 9 and each is attained by a walk on all graphs; on acyclic ones n passes give every block the one maximum over walks of min(9, start rank + length). |
| BlockGraph.EdgeOrderIrrelevant | src/layout/graph.ts:176-210 | Edge lists with the same directed steps give the same rank. |
| BlockGraph.EdgesClimb | src/layout/graph.ts:199-203 | On acyclic graphs rank(target) >= min(9, rank(source) + 1) for every directed edge. |
| BlockGraph.OrderPermutes | src/layout/graph.ts:225-229 | The placement order holds the same blocks. |
| BlockGraph.OrderExact | src/layout/graph.ts:225-229 | Of any two blocks with different ids one stands before the other iff its rank is smaller, or equal with a smaller id. |
| BlockGraph.OrderFollowsEdges | src/layout/graph.ts:225-229 | Of two blocks whose ranks climb like an edge the first stands before the second iff its rank is below 9 or its id is smaller. |
| BlockGraph.PlacementIsTopological | src/layout/graph.ts:191-229 | On acyclic graphs a directed edge's source stands before its target iff the source rank is below 9 or the source id is smaller. |
| BlockGraph.PlaceBlocks | src/layout/graph.ts:136-229 | From component edges to the order in one: derivation, sorting by id, relaxation and order; every block is listed with a rank that some walk attains, and if the surviving edges are acyclic the ranks are those of the longest walks and the order follows every directed edge up to the clamp. |
| Text.SlicesRebuild | easyeda-bridge-extension/src/index.ts:806-818 | Slices of any positive size, enough of them, join to the text. |
| Chunking.Send | easyeda-bridge-extension/src/index.ts:795-823 | Over half the frame limit, with chunking offered: the numbered slices under one id; otherwise one plain frame. |
| Chunking.ChunkCountBound | easyeda-bridge-extension/src/index.ts:805-806 | A payload within the aggregate cap needs at most 33 chunks. |
| Framing.ChunkFrameBytes | easyeda-bridge-extension/src/index.ts:809-817 | A chunk frame has the bytes of its envelope plus those of its slice in JSON and UTF-8: quotes, backslashes and cut surrogates escaped. |
| Framing.NoLargerFrame | easyeda-bridge-extension/src/index.ts:802-819 | No chunk frame of a payload within the aggregate cap exceeds three bytes a unit of the chunk size, 6 for two cut surrogates, and 54 for the envelope, plus the length of the id. |
| Framing.ChunkFramesPassIff | src/bridge/manager.ts:327-337 | The chunk frames of all payloads within the aggregate cap pass the server's limit iff that largest frame does; the same with payloads that are JSON string literals. |
| Framing.FrameThreshold | src/bridge/manager.ts:327-337 | It does iff the limit is at least 3 * 16384 + 60 plus the length of the id. |
| Framing.SenderThreshold | easyeda-bridge-extension/src/index.ts:807-807 | For the sender's ids of time and counter, which have at most 45 characters, the same threshold. |
| Framing.ChunkIdPlain | easyeda-bridge-extension/src/index.ts:807-807 | These ids need no escapes, so the envelope holds them as they are. |
| Framing.PlainBytes | src/bridge/manager.ts:327-337 | A plain frame passes iff its UTF-8 length is within the limit. |
| Framing.PlainFramesPassIff | easyeda-bridge-extension/src/index.ts:802-822 | The plain frames of all string literals up to half the limit pass iff three bytes a unit do, which no limit from 12 on grants. |
| Chunking.ChunkReceiver.HandleChunk | src/bridge/manager.ts:274-325 | Validates, expires, stores, drops on a changed total, rejects above the cap, or routes the joined text, exactly as one step of the receiving table. |
| Chunking.ChunkReceiver.Sweep | src/bridge/manager.ts:284-286 | Drops exactly the assemblies older than the limit. |
| ChunkTable.ReceiveMeans | src/bridge/manager.ts:274-325 | Every envelope, field by field: a bad one changes nothing; any other ends the assemblies older than a minute, and its own is then dropped, refused, routed or kept with the piece in its slot. |
| ChunkTable.TableHolds | src/bridge/manager.ts:274-325 | Whatever envelopes arrive, every assembly in the table is open: 1 to 4096 slots, not all filled, exactly the filled ones counted, and bytes within the cap. |
| ChunkTable.NothingStale | src/bridge/manager.ts:284-286 | After a good envelope no assembly older than a minute is left. |
| ChunkTable.RoutedIsWhole | src/bridge/manager.ts:314-325 | What is routed is the join of a full set of pieces. |
| Chunking.ChunkRoundTrip | src/bridge/manager.ts:274-325 | For a payload within the aggregate cap, every chunk delivered once, in any order, in time, among any other envelopes: the last one routes exactly the payload, every earlier one is stored, none trips the cap. |
| HotSwap.HotSwapLoader.HandleBegin | easyeda-bridge-extension/src/index.ts:506-537 | A valid header replaces the buffer by an empty one; anything else changes nothing. |
| HotSwap.HotSwapLoader.HandleChunk | easyeda-bridge-extension/src/index.ts:538-577 | Stores a piece with exact counters, or drops the transfer above four times the announced size. |
| HotSwap.HotSwapLoader.HandleCommit | easyeda-bridge-extension/src/index.ts:408-433 | A commit that is not allowed changes nothing; an allowed one takes the buffer away, and only a complete one of the announced length goes on to the digest check. |
| HotSwap.HotSwapLoader.OnDigest | easyeda-bridge-extension/src/index.ts:434-441 | A bundle is evaluated only if its digest is the announced one. |
| HotSwap.HotSwapLoader.OnEvaluated | easyeda-bridge-extension/src/index.ts:447-482 | Only a valid dispatcher becomes active. |
| HotSwap.HotSwapLoader.HandleRevert | easyeda-bridge-extension/src/index.ts:582-596 | Drops the buffer and makes the baked dispatcher active. |
| HotSwapReplies.RefusedUnlessAllowed | easyeda-bridge-extension/src/index.ts:391-406 | Over every run: unless the last hello allowed it, begin, piece, commit and revert are refused and change nothing. |
| HotSwapReplies.BeginMeans | easyeda-bridge-extension/src/index.ts:506-537 | A good header, when allowed, is answered ready and opens an empty buffer in place of any earlier one; any other is refused and changes nothing. |
| HotSwapReplies.PieceMeans | easyeda-bridge-extension/src/index.ts:538-577 | A piece for a slot of the live buffer is stored and answered with the number of filled slots, unless the stored text then exceeds four times the announced size, which drops the transfer; any other is refused. |
| HotSwapReplies.CommitMeans | easyeda-bridge-extension/src/index.ts:408-433 | An allowed commit closes the buffer and passes the text on iff every slot is filled and it has the announced length in bytes. |
| HotSwapReplies.DigestMeans | easyeda-bridge-extension/src/index.ts:434-443 | The digest of a waiting bundle decides it once: it goes on to its evaluation iff it has the announced one, and is gone from the waiting ones either way. |
| HotSwapReplies.EvaluatedMeans | easyeda-bridge-extension/src/index.ts:447-482 | An evaluation ends once: a valid bundle becomes the active dispatcher, any other changes nothing. |
| HotSwapReplies.RevertMeans | easyeda-bridge-extension/src/index.ts:582-596 | An allowed revert drops the buffer, makes the baked dispatcher active and tells whether a pushed one was. |
| HotSwapReplies.HelloMeans | easyeda-bridge-extension/src/index.ts:1007-1033 | A hello sets the permission and nothing else, so one that repeats it makes no difference to anything that follows. |
| HotSwap.ReachableInv | easyeda-bridge-extension/src/index.ts:408-595 | In every reachable state the live buffer has received = filled slots and bytes = stored lengths <= 4 * byteLength, its pieces were sent for an announced header, and an active pushed dispatcher was transferred as announced with a matching digest. |
| HotSwap.ActiveChanges | easyeda-bridge-extension/src/index.ts:408-595 | The active dispatcher changes only by a revert or by the evaluation of a bundle with announced length and digest. |
| HotSwap.RevertLastsIff | easyeda-bridge-extension/src/index.ts:582-596 | A revert lasts until the next commit iff no commit in flight can still become active. |
| HotSwap.PushDispatcher | src/bridge/hotswap.ts:84-106 | Begin, slices, commit against the loader, up to the first call that is refused, not answered or not delivered: the loader is where the delivered calls leave it, and the commit is taken iff hot swap is allowed, the header is valid, every earlier call is answered and the commit arrives; then the waiting bundle is exactly the source, and the budget is never hit. |
| HotSwap.PushAndFinish | src/bridge/hotswap.ts:84-116 | The pushed source becomes active iff the commit is taken, the digest matches and the evaluation is valid; the push succeeds iff, moreover, the commit's reply arrives and reports the announced build id. |
| HotSwap.FailedPushSwapsIff | src/bridge/hotswap.ts:80-116 | A failed push has swapped iff every call reached the loader, header, digest and evaluation were good, and the commit's reply was lost or reported another build id. |
| HotSwap.LostReplySwaps | src/bridge/manager.ts:604-616 | A commit whose reply times out or is lost swaps and fails; with another digest it fails in the same call and does not swap. |
| HotSwap.PushWithinBudget | easyeda-bridge-extension/src/index.ts:563-571 | The slices sent so far never exceed the announced size. |
| BridgeManagers.BridgeManager.HandleConnect | src/bridge/manager.ts:164-192 | Starts listening only from a down state; failure to listen is recorded. |
| BridgeManagers.BridgeManager.HandleHandshake | src/bridge/manager.ts:423-517 | A rejected handshake changes nothing; an accepted one from a new client settles all waiting requests first. |
| BridgeManagers.BridgeManager.HandleCall | src/bridge/manager.ts:595-637 | Issues the next id with its timer, or refuses without a session. |
| BridgeManagers.BridgeManager.HandleResponse | src/bridge/manager.ts:674-711 | Settles a waiting request once and clears its timer; an unknown id changes nothing. |
| BridgeManagers.BridgeManager.OnTimer | src/bridge/manager.ts:604-616 | A timeout settles and drops its request. |
| BridgeManagers.BridgeManager.SettleWhere | src/bridge/manager.ts:713-719 | The loop over the table clears the timers of, settles and drops exactly the selected requests, in issue order. |
| BridgeManagers.BridgeManager.OnSweep | src/bridge/manager.ts:807-824 | Settles exactly the requests as old as the configured timeout. |
| BridgeManagers.BridgeManager.OnHeartbeat | src/bridge/manager.ts:721-747 | A failing send ends the session; silence only closes the socket. |
| BridgeManagers.BridgeManager.OnSocketClosed | src/bridge/manager.ts:381-412 | Only the current socket's close ends the session, settles what waits and arms a reconnect timer; any other close changes nothing. |
| BridgeManagers.BridgeManager.ArmReconnect | src/bridge/manager.ts:764-792 | Unless disconnected, arms a new timer and remembers it in place of the earlier one, which stays armed. |
| BridgeManagers.BridgeManager.OnReconnectTimer | src/bridge/manager.ts:787-792 | Listens again from a down state; a failure arms the next timer. |
| BridgeManagers.BridgeManager.HandleDisconnect | src/bridge/manager.ts:639-672 | Stops timers, the remembered reconnect timer among them, settles what waits, drops socket and server. |
| BridgeCauses.EveryEventTraced | src/bridge/manager.ts:381-824 | Over every run, from the events alone: each event settles exactly the waiting requests it has a reason to end, once each, in issue order, with that reason (a good or bad response, its timer, the sweep, another client, the current socket's close, a disconnect or a failing heartbeat); all others keep waiting as they were. |
| BridgeCauses.SettlementsTraced | src/bridge/manager.ts:381-824 | Every settlement of a run goes back to one event of the run that gives its cause. |
| BridgeCauses.CallsIssue | src/bridge/manager.ts:595-637 | A call over a session waits under the next id with its own name, time and timeout, under its own timer; without a session it issues nothing. |
| BridgeCauses.LostClientRetries | src/bridge/manager.ts:381-412 | The close of the current socket leaves the server listening as it was with a new retry armed; any other close changes nothing. |
| BridgeCauses.RetriesGoOn | src/bridge/manager.ts:764-800 | A retry that fires does nothing while the server is up; else the server listens again, or has failed with a new retry armed. |
| BridgeManagers.DisconnectLastsIff | src/bridge/manager.ts:764-800 | After a disconnect the manager stays off until the next connect or handshake iff no reconnect timer but the remembered one was armed. |
| BridgeManagers.TwoLostClientsWakeUp | src/bridge/manager.ts:764-800 | Two clients lost within one delay: the forgotten timer listens again after the disconnect. |
| BridgeManagers.ReachableInv | src/bridge/manager.ts:381-824 | Over every run: connected iff a current socket, a hello and both interval timers; outside it nothing waits, so every issued request is settled; an id is in the table iff issued and unsettled; each entry has its timer; no request is settled twice. |
| BridgeManagers.LateEventsChangeNothing | src/bridge/manager.ts:674-679 | A response or timer of a settled request changes nothing. |
| BridgeManagers.NewClientEmptiesTable | src/bridge/manager.ts:446-456 | A handshake by another client leaves an empty table and every old request settled. |
| BridgeManagers.SweptEarlyIff | src/bridge/manager.ts:807-824 | The sweep can end a request before its own timeout iff that timeout exceeds the configured one, which alone the sweep looks at. |
| ExtensionSession.Session.ConnectInternal | easyeda-bridge-extension/src/index.ts:1261-1296 | Returns when connected or already scanning; a manual request cancels the scan; then a new run starts at the first port. Afterwards there is a session or a scan. |
| ExtensionSession.Session.ResumeScan | easyeda-bridge-extension/src/index.ts:1298-1309 | Stops on success, on the last port, or for a run that is no longer current; otherwise tries the next port. |
| ExtensionSession.Session.FinishScan | easyeda-bridge-extension/src/index.ts:1309-1328 | The current run that is still connecting marks the session offline, with a retry armed unless the user has disconnected; any other run ends only itself. |
| ExtensionSession.Session.ConnectToPort | easyeda-bridge-extension/src/index.ts:1060-1258 | Starts the current run's next attempt with its timers, or a failed one when there is no socket API; the scan waits for it. |
| ExtensionSession.Session.HandleOpen | easyeda-bridge-extension/src/index.ts:1130-1144 | A live, unsettled attempt takes the socket. |
| ExtensionSession.Session.HandleMessage | easyeda-bridge-extension/src/index.ts:1145-1165 | The first hello of a live attempt makes the session connected on that attempt's port. |
| ExtensionSession.Session.HandleClose | easyeda-bridge-extension/src/index.ts:1166-1193 | A live attempt fails; if its socket was the session's, the session goes down, and a connected one has a retry armed unless the user has disconnected. |
| ExtensionSession.Session.HandleError | easyeda-bridge-extension/src/index.ts:1194-1210 | A live attempt fails and gives up its socket. |
| ExtensionSession.Session.TimeoutFires | easyeda-bridge-extension/src/index.ts:1090-1114 | The attempt fails and no longer holds the session's socket, whatever run it belongs to. |
| ExtensionSession.Session.RegisterFallback | easyeda-bridge-extension/src/index.ts:1231-1251 | An unopened attempt goes on in the next generation, or fails without another API; callbacks of the generation given up count no more. |
| ExtensionSession.Session.DisconnectInternal | easyeda-bridge-extension/src/index.ts:1334-1349 | Ends the run, clears timers and socket and remembers the request; the session then stays down until asked for again iff no switching-on of auto-connect still waits. |
| ExtensionSession.Session.RecoverConnection | easyeda-bridge-extension/src/index.ts:876-905 | Drops the socket; a scan goes on, anything else is down, and a lost session arms a retry if wanted. |
| ExtensionSession.Session.ArmReconnect | easyeda-bridge-extension/src/index.ts:1391-1401 | Afterwards one timer is armed, an earlier one if there was one, unless the user disconnected. |
| ExtensionSession.Session.ReconnectTimerFires | easyeda-bridge-extension/src/index.ts:1395-1400 | Starts a scan if the session is down, so it is not down afterwards. |
| ExtensionSession.Session.SetAutoConnect | easyeda-bridge-extension/src/index.ts:1443-1447 | Takes the setting at once and waits for it to be saved. |
| ExtensionSession.Session.AutoConnectSettingSaved | easyeda-bridge-extension/src/index.ts:1449-1461 | What follows the wait: after switching on there is a session or a scan, after switching off no retry can fire. |
| ExtensionSession.Session.HandleActivate | easyeda-bridge-extension/src/index.ts:1483-1499 | Starts a scan on the first activation, later only when nothing runs. |
| ExtensionSession.Session.Deactivate | easyeda-bridge-extension/src/index.ts:1505-1512 | A disconnect, with the same lasting effect, and the next activation counts as the first. |
| ExtensionSession.Session.ShowStatus | easyeda-bridge-extension/src/index.ts:1364-1389 | Reloads the setting; a wanted session that is down has a retry armed afterwards. |
| ExtensionConnection.ReachableInv | easyeda-bridge-extension/src/index.ts:876-1401 | Over every run of events: handles are unique, only the attempt a scan waits for is unsettled in the current run, the one armed retry timer is the known one, a connected session has a port and its socket belongs to the attempt that succeeded. |
| ExtensionConnection.StepKeepsInv | easyeda-bridge-extension/src/index.ts:876-1401 | Every single event keeps those invariants. |
| ExtensionSafety.StaleEventsHarmless | easyeda-bridge-extension/src/index.ts:1090-1251 | Callbacks, timers and scan continuations of an older run or generation leave the session as it is; at most the socket of an older run's timed-out attempt is dropped, never that of a connected session. |
| ExtensionSafety.LiveSessionUndisturbed | easyeda-bridge-extension/src/index.ts:1130-1251 | Once connected, no event of an attempt that did not win and no attempt timer touches session or socket. |
| ExtensionSafety.ConnectedHasPortOneTimer | easyeda-bridge-extension/src/index.ts:1145-1165 | Connected implies a port, and at most one retry timer is armed, the one the session knows. |
| ScanOrder.ScanPortsExact | easyeda-bridge-extension/src/connection-policy.ts:25-36 | The scan order is the ten ports from 49620 on, each once: the preferred one first if it is one of them, the others rising. |
| ScanOrder.PortsInOrder | easyeda-bridge-extension/src/index.ts:1296-1304 | Over every order of the events of a run, the ports tried are those of the list in order, each once, and a run that ends without a server has tried them all. |
| SessionMeaning.SessionIsWhole | easyeda-bridge-extension/src/index.ts:876-1401 | After any run: connected iff there is a port and iff the heartbeat runs; then the current run has an attempt on that port that met a server; an attempt is unsettled iff its timeout is armed, and has a fallback timer only while its first socket has not opened. |
| SessionMeaning.SettingIsLast | easyeda-bridge-extension/src/index.ts:1405-1450 | The auto-connect setting is the one read or chosen last. |
| SessionRequests.ConnectMeans | easyeda-bridge-extension/src/index.ts:1261-1304 | A request to connect does nothing while connected, nor, unless the user makes it, while connecting; else it begins a new run, in place of the one under way, with a fresh attempt on the preferred port (49620 if that is out of range) under the timers of its socket path. |
| SessionRequests.NextPortTried | easyeda-bridge-extension/src/index.ts:1298-1301 | When an attempt of the current run has failed the scan goes on with a fresh one on its next port. |
| SessionRequests.ActivateMeans | easyeda-bridge-extension/src/index.ts:1483-1504 | After any run: an activation loads the setting and, if it is on, begins a run from a session that is down (a repeated one only if no scan is ending); nothing else changes. |
| SessionRequests.RetryMeans | easyeda-bridge-extension/src/index.ts:1391-1401 | A retry timer that fires is used up, and begins a run iff the session is down; one that is not armed changes nothing. |
| SessionRequests.SwitchedOnMeans | easyeda-bridge-extension/src/index.ts:1443-1472 | Switching auto-connect on, once saved, lifts the user's disconnect and begins a run iff the session is down. |
| SessionRequests.SwitchedOffMeans | easyeda-bridge-extension/src/index.ts:1443-1476 | Switching it off, once saved, counts as the user's disconnect and leaves no retry armed; a session that is up stays up. |
| SessionRequests.StatusMeans | easyeda-bridge-extension/src/index.ts:1364-1389 | Showing the status reloads the setting; a session that is down then has a retry armed iff it had one, or the setting is on and the user has not disconnected. |
| SessionRequests.HelloMeans | easyeda-bridge-extension/src/index.ts:1130-1165 | A hello connects the session through the live waiting attempt it reaches, lifts the user's disconnect and stops the attempt's timers; every other message changes nothing. |
| SessionRequests.OpenMeans | easyeda-bridge-extension/src/index.ts:1107-1129 | A live waiting attempt's open socket becomes the session's and its fallback is off; one that opens too late changes nothing. |
| SessionRequests.FallbackMeans | easyeda-bridge-extension/src/index.ts:1217-1243 | After any run: a waiting attempt whose first socket has not opened gives it up and goes on with the next, or fails without one; that of an older run only stops its timer. |
| SessionRequests.ScanEndMeans | easyeda-bridge-extension/src/index.ts:1309-1328 | A scan that ends without a server: an older one leaves the session alone; the current one takes a connecting session down, without socket and port, and leaves a retry iff one was armed or the user has not disconnected. |
| SessionRequests.DisconnectMeans | easyeda-bridge-extension/src/index.ts:1334-1349 | A disconnect or deactivation, in any reachable state, leaves no socket, port, heartbeat, scan or retry and supersedes the run. |
| SessionMeaning.ServerIsPreferred | easyeda-bridge-extension/src/index.ts:1301-1305 | The end of a scan that met a server makes its port the one to try first, whatever run it belongs to. |
| SessionMeaning.FailedSessionRetriesIff | easyeda-bridge-extension/src/index.ts:876-905 | A session that fails is down, with a retry armed iff one was, or the last setting wants it and the user has not disconnected. |
| SessionMeaning.ClosedSessionRetriesIff | easyeda-bridge-extension/src/index.ts:1166-1193 | A session whose socket closes is down, and the retry does not depend on the setting. |
| ExtensionSafety.DisconnectIsFinalIff | easyeda-bridge-extension/src/index.ts:1334-1349 | After a disconnect no order of timers, callbacks and half-finished scans connects again without a new request, iff no switching-on of auto-connect still waits for its setting to be saved. |
| ExtensionSafety.ScanEndRetriesIff | easyeda-bridge-extension/src/index.ts:1309-1328 | The end of a failed scan leaves a retry armed iff one was or the session is still connecting and the user has not disconnected. |
| ExtensionSafety.FailedRunRetriesIff | easyeda-bridge-extension/src/index.ts:1060-1328 | Over every order of the events of one run: when its scan has ended without a server, a retry is armed iff no socket of the run closed while it was the session's. |
| ExtensionSafety.EitherEnd | easyeda-bridge-extension/src/index.ts:1166-1193 | For every list of ports both ends happen: with a retry, and, when the first port opens and closes before its hello and no other opens, without. |
| ExtensionSafety.ClosedLastPortRetriesIff | easyeda-bridge-extension/src/index.ts:1166-1193 | When the last port closes before its hello, a retry is armed iff one was or the session was still connecting, the user has not disconnected and the socket was not the session's. |
| SchematicGeometry.SnapNearest | src/schematic-engine/geometry.ts:83-86 | Snapping yields a multiple within half a step and keeps multiples. |
| Placement.CheckCandidate | src/layout/placement.ts:147-218 | The loop collects exactly the conflicts and clearances of border and regions. |
| Placement.AcceptedIff | src/layout/placement.ts:147-218 | Accepted iff inside with the margin and far enough from every region, independent of the region order. |
| PlacementMeaning.SufficientMeans | src/layout/placement.ts:109-118 | The clearance suffices iff the bounds do not overlap and no two of their points are closer than the minimum, or overlap no deeper than a negative one allows. |
| PlacementMeaning.AcceptedMeans | src/layout/placement.ts:147-218 | Accepted iff every edge keeps the margin, and every region of the sheet and the request the distance, that was asked for (the grid step if none was). |
| PlacementMeaning.CodesMean | src/layout/placement.ts:120-127 | The codes of a check are exactly the reasons there are: outside the sheet, overlapping a region of that kind, or too close. |
| Placement.ClearanceIsDistance | src/layout/placement.ts:109-118 | The clearance is attained by two points and is the least distance between points of the two bounds; a negative one means exactly that they overlap. |
| Placement.PreferredCoordinateValues | src/layout/placement.ts:220-234 | Collects the grid values of one axis and orders them by the preference. |
| Placement.ValuesExact | src/layout/placement.ts:220-234 | Those are all multiples from the snapped start to the end, each once, the preferred ones first. |
| Placement.SearchRows | src/layout/placement.ts:280-297 | The two loops with their early return find the first accepted positions and count what they looked at. |
| Placement.CandidateSearch | src/layout/placement.ts:253-298 | Searches every grid origin in preference order up to the maximum. |
| Placement.CheckPlacement | src/layout/placement.ts:300-318 | Accepted, alternatives, or the failure with its codes and count. |
| Placement.AlternativesExact | src/layout/placement.ts:300-306 | The alternatives are feasible grid positions in strict preference order, and a feasible one is missing only behind the maximum number of better ones. |
| Placement.NoFeasiblePositionIff | src/layout/placement.ts:307-317 | The failure is returned iff the candidate is not clear and no grid origin is. |
| PlacementReport.ReportMeans | src/layout/placement.ts:129-218 | The report entry by entry: the border (if the bounds are inside) and every region are measured, in the order of their ids and, for one id, of the lists; the border and exactly the regions nearer than the minimum are reported in that order, with the code each earns, its bounds, the clearance and the minimum. |
| PlacementMeaning.FailureMeans | src/layout/placement.ts:307-317 | A failure names exactly the reasons against the candidate and counts the grid origins there are, none of which is free. |
| PlacementMeaning.OriginsMean | src/layout/placement.ts:253-278 | The origins tried are the grid points at which the moved bounds stay on the sheet, counted from its snapped edge. |
| PlacementMeaning.AlternativesMean | src/layout/placement.ts:236-306 | The alternatives are the candidate moved to free grid places, by the preferred side of the sheet (up and down by its y axis), and a free place is missing only if as many preferred ones as asked for (three if not) are listed. |
| Planner.BuildBlockDrafts | src/layout/planner.ts:192-234 | Groups the components by block, sorted, with the sizes of their rows. |
| Planner.PlaceRow | src/layout/planner.ts:301-323 | The cursor loop places each member at the snapped cursor and moves on by size and spacing. |
| Planner.AttemptSheet | src/layout/planner.ts:352-432 | Reserves block after block around what is occupied, places the members, and ranks all placements. |
| Planner.RankPlacements | src/layout/planner.ts:403-411 | Writes the global rank into each placement without moving it in the list. |
| Planner.PlanFunctionalLayout | src/layout/planner.ts:504-538 | The plan for the page, or for the A3 fallback under its conditions. |
| PlanMeaning.PartsUpright | src/layout/planner.ts:173-190 | In any plan, from the fields of part and component: the rotation is the preferred one if allowed, else the least allowed, else 0; the bounds are the component's sides, exchanged exactly at 90 and 270. |
| PlanMeaning.PlacedIffReserved | src/layout/planner.ts:352-432 | In any plan, feasible or not: every block of the components is reserved once or reported, exactly the parts of reserved blocks are placed, each once, and the plan is feasible iff every block is reserved. |
| PlanMeaning.PlanOrderMeans | src/layout/planner.ts:403-411 | The order of any plan: mains before supports, then by block, then by id; every part carries its own place in it. |
| PlanMeaning.RowsMean | src/layout/planner.ts:285-323 | In any plan the parts of one block stand in one line along the flow, mains first, then by parent, then by id. |
| PlanMeaning.BlocksStandBest | src/layout/planner.ts:266-402 | Each block stands at the first corner if that is free of border, given regions and earlier blocks, else at the uppermost and then leftmost free grid place. |
| PlanReport.PlanReports | src/layout/planner.ts:236-264 | In any plan blocks and problems stand in the order of the block ids; a reserved block has no problem, and a refused one has exactly the codes of the check of its first place beside the blocks reserved before it, each once. |
| PlanMeaning.FallbackMeans | src/layout/planner.ts:504-538 | The plan is that for the page unless this fails on A4, the fallback is allowed, is A3 and is feasible. |
| PlannerTheorems.DraftsPartition | src/layout/planner.ts:192-234 | The drafts hold the components, each exactly once. |
| PlanSafety.FeasiblePlanComplete | src/layout/planner.ts:352-432 | A feasible plan places every component exactly once and lists every one once. |
| PlanSafety.PlanMainsFirst | src/layout/planner.ts:403-411 | In the order of any plan all main parts precede all supports. |
| PlanSafety.PlanBlocksSafe | src/layout/planner.ts:365-402 | The blocks of any plan keep the minimum clearance from the border, every given region and each other. |
| SchematicGeometry.KeepsClearIff | src/layout/planner.ts:301-323 | Two parts placed one after the other keep apart after snapping for every cursor iff whole grid steps within size and spacing reach past the size; a spacing of one grid step is enough. |
| PlannerTheorems.RowApartIff | src/layout/planner.ts:301-323 | For parts of positive size and any spacing the parts of a row never overlap, wherever it starts, iff every part but the last keeps clear in that sense. |
| PlanSafety.PlanPartsSafe | src/layout/planner.ts:285-346 | If every part keeps clear, and the padding is half a grid step (rounded down) or everything is on the grid, every part lies in its own block's reservation and the drawable area, and no two parts overlap. |
| PlanSafety.SpacedPlanPartsSafe | src/layout/planner.ts:285-346 | That holds for arbitrary sizes when the spacing is at least one grid step and the padding at least half a step. |
| PlanExact.PlanPartsSafeIff | src/layout/planner.ts:285-432 | In any plan, for arbitrary sizes, padding and spacing, every part lies in its own block's reservation and no two overlap iff the row of every reserved block does so at the corner of the sheet grid. |
| PlanExact.SoundIff | src/layout/planner.ts:285-323 | For parts of positive size and any spacing that row is sound iff every snapped part ends within the measured length and width and before the next part begins. |
| PlanExact.RowInsideIff | src/layout/planner.ts:285-323 | A row stays inside its block wherever the block stands iff the padding is at least half a grid step, rounded down. |
| PlanExact.UnpaddedPartSticksOut | src/layout/planner.ts:301-323 | Without padding, on a grid of 10 with spacing 10, the second of two parts of 16 ends at 46 in a block 42 long. |
| PlanSafety.GriddedPlanPartsSafe | src/layout/planner.ts:285-346 | It holds for every spacing when sizes, padding and spacing are on the grid. |
| PlanSafety.MembersInside | src/layout/planner.ts:285-323 | Under the same condition the members of one block stay inside its reservation and off each other. |
| PlanSafety.BlockRefusedIff | src/layout/planner.ts:366-381 | A block is refused iff neither its first nor any grid position is clear. |
| PlanSafety.UnalignedPartsOverlap | src/layout/planner.ts:301-323 | An input that does not keep clear: two parts of 14 on a grid of 10 without spacing; the snapped cursor falls back. |
| Operations.BuildCandidateGrid | src/layout/geometry.ts:182-191 | The loops over real coordinates end and collect the grid row by row. |
| Operations.CandidateGridExact | src/layout/geometry.ts:182-191 | The grid is exactly the points whole steps from the corner that pass the far edges by at most EPSILON. |
| Operations.FindCenter | src/layout/operations.ts:196-210 | The candidate loop with the iteration limit shared by all parts. |
| Operations.FindExact | src/layout/operations.ts:196-210 | It gives up iff none of the points it still may try suits; what it finds suits. |
| Operations.ResolveOverlaps | src/layout/operations.ts:167-215 | Locked parts first, then by id, each settled against those before it; the result list in input order. |
| OverlapTheorems.ResultKeeps | src/layout/operations.ts:186-214 | Ids and sizes stay, and a locked part stays entirely. |
| OverlapTheorems.ResultKeepsIff | src/layout/operations.ts:186-214 | For any ids: sizes and locks stay iff parts that share an id agree in size and lock, locked ones in everything. |
| OverlapTheorems.ResultLegalIff | src/layout/operations.ts:167-215 | With distinct ids every unlocked part is in bounds, clear of keep-outs and spaced from every other part iff every search found a place. |
| OverlapTheorems.FoundIsLegal | src/layout/operations.ts:167-215 | For any ids the result is legal if every search found a place. |
| OverlapTheorems.LegalUnmoved | src/layout/operations.ts:186-189 | A legal layout is returned with every part where it is. |
| OverlapTheorems.ResolvedIsFixed | src/layout/operations.ts:167-215 | A successful result is a fixpoint. |
| OverlapMeaning.RectsOverlapMeans | src/layout/geometry.ts:32-39 | Two rectangles are too close iff the first, grown by the clearance, shares an inner point with the second. |
| OverlapMeaning.CentersMean | src/layout/operations.ts:190-197 | The centers tried are the points whole steps (the spacing, at least 1) from the first at which the part stays within the bounds. |
| OverlapMeaning.ResultMeans | src/layout/operations.ts:24-37 | For any layout and any ids: each part of the result is one of the same id as it was up to its lock, or an unlocked one moved to a grid point, on which its box is centred, and marked so. |
| OverlapMeaning.ResultCentred | src/layout/operations.ts:24-37 | Boxes centred on their coordinates in the input are so in the result. |
| OverlapMeaning.ResultFixed | src/layout/operations.ts:167-215 | For distinct ids the whole result is fixed: locked parts and those that fit among the results before them stay; any other goes to the first grid point, by row and then by column, where it fits, unless its search fails. |
| OverlapMeaning.FailureMeans | src/layout/operations.ts:196-210 | A search fails only if no grid point would suit, or 20000 (or the given number of) tries are used up. |
| BlockDetector.FindDominantKind | src/layout/block-detector.ts:163-175 | Counts the kinds in a map and takes the first of the sorted counts. |
| BlockDetector.DominantKindExact | src/layout/block-detector.ts:163-175 | No kind is more frequent than the dominant one, and none as frequent has higher priority. |
| BlockDetector.ClaimExplicit | src/layout/block-detector.ts:221-239 | Explicit blocks in id order take the known ids nobody has claimed. |
| BlockDetector.ClaimDeclared | src/layout/block-detector.ts:241-260 | Groups the unclaimed components by declared block. |
| BlockDetector.ClaimAnchors | src/layout/block-detector.ts:262-271 | Every unclaimed component of a kind opens a block. |
| BlockDetector.AttachHelpers | src/layout/block-detector.ts:274-291 | Every other component joins the best neighbouring anchor block or opens its own. |
| BlockDetector.DetectFunctionalBlocks | src/layout/block-detector.ts:212-307 | The four phases in order, sorted by block id. |
| BlockPartition.ListedExactly | src/layout/block-detector.ts:212-307 | How often the blocks list an id: never if unknown, once if an explicit block mentions it, otherwise as often as components of that id declare a block, but at least once. |
| BlockPartition.DetectionPartitionsIff | src/layout/block-detector.ts:212-307 | The blocks partition the known ids iff every id no explicit block mentions is declared by at most one component; distinct ids are enough, for any graph and any overlapping explicit blocks. |
| BlockPartition.OneBlock | src/layout/block-detector.ts:212-307 | An id listed once stands in exactly one block. |
| BlockHomes.NamedHome | src/layout/block-detector.ts:221-239 | A known id that explicit blocks name stands in the one of them with the smallest id. |
| BlockHomes.DeclaringHome | src/layout/block-detector.ts:241-260 | A component that no explicit block names stands in the block it declares, whose kind is the dominant one of all that declare it. |
| BlockHomes.AnchorHome | src/layout/block-detector.ts:262-271 | An id neither named nor declared whose kind is known stands in a block of its own, of the kind of the first component with that id. |
| BlockHomes.OtherHome | src/layout/block-detector.ts:274-291 | Any other id stands in the block of the neighbouring anchor with the best kind (usb, debug, regulation, power input, and so on), on a tie the smallest block id, or alone if no neighbour is an anchor. |
| BlockHomes.AnchorIdsDiffer | src/layout/block-detector.ts:262-271 | Two anchors share a block id only if they have the same kind and the same component id. |
| BlockHomes.BlocksOrdered | src/layout/block-detector.ts:212-307 | The blocks stand in the order of their ids, and each lists its components in the order of theirs. |
| Basics.SortStable | src/layout/operations.ts:170-174 | Sorting keeps elements that compare equal in the order they had, as the source's sorts do. |

## Left out

- Access to the EasyEDA runtime: primitives already read (wires, flags, pins, line data) are the input.
- JSON, logging, toasts, metrics, message texts, pairing and token checks beyond the accept/reject they lead to.
- `schematic.listNets` stage budgets: a timeout in the middle of net inference, which abandons the whole call, is not an event of the model.
- Component pin lists that fail to read partway: a part's pins are read as a whole or not at all.
- Color, width and type of a rewritten wire: one style field that no rewrite changes.
- `directedPairs` and `buildSchematicLayoutGraph`: a component graph is the input of block edges; adjacency is an arbitrary function.
- Incoming and outgoing block lists of the graph nodes: sets read off the edges.
- Ranks on cyclic graphs beyond being attained by a walk and covering every walk of at most one block more than there are: the passes may stop before a fixpoint.
- Chunk frames repeated after their payload was routed: they start a new assembly that expires; the round trip asks for each chunk once.
- `assembly.bytes` when a piece is replaced by one of another length: the receiver does not track it, and no property here relies on it.
- Port scanning of the server (`tryListen`): a listening attempt is one event that succeeds or fails.
- `BridgeManagers.BridgeManager.HandleCall`: the wait for a connection before the call, and `ws.send` that throws inside it, are not modelled; after a throw the source leaves the entry in the table until its timeout.
- `BridgeManagers.BridgeManager.HandleConnect`: the loop over the ports and the waits in it are one event, so nothing comes between the first port tried and the outcome.
- Aliasing of assemblies, buffers and block objects: each has one owner, so they are values in the owner's fields; a block object shared through the anchor map is an index into the block list.
- `ExtensionSession.Session`: the module-level variables are one record-valued field, updated one variable at a time.
- Socket callbacks that the editor would call before `createSocket` returns, and an exception inside it after a handle exists.
- The remote relay client, the hot-swap file watcher, the CDP manager and the command line: smaller instances of the same protocols, or plumbing.
- `selectSafeRegion`, `compactLayout`, `alignComponents`, `distributeComponents`, `optimizeLabels`: one-body results next to the searches they share.
- The id lists and support reservations of a plan's blocks, the region ids of its conflicts, utilization, proximity scores and the layout hash: derived text and numbers.
- `repeatedGroupId`, titles and orientation of detected blocks: labels that do not move a component.
- The regular expressions that read a component's kind: the kind is an arbitrary function of the component.
- Non-finite numbers and floating-point rounding in coordinates and divisions.
- `OverlapTheorems.ResultLegalIff`: for distinct component ids; with repeated ids a search can fail for a part whose placement the result map drops, so only `FoundIsLegal` remains.
- `PlanSafety.PlanPartsSafe`: a sufficient condition on the sizes; `PlanExact.PlanPartsSafeIff` is exact, for sheet grids of at least one unit and finer ones that divide a unit.
- `HotSwap.PushAndFinish`: no other request reaches the loader between the calls of the push; `HotSwap.ReachableInv` and `HotSwap.RevertLastsIff` are about every order of requests.
- Line arrays that mix numbers and pairs: the two readers of the source treat them differently; a line here is all numbers or all pairs.
- `Chunking.ChunkRoundTrip`: about the assembly; that each frame passes the server's limit first is the subject of `Framing`.
