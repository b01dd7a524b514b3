# Verified models of hellproof

Dafny models of the parts of hellproof where a mistake would be silent: the shared-memory snapshot
ring, the resumable submission of a proof, the reorg-safe indexer, level geometry, the texture atlas,
segment planning and the proving pipeline, the graph and tree checks, the codecs and Keccak. Each
module follows one source file. Loops and objects that the source changes in place are methods and
classes proved against specification functions; the promises are lemmas about those functions, or
invariants of a state machine over all its runs.

`dafny verify dfyconfig.toml` verifies everything.

## The modules

- `SnapshotCodec`, `SnapshotRing`, `RingConstruction`, `SnapshotBuffer`: the word layout of a snapshot,
  the triple-buffered seqlock as interleaved atomic steps over single words, the same with further ring
  objects being constructed, and the ring object with one thread.
- `LimbPacking`, `ProofStream`, `Calldata`, `Submission`, `Estimate`: the escaped limb code, the proof
  stream grammar, the plan of dependent transactions, the crash and resume protocol against a router
  machine, and the simulated array against the run.
- `EventStore`, `Indexer`: the tables as a fold over events, and purge-and-rescan polling.
- `Clipping`, `Bsp`, `Walls`, `WallStrips`: half-plane clipping and fans, the BSP polygons against the
  point lookup, the wall quads and the renderer's static and moving buffers, and which strips of wall
  there are and how each hangs.
- `Atlas`: the shelf packer and its in-place blits.
- `LeastSquares`, `Planner`, `RunStore`, `SegmentChain`, `Pipeline`: the fit, the proposals, verdicts
  and the probe loop, the four object stores, the chain check, and the proving pipeline as a crash and
  resume machine over whole transactions.
- `CrateGraph`, `FoldTree`: the dependency checks, and the felt code with the layered fold.
- `Keccak`, `Sponge`, `Ticcmd`, `Replay`: the permutation and the hash against FIPS 202, input words
  and logs, and the journal put together from published logs.
- `Wrappers`, `Sequences`: shared datatypes and sequence functions.

## Where the code does not meet a promise

Each has a lemma with a concrete input and one that says exactly when the code is right.

- A further ring object whose constructor starts before the first publication has completed may store
  too late, and the ring then denies a publication, of any tic, or an input already recorded.
- A partition of no direction sends a polygon to both sides, so the areas double; the tolerance of
  `dedupe` can lose a sliver.
- A row key emitted twice, around the rescan window, can lose its row after a fork, even when only a
  failed poll was told of it the second time.
- The direct dependency check misses a path through unclassified packages.
- One preimage and the same one twice have the same root hash.
- Without a stored plan record an explicit cut is believed even when it is not the original one.
- An approved probe's padded height can exceed a registry of fewer than sixteen rows, and a proposal
  after a single observation that was itself over a bound may stay over it.
- With 65536 sidedefs a wall can vanish from both buffers.
- An exception between the write of a proof and the end of its step can take back the `proved` of its
  record, in that step or, when the handler's own write is aborted, in a later one.
- `overflow` is in height order, although its declaration promises insertion order; and `quantize`
  rounds a negative turn towards zero, which the shift by eight its comment names does not. The model
  follows the code.

## Model

| member | source | states |
|---|---|---|
| `SnapshotRing.ReadsAreWhole` | client/src/sim/snapshot.ts:275-313 | In every interleaving of one publisher and any number of readers, word by word, what a read returns is whole: the words of consecutively published snapshots, never a mixture, and of the newest one at the read's start or later |
| `SnapshotRing.ReadsNeverGoBack` | client/src/sim/snapshot.ts:291-313 | No reader ever gets an older snapshot than one it got before |
| `SnapshotRing.NoReadOutsideSlots` | client/src/sim/snapshot.ts:291-302 | A reader never addresses a word outside its slot, even while the slot is being overwritten under it |
| `SnapshotRing.ReadIsFresh` | client/src/sim/snapshot.ts:291-302 | A successful attempt returns nothing older than the last publication completed when the attempt began, however the other threads run meanwhile |
| `SnapshotRing.GivesUpOnlyWhenOutrun` | client/src/sim/snapshot.ts:291-302 | A read gives up only after eight attempts during each of which a publication completed |
| `SnapshotRing.EmptyExactly` | client/src/sim/snapshot.ts:291-313 | Over every run a call ends with nothing exactly at a load of PUBLISHED that finds nothing published (for a pair, after a SEQ below two), or at its eighth failed recheck, eight publications later |
| `SnapshotRing.QuietCallAnswers` | client/src/sim/snapshot.ts:291-313 | A call during which the publisher takes no step, once ended, has logged exactly one result, whole, of the newest publication, when there is enough to return, and otherwise nothing |
| `SnapshotRing.QuietCallEnds` | client/src/sim/snapshot.ts:291-313 | And its reader alone can bring it to its end |
| `SnapshotRing.StepInv` | client/src/sim/snapshot.ts:275-313 | Every atomic step of the publisher or of a reader keeps the ring's invariant |
| `SnapshotRing.RunInv` | client/src/sim/snapshot.ts:275-313 | The invariant holds after every run from a fresh ring |
| `RingConstruction.AccessHarmlessExactly` | client/src/sim/snapshot.ts:256-259 | An access of a further constructor changes nothing anyone else sees exactly when it is not a store of PUBLISHED after a publication stored it, nor one of INPUT_HEAD after an input was recorded |
| `RingConstruction.TimelyExactly` | client/src/sim/snapshot.ts:222-260 | In every interleaving of publisher, readers, inputs and any number of further constructors, nothing is ever denied exactly when no constructor stores too late, and then publisher and readers run as if there were no constructors |
| `RingConstruction.ReadsAreWholeBesideBuilders` | client/src/sim/snapshot.ts:222-313 | Beside constructors that store in time every read is whole |
| `RingConstruction.SafeToConstructExactly` | client/src/sim/snapshot.ts:256-259 | A further object may be constructed, whatever runs beside it, exactly when some publication has completed before |
| `RingConstruction.SafeOncePublished` | client/src/sim/snapshot.ts:256-259 | After a completed publication no constructor that starts then ever stores |
| `RingConstruction.LateConstructorLosesPublication` | client/src/sim/snapshot.ts:253-282 | A run from a fresh ring: a constructor looks before the first publication, of any tic, and stores after it, and the ring denies what was published |
| `RingConstruction.ConstructorInsidePublication` | client/src/sim/snapshot.ts:253-282 | A run in which a whole constructor falls between the PUBLISHED and SEQ stores of a first publication of tic 0 and wipes it |
| `RingConstruction.ConstructorLosesInput` | client/src/sim/snapshot.ts:256-328 | A run in which a further object forgets the input recorded for tic 0 |
| `SnapshotCodec.EncodeSnapshot` | client/src/sim/snapshot.ts:331-394 | The encoder leaves in the buffer exactly the words of the snapshot's layout and touches no other word |
| `SnapshotCodec.DecodeSnapshot` | client/src/sim/snapshot.ts:396-484 | The cursor walk of the decoder reads what the layout says |
| `SnapshotCodec.DecodeOfHolds` | client/src/sim/snapshot.ts:331-484 | Whatever buffer holds an encoded snapshot decodes to its canonical form, whatever was in the other words |
| `SnapshotCodec.CanonExact` | client/src/sim/snapshot.ts:331-394 | The canonical form is the snapshot itself exactly when every field fits its word and the lists fit their tables |
| `SnapshotCodec.RoundTripExact` | client/src/sim/snapshot.ts:331-484 | Encoding then decoding returns the snapshot exactly when it fits |
| `SnapshotCodec.DecodeLocal` | client/src/sim/snapshot.ts:396-484 | Decoding depends on the words it addresses and on no others |
| `SnapshotBuffer.Ring.Publish` | client/src/sim/snapshot.ts:275-282 | In place: the next slot takes the snapshot, the two before it keep theirs, the header moves on |
| `SnapshotBuffer.Ring.ReadPair` | client/src/sim/snapshot.ts:291-302 | Without a concurrent writer the pair is the last two snapshots published, or none before two |
| `SnapshotBuffer.Ring.ReadLatest` | client/src/sim/snapshot.ts:304-313 | The last snapshot published, or none |
| `LimbPacking.UnpackPack` | client/src/chain/proof.ts:134-190 | `unpack` inverts `pack` for all values below 2^64 and every slot is below 2^224 |
| `LimbPacking.PackInjective` | client/src/chain/proof.ts:151-164 | Two value lists of the same length with the same slots are equal |
| `LimbPacking.UnpackSections` | client/src/chain/proof.ts:165-200 | The sections come back from their slots and lengths |
| `LimbPacking.UnescapedEscaped` | client/src/chain/proof.ts:151-190 | The escaped limb code is self-delimiting: decoding reads the values back and ignores what follows |
| `LimbPacking.Pack` | client/src/chain/proof.ts:151-164 | The pushing loops compute the packing, and the error for a value of 2^64 or more |
| `LimbPacking.Unpack` | client/src/chain/proof.ts:173-190 | The cursor loops compute the unpacking |
| `LimbPacking.PackLimbs` | client/src/chain/proof.ts:134-148 | Seven limbs to a slot, the last group padded with zeros |
| `ProofStream.ParseLosesNothing` | client/src/chain/proof.ts:74-131 | The parsed sections determine the whole stream |
| `ProofStream.ParsesExactly` | client/src/chain/proof.ts:74-131 | `parseProof` succeeds on exactly the streams that are one circuit proof with four trees and nothing after |
| `ProofStream.ParseInjective` | client/src/chain/proof.ts:74-131 | Two streams with the same sections are the same stream |
| `ProofStream.EndIsLocal` | client/src/chain/proof.ts:41-71 | Every element of the stream is self-delimiting: its end depends on its own felts only |
| `ProofStream.ItemsOfFlatten` | client/src/chain/proof.ts:41-71 | Whole elements laid end to end are read back one by one |
| `ProofStream.Stream.Array` | client/src/chain/proof.ts:58-63 | A read returns exactly the felts the cursor moves past, or the truncation error |
| `ProofStream.Stream.LayerProof` | client/src/chain/proof.ts:64-67 | Witness, decommitment and commitment of one FRI layer, in one piece |
| `ProofStream.Parse` | client/src/chain/proof.ts:74-131 | The cursor version computes the sections and every error of the grammar |
| `Calldata.PhasesCarryProof` | client/src/chain/calldata.ts:69-222 | For every cut list the whole proof stream can be put together again from the planned phases and, whatever states they echo, from the calldata they are sent with |
| `Calldata.CalldataReadsBack` | client/src/chain/calldata.ts:204-222 | Read argument by argument as each entrypoint takes it, the calldata of a phase gives back every field in its own place, and the echoed state |
| `Calldata.FriChunksConcatenate` | client/src/chain/calldata.ts:124-174 | The FRI chunks hold all layers, in order, for every cut list |
| `Calldata.EachTreeOnce` | client/src/chain/calldata.ts:69-107 | Each Merkle tree's queried values and decommitment travel in exactly one of begin and merkle, at the place of its number |
| `Calldata.CalldataFeltsExact` | client/src/chain/calldata.ts:209-222 | Each phase's calldata has the planned length exactly when its echo has the nominal size |
| `Calldata.SplitOfPlan` | client/src/chain/sequence.ts:223-227 | The cuts read off a plan are the cuts it was made from, deduplicated and sorted |
| `Calldata.PlanOfSplit` | client/src/chain/calldata.ts:142-174 | Planning again from those cuts gives the same phases |
| `Calldata.CutsUnique` | client/src/chain/calldata.ts:142-174 | Only one sorted list holds given cuts, so how they are filtered and sorted does not matter |
| `Calldata.MakePlan` | client/src/chain/calldata.ts:142-174 | Cut list, FRI chunks and cap check compute the plan, or its first error |
| `Calldata.CutList` | client/src/chain/calldata.ts:146-148 | Deduplicating, filtering and sorting any list the caller gives yields its canonical cuts |
| `Calldata.AutoTakesFewest` | client/src/chain/calldata.ts:176-195 | Without an explicit cut there is a plan exactly when one of the three candidate cuts fits, and no fitting candidate has fewer transactions; an explicit cut is never replaced |
| `Calldata.MakePlanAuto` | client/src/chain/calldata.ts:176-195 | The candidates tried in turn, the last error if none fits |
| `Submission.AcceptedOnceInOrder` | client/src/chain/sequence.ts:371-429 | Over any series of attempts with a crash between any two awaits, the accepted phases are a prefix of one plan, each accepted once, in order, and the calldata of each, read argument by argument, holds that phase and the state its predecessor returned |
| `Submission.FinishedCarriesProof` | client/src/chain/sequence.ts:371-429 | When an attempt finishes, the calldata the router accepted holds the whole proof stream |
| `Submission.AutomaticResumeIsOriginal` | client/src/chain/sequence.ts:205-332 | With a store that kept its record, an automatic plan is restored to the plan that was started, whatever its own cut, and the sequence can be finished |
| `Submission.StoredEchoSparesTrace` | client/src/chain/sequence.ts:276-332 | Once a returned state has been stored, no resume before the next transaction needs the trace: the stored state is what is sent |
| `Submission.ResumedPlanIsOriginal` | client/src/chain/sequence.ts:229-253 | An attempt that has passed the resume check continues with the plan that was started |
| `Submission.ResumePlanIsOriginal` | client/src/chain/sequence.ts:229-253 | A resume that passes the check with a known cut continues the plan that was started |
| `Submission.StoredRoundTrip` | client/src/chain/sequence.ts:205-221 | The stored plan record reads back as the cuts that were stored |
| `Submission.PlanIsItsCuts` | client/src/chain/sequence.ts:223-227 | Two plans of one proof with the same cuts are the same plan |
| `Submission.UnknownPlanIsRefused` | client/src/chain/sequence.ts:229-253 | Without a record an automatic plan is not resumed |
| `Submission.ExplicitCutExactly` | client/src/chain/sequence.ts:276-332 | Without a record an explicit cut is believed: the resumed sequence carries the layers from its own cut to the end, and with what was accepted every layer exactly once exactly when both plans cut there alike |
| `Submission.WrongCutRun` | client/src/chain/sequence.ts:205-332 | A run from the start: begun with the cut [1], interrupted after four transactions, storage wiped, resumed with the explicit cut [2]; the router has folded layer 0 and is sent layer 2 |
| `Submission.InterruptedCanFinish` | client/src/chain/sequence.ts:276-429 | With the plan record in place, or the original cut given again, and readable traces, an attempt interrupted anywhere can be brought to its end by a new one |
| `Submission.StepInv` | client/src/chain/sequence.ts:276-429 | Every step, crash included, keeps the invariant of router, store and client |
| `Submission.RunInv` | client/src/chain/sequence.ts:276-429 | The invariant holds after every run |
| `Estimate.SimulateSequence` | client/src/chain/estimate.ts:133-186 | The array simulated last is exactly the calls a run from the same point sends, or the error it stops with, from any resume point |
| `Estimate.RunSequence` | client/src/chain/sequence.ts:397-449 | The sending loop sends those calls, the phases before the resume point skipped |
| `Estimate.ArrayIsRun` | client/src/chain/estimate.ts:172-186 | With every echo discovered the built array is the run's calls |
| `Estimate.LastIsEcho` | client/src/chain/estimate.ts:172-181 | The last result of a simulated prefix is the state the run reaches the next phase with |
| `Indexer.TablesFollowChain` | infra/indexer/src/indexer.ts:42-79 | Through any mix of failed polls, restarts, shorter heads and forks, after every poll that sets the cursor the tables are those of applying every event of the chain it read from the start block to the head, once and in order |
| `Indexer.EveryEventStored` | infra/indexer/src/indexer.ts:42-79 | After such a poll each event of that stretch is in the table of its kind with its own fields, every keyed row is one of them, and the two logs list theirs in order |
| `Indexer.DeepRowsStay` | infra/indexer/src/indexer.ts:42-48 | No poll touches a row of a block deeper than the reorg depth, unless its key is emitted again |
| `EventStore.ApplyStores` | infra/indexer/src/db.ts:158-263 | One event goes to the table of its kind, column by column, under its own key or at the end, and nothing else changes |
| `EventStore.BuiltHoldExactly` | infra/indexer/src/db.ts:158-263 | Tables built from events that share no key hold exactly those events |
| `Indexer.CompletedPollExact` | infra/indexer/src/indexer.ts:42-79 | A completed poll leaves exactly the tables rebuilt from scratch |
| `Indexer.FailedPollSettled` | infra/indexer/src/indexer.ts:42-79 | What a failed poll did is forgotten by the next purge |
| `Indexer.PurgeUndoes` | infra/indexer/src/db.ts:150-156 | Purging forgets exactly what was applied from a block on, when those events overwrote nothing older |
| `Indexer.PurgeFinishes` | infra/indexer/src/db.ts:150-156 | A purge that died half-way is finished by the next one |
| `Indexer.RescanExactly` | infra/indexer/src/indexer.ts:42-79 | Without unique keys a poll that completes after a good one and any failed ones is right exactly when every key emitted below the window, and again inside it by the old chain or to one of the failed polls, is emitted inside the window of the new chain |
| `Indexer.PurgeForgets` | infra/indexer/src/db.ts:150-156 | Purging what was applied from a block on brings back all but the older rows it overwrote |
| `Indexer.RescanCanLoseRow` | infra/indexer/src/indexer.ts:42-79 | A genesis set twice around the window loses its row after a fork |
| `Indexer.FailedPollCanLoseRow` | infra/indexer/src/indexer.ts:42-79 | It is enough that a poll that then fails was told of the second one |
| `Indexer.RunSettled` | infra/indexer/src/indexer.ts:42-107 | The settled state holds after any fair run of polls |
| `Indexer.IndexerDb.PurgeFromBlock` | infra/indexer/src/db.ts:150-156 | The seven deletes, one after another, are the purge |
| `Indexer.IndexerDb.PollOnce` | infra/indexer/src/indexer.ts:42-79 | One poll on the database object, page by page, and the count it reports |
| `Clipping.ClipsShareArea` | client/src/map/bsp.ts:80-119 | For every polygon and line the signed areas of the two clips and what the tolerance takes sum to the polygon's, or to twice it when the line has no direction |
| `Clipping.ClipsShareAreaExactly` | client/src/map/bsp.ts:80-119 | The two clips alone sum to the polygon's area exactly when the tolerance takes nothing, or what a second copy brings |
| `Clipping.DegenerateDoubles` | client/src/map/bsp.ts:80-104 | A partition of no direction keeps a triangle whole on both sides |
| `Clipping.DedupeLoss` | client/src/map/bsp.ts:106-119 | `dedupe` loses exactly the triangles between the point kept last, each dropped point and the one after it, whatever it merges |
| `Clipping.DedupeAreaExactly` | client/src/map/bsp.ts:106-119 | It keeps the area exactly when those triangles cancel out |
| `Clipping.CoincidentLosesNothing` | client/src/map/bsp.ts:106-119 | As they do when neighbours, and the two ends, within the tolerance coincide |
| `Clipping.ClipCanLoseArea` | client/src/map/bsp.ts:80-119 | A partition of integer direction cuts off a sliver of positive area, which `dedupe` makes disappear |
| `Clipping.FanArea` | client/src/map/bsp.ts:152-158 | The triangles of a fan have together the polygon's signed area |
| `Clipping.AreaFrom` | client/src/map/bsp.ts:138-149 | The shoelace area does not depend on the point it is seen from |
| `Clipping.ComputeSignedArea` | client/src/map/bsp.ts:138-149 | The loop computes the shoelace area |
| `Clipping.ComputeClip` | client/src/map/bsp.ts:80-104 | The clipping loop computes the clipped polygon |
| `Clipping.ComputeDedupe` | client/src/map/bsp.ts:106-119 | The deduplicating loops compute its result |
| `Clipping.FanTriangulate` | client/src/map/bsp.ts:152-158 | The fan loop pushes the index triples (0, i, i + 1) |
| `Bsp.PolygonsTileRectangle` | client/src/map/bsp.ts:39-78 | The leaf polygons' signed areas and what the tolerance took on the walk sum to the starting rectangle; the polygons alone do so exactly when it took nothing, in particular when it merged coincident points only |
| `Bsp.VerticesPassTests` | client/src/map/bsp.ts:39-119 | Every vertex of a subsector's polygon passes the half-plane test of every partition on its root path, whatever `dedupe` dropped |
| `Bsp.PolygonAgreesWithLookup` | client/src/map/bsp.ts:160-170 | A point of a subsector's polygon on none of those lines is sent to that subsector by the lookup |
| `Bsp.ReturnedWasVisited` | client/src/map/bsp.ts:39-78 | Every polygon returned was produced by the visit |
| `Bsp.BuildSubsectorPolygons` | client/src/map/bsp.ts:39-78 | The recursive visit and the final filter compute the polygons |
| `Bsp.PointInSubsector` | client/src/map/bsp.ts:160-170 | The descent loop computes the located subsector |
| `Bsp.ReferencesAre` | client/src/map/bsp.ts:60-74 | A child reference 0x8000 + ss is the leaf of subsector ss in both walks, one below 0x8000 a node or a missing one |
| `CrateGraph.FindCycle` | infra/check_crate_graph.py:108-135 | The search ends and returns nothing exactly when the graph is acyclic, otherwise a closed walk along real edges repeating only its first node |
| `CrateGraph.CycleSearch.Visit` | infra/check_crate_graph.py:115-128 | The three-colour visit keeps stack, colours and finishing order consistent and blackens its node, or returns a cycle |
| `CrateGraph.TopologicalIsAcyclic` | infra/check_crate_graph.py:108-135 | A finishing order in which every edge goes back refutes every cycle |
| `CrateGraph.FindForbiddenEdges` | infra/check_crate_graph.py:97-105 | Exactly the direct generic-to-doom edges |
| `CrateGraph.NoForbiddenEdgeNoLeak` | infra/check_crate_graph.py:97-105 | With every package classified, no forbidden edge means no transitive generic-to-doom path |
| `CrateGraph.DirectCheckExactly` | infra/check_crate_graph.py:97-105 | In general a leak remains exactly when some path of two edges or more runs through unclassified packages only |
| `CrateGraph.UnclassifiedHidesLeak` | infra/check_crate_graph.py:97-105 | One unclassified package in between hides a leak |
| `FoldTree.DecodeEncode` | cairo/doom_contracts/tools/doomruns_model.py:81-94 | The felt code of any list of canonical felts decodes to that list |
| `FoldTree.EncodeInjective` | cairo/doom_contracts/tools/doomruns_model.py:81-94 | So it is uniquely decodable |
| `FoldTree.RootBindsPreimages` | cairo/doom_contracts/tools/doomruns_model.py:103-133 | With an injective hash, equal-length preimage lists with one root hash are equal, through every layer and odd carry |
| `FoldTree.RootBindsExactly` | cairo/doom_contracts/tools/doomruns_model.py:112-133 | For lists of any lengths, leaf and fold circuits differing, the root hashes are equal exactly when the lists are, one preimage counting as two of it |
| `FoldTree.SingleIsDouble` | cairo/doom_contracts/tools/doomruns_model.py:112-116 | A single preimage and the same one twice have the same root hash |
| `FoldTree.RootIsTree` | cairo/doom_contracts/tools/doomruns_model.py:103-133 | The layered fold is the tree told from the top: circuit and hash of the left part, a full tree over the largest power of two of leaves, then of the right part |
| `FoldTree.EncodeAll` | cairo/doom_contracts/tools/doomruns_model.py:90-94 | The accumulating loop computes the code |
| `FoldTree.ComputeFoldTree` | cairo/doom_contracts/tools/doomruns_model.py:112-124 | The layer loop computes the fold |
| `Atlas.PackAtlas` | client/src/assets/atlas.ts:49-63 | For distinct keys the rectangles are disjoint and inside, each key is in exactly one of `rects` and `overflow`, each placed picture reads back, everything else is zero, and the size is the least doubling of the minimum at which nothing overflows or the limit is reached; nothing overflows when the limit holds one picture a shelf |
| `Atlas.HoldsOnlyItsArea` | client/src/assets/atlas.ts:50-56 | A square that holds every picture is at least as large as all of them together, so the sizes skipped for want of pixels would all have overflowed |
| `Atlas.TryPack` | client/src/assets/atlas.ts:65-103 | One attempt: the shelf layout, painted, with the overflow in the order met |
| `Atlas.BlitInto` | client/src/assets/atlas.ts:105-114 | The picture's texels, and no others, are overwritten |
| `Atlas.LayoutIsPlaced` | client/src/assets/atlas.ts:65-103 | Shelf placement never overlaps and never leaves the atlas |
| `Atlas.PaintedMore` | client/src/assets/atlas.ts:105-114 | A blit into a disjoint rectangle leaves every other picture and the blank texels alone |
| `Atlas.TallAtlasHoldsAll` | client/src/assets/atlas.ts:73-100 | An atlas as tall as the pictures stacked and as wide as the widest places them all |
| `Atlas.OtherBytesAreZero` | client/src/assets/atlas.ts:66-66 | A byte that is not zero belongs to a placed picture |
| `Atlas.ByHeightStable` | client/src/assets/atlas.ts:50-50 | Pictures of equal height keep their order |
| `Atlas.OverflowOrderExactly` | client/src/assets/atlas.ts:25-63 | `overflow` is in the declared insertion order exactly when the entries left over, as inserted, come tallest first |
| `Atlas.OverflowIsNotInsertionOrder` | client/src/assets/atlas.ts:25-63 | Two pictures that do not fit are listed against their insertion order |
| `LeastSquares.FitRecoversLine` | client/src/prove/planner.ts:287-314 | Exact measurements of two lengths give back the line itself |
| `LeastSquares.FitIsLeastSquares` | client/src/prove/planner.ts:287-314 | No line has a smaller sum of squared residuals than the fit |
| `LeastSquares.FitSlopesUp` | client/src/prove/planner.ts:287-314 | A fit always has a positive slope, so no proposal divides by zero |
| `LeastSquares.Fit` | client/src/prove/planner.ts:287-314 | The accumulating loop and its fallbacks compute the fit |
| `Planner.ExactModelProposesSafely` | client/src/prove/planner.ts:183-201 | For a program affine in its tics, two probed lengths make every proposal above `minTics` keep rows within the target and steps within the ceiling |
| `Planner.ProposalKeepsModel` | client/src/prove/planner.ts:183-201 | Whatever was measured, such a proposal keeps the fitted rows and steps within their bounds |
| `Planner.ProposalIsLargest` | client/src/prove/planner.ts:183-201 | A proposal no cap binds could not be longer: past the margin one of the fitted bounds is crossed |
| `Planner.SingleObservationExactly` | client/src/prove/planner.ts:287-294 | After one observation a proposal is within a bound for every affine program through it exactly when the observation was |
| `Planner.SingleObservationCanStayOver` | client/src/prove/planner.ts:183-201 | After one probe of 100 rows, with room for 64, six tics are proposed that a program with a fixed cost of 90 rows takes to 96 |
| `Planner.Judgement` | client/src/prove/planner.ts:207-269 | Approval exactly when the counters are complete and all four limits hold; otherwise a strictly shorter length of at least `minTics`, or none possible |
| `Planner.AcceptedIsWithinRegistry` | client/src/prove/planner.ts:207-269 | An approved probe's steps are within the ceiling for its threads, its raw rows within the target, and its padded height within the registry's exactly when the ceiling is at least sixteen rows or the count was the rounded fallback |
| `Planner.ProposalRange` | client/src/prove/planner.ts:183-201 | A proposal is never past what was played, nor past the length limit or the growth cap unless `minTics` is, and never below `minTics` while that was played |
| `Planner.AddressRowsExactly` | client/src/prove/planner.ts:125-144 | One row for every sixteen addresses but the first, the last part full |
| `Planner.AcceptedOverSmallRegistry` | client/src/prove/planner.ts:125-144 | With a ceiling of eight rows an approved probe may be reported at sixteen |
| `Planner.ShrinkLandsInside` | client/src/prove/planner.ts:265-268 | A rejected length is cut far enough, in one step, for costs proportional to it |
| `Planner.NextPow2Within` | client/src/prove/planner.ts:109-112 | The next power of two is within a power of two exactly when the number is |
| `Planner.RawMaxComponentRows` | client/src/prove/planner.ts:125-144 | The map built from the three tables gives the named component's last count, or the rounded height |
| `Planner.SegmentPlanner.Propose` | client/src/prove/planner.ts:183-201 | The method computes the proposal from fits, growth cap and limits |
| `Planner.SegmentPlanner.Judge` | client/src/prove/planner.ts:207-269 | The verdict, the remembered observation and the last accepted length |
| `Planner.SegmentPlanner.Remember` | client/src/prove/planner.ts:277-280 | The newest observations are kept, in order |
| `Planner.Probe` | client/src/prove/pipeline.ts:386-459 | The probe loop's candidates strictly fall, all but the last were rejected, and it ends within `maxProbes` + floor(log2 K) probes from a first candidate K (one more when `minTics` is 0) |
| `Planner.ProbeOfNothing` | client/src/prove/pipeline.ts:386-459 | That one more probe is spent: with `minTics` 0 one tic is rejected, and then none at all |
| `Planner.PlanNext` | client/src/prove/pipeline.ts:362-459 | Nothing is cut while a longer segment may still be played; what is cut was approved by the prover |
| `RunStore.RunsAreSeparate` | client/src/store/runStore.ts:76-212 | No transaction for one run changes anything stored for another |
| `RunStore.ListingOfNumbered` | client/src/store/runStore.ts:177-182 | When the stored indices are 0..n-1 a listing is the records in order |
| `RunStore.Store.PutSegment` | client/src/store/runStore.ts:195-212 | Record, proof and the run's segment count change together |
| `RunStore.Store.ListSegments` | client/src/store/runStore.ts:177-182 | All records of the run and nothing else, by index |
| `RunStore.Store.UpdateRun` | client/src/store/runStore.ts:113-121 | The patch merged into an existing run, an error and no change for a missing one |
| `RunStore.PatchedExactly` | client/src/store/runStore.ts:113-121 | A patch changes the fields it names, to what it names, and no others |
| `Pipeline.DatabaseAlwaysChained` | client/src/prove/pipeline.ts:191-227 | Whatever crashed, aborted or restarted, the database holds segments 0..n-1, each continuing its predecessor's state hash and tic, genesis and 0 first, every proved one with a proof of its own execution |
| `Pipeline.RunLosesNothing` | client/src/prove/pipeline.ts:485-603 | From any moment of a run to any later one no boundary changes and no proof disappears |
| `Pipeline.StepKeepsInv` | client/src/prove/pipeline.ts:362-603 | Every step, aborted transaction and crash keeps page and database in agreement |
| `Pipeline.InterruptedRunCanFinish` | client/src/prove/pipeline.ts:191-227 | After any interruption, attaching again can prove all n stored segments within 5 n + 2 steps |
| `Pipeline.AtMostTwoAttempts` | client/src/prove/pipeline.ts:485-588 | In every run a segment taken up is tried at most twice, the second time on a single thread |
| `Pipeline.PersistedLinksHold` | client/src/prove/pipeline.ts:672-706 | A stored run never fails the chain check for a broken link |
| `Pipeline.TakenBackExactly` | client/src/prove/pipeline.ts:543-603 | In any step a record stored as proved is stored as anything else exactly by the write after a failed write of a proof and by the two writes of the exception handler, when they commit, for that record |
| `Pipeline.ProvedStaysProved` | client/src/prove/pipeline.ts:485-603 | Over any run in which nothing throws between the write of a segment's proof and the end of its step, its record once stored as proved stays so |
| `Pipeline.ProvedCanBeTakenBack` | client/src/prove/pipeline.ts:553-588 | If something throws there, two steps later the record may be stored as failed, while the proof stays |
| `Pipeline.TakenBackRun` | client/src/prove/pipeline.ts:543-588 | A run from nothing stored, for any program with a first segment, that takes back its proved record in the same step |
| `Pipeline.TakenBackLaterRun` | client/src/prove/pipeline.ts:485-588 | A run that takes it back in a later step, after an aborted write and a restart |
| `Pipeline.WriteKeeps` | client/src/store/runStore.ts:195-212 | Writing any segment of the page keeps the database chained |
| `SegmentChain.VerifyChain` | client/src/prove/chain.ts:49-104 | The first faulty segment with its fault, or a sound chain, the tics it covers and its final status |
| `SegmentChain.SoundChainIsOneGame` | client/src/prove/chain.ts:49-104 | Between any two segments of a sound chain time only moves on, without overlap, and no score falls |
| `SegmentChain.EveryTicInOneSegment` | client/src/prove/chain.ts:49-104 | Every tic of the game lies in exactly one segment of a sound chain |
| `Walls.SplitIsCompleteExactly` | client/src/render/renderer.ts:250-276 | When heights differ only in dynamic sectors, static and rebuilt quads together are the whole level's, as a multiset, exactly when no line with something to draw looks dynamic without touching a dynamic sector |
| `Walls.FrameIsWhole` | client/src/render/renderer.ts:351-367 | With fewer than 65536 sidedefs that is every frame |
| `Walls.LargeLevelDropsWall` | client/src/render/renderer.ts:250-367 | In a level with a door and 65536 sidedefs, nothing having moved, the two buffers together are not the level: a wall is drawn by nobody |
| `Walls.SmallLevelDropsNothing` | client/src/render/renderer.ts:267-276 | The index that means no sidedef finds none in a smaller level |
| `Walls.MaskedIsClipped` | client/src/map/walls.ts:193-242 | A masked middle is drawn once: inside the opening and never past its texture |
| `Walls.UntouchedLine` | client/src/map/walls.ts:149-242 | A line that touches no moving sector has the same quads at both heights |
| `Walls.BuildWallQuads` | client/src/map/walls.ts:110-147 | The loop over the linedefs pushes the quads of those wanted |
| `Walls.EmitSide` | client/src/map/walls.ts:149-242 | The strips of one side are appended: middle, or upper, lower and masked middle |
| `WallStrips.WallsExactly` | client/src/map/walls.ts:110-242 | Every quad is a strip of one side of a line asked for, with something to draw, the right texture, heights, vertices and light, hanging by the table of anchors; every such strip is there; and there are as many quads as strips |
| `WallStrips.SideExactly` | client/src/map/walls.ts:149-242 | One side's strips: one of a kind exactly when there is something to draw, in the order middle, upper, lower, masked middle |
| `WallStrips.AnchorHangs` | client/src/map/walls.ts:52-98 | Row 0 of a texture, or the row after its last, hangs where each of the table's eight rows says |
| `Walls.WallRenderer.Render` | client/src/render/renderer.ts:346-367 | Heights reset and overlaid with the snapshot, moving quads rebuilt, the frame whole |
| `Keccak.KeccakF` | client/src/chain/selector.ts:34-61 | On every 25-lane state the in-place permutation is the 24 rounds of sections 3.2.1 to 3.2.5 and 3.3 of FIPS 202 |
| `Keccak.RhoPiStep` | client/src/chain/selector.ts:44-51 | The chain of in-place writes is rho, then pi, applied to all lanes at once |
| `Keccak.ThetaStep` | client/src/chain/selector.ts:36-43 | Column parities first, then every lane: the theta of section 3.2.1 bit by bit |
| `Keccak.ChiStep` | client/src/chain/selector.ts:52-58 | The chi of section 3.2.4, row by row |
| `Keccak.RhoPiLane` | client/src/chain/selector.ts:28-29 | The two tables hold the lanes and offsets of sections 3.2.2 and 3.2.3 |
| `Keccak.ConstantsAreStandard` | client/src/chain/selector.ts:20-27 | The table of round constants is the one the shift register of section 3.2.5 produces |
| `Keccak.WalkIsSource` | client/src/chain/selector.ts:28-28 | The table PI lists the lanes in the order section 3.2.2 visits them |
| `Sponge.Keccak256` | client/src/chain/selector.ts:64-86 | The padded input absorbed and squeezed as in sections 4, 5.1 and 5.2 of FIPS 202, for every byte string |
| `Sponge.PaddedIsPad101` | client/src/chain/selector.ts:65-68 | The padded bytes are the message bits followed by pad10*1 |
| `Sponge.AddBlockTo` | client/src/chain/selector.ts:72-76 | The lane loop adds one block's bits to the state, little-endian |
| `Sponge.Selectors.FromName` | client/src/chain/selector.ts:88-97 | Cached or not, the low 250 bits of the digest |
| `Ticcmd.QuantizeIsIdempotent` | client/src/prove/ticcmd.ts:53-69 | A quantized command is canonical |
| `Ticcmd.QuantizeIs` | client/src/prove/ticcmd.ts:44-62 | Any command's fields lose their fraction and are bounded to their byte, the turn to a multiple of 256, all towards zero |
| `Ticcmd.DecodeEncode` | client/src/prove/ticcmd.ts:71-89 | Encoding loses nothing of a canonical command |
| `Ticcmd.EncodeDecode` | client/src/prove/ticcmd.ts:71-89 | Every 32-bit word encodes one canonical command |
| `Ticcmd.SnapIsShiftExactly` | client/src/prove/ticcmd.ts:48-54 | The snap agrees with an arithmetic shift by eight exactly on non-negative turns and on grid points |
| `Ticcmd.SnapIsNotShift` | client/src/prove/ticcmd.ts:48-54 | A turn of -1 snaps to 0, not to -1 |
| `Ticcmd.UnpackPackLog` | client/src/prove/ticcmd.ts:121-138 | A packed log unpacks to its words |
| `Ticcmd.PackLog` | client/src/prove/ticcmd.ts:121-127 | The slicing loop computes the packed log, or an error for anything that is no 32-bit word |
| `Ticcmd.UnpackLog` | client/src/prove/ticcmd.ts:130-138 | The loop stops at the tic count and leaves the last group short |
| `Ticcmd.RecordsMore` | client/src/prove/ticcmd.ts:159-165 | One pushed word extends the recorded words by it |
| `Ticcmd.TicLog.Push` | client/src/prove/ticcmd.ts:159-165 | Whatever was recorded, the word reduced to 32 bits comes after it |
| `Ticcmd.TicLog.ToFelts` | client/src/prove/ticcmd.ts:182-184 | The streamed felts are those of packing all words at once |
| `Ticcmd.TicLog.ToWords` | client/src/prove/ticcmd.ts:187-189 | The recorded words come back |
| `Replay.ReconstructGame` | client/src/leaderboard/replay.ts:34-45 | For every cut of a game into segments packed on their own and every order of their logs, the journal holds the words played, packed as a log that recorded them |
| `Replay.ReconstructionIsLog` | client/src/leaderboard/replay.ts:34-45 | `packed` and `tail` are the state of a log that had every word pushed |
| `Replay.OrderRestored` | client/src/leaderboard/replay.ts:35-35 | Sorting by leaf index restores the game's order from any arrival order |
| `Replay.ReconstructJournal` | client/src/leaderboard/replay.ts:34-45 | The unpacking loop and the final repacking, on any logs |

## Left out

- The Cairo router and the prover are seen only from outside: the router as tags, `Step` events and returned state, the prover as a deterministic function of a segment's arguments.
- The consumer transaction of a submission may be sent again after a crash; only router phases are shown to be accepted once.
- Transactions pending at a crash, two clients on one proof id and one echo store shared by several routers are outside the submission model, as is the paging of `stepEvents`.
- The submission and the proving pipeline are transition systems rather than methods, because a crash may come at every await; their calculations are methods in the modules below them.
- Atomics are sequentially consistent, there is one publisher, and SEQ does not wrap; the first ring object is constructed before anything else touches the buffer.
- Of the input ring only the head is modelled, in `RingConstruction`; its words and interpolation (`lerpFixed`, `lerpBam`) are short and single-step.
- Floating point: coordinates, heights and the planner's arithmetic are exact reals; `nextPow2` is exact integer arithmetic.
- `Bsp.PolygonsTileRectangle`: takes the node table as a tree of existing nodes and subsectors, each leaf a subsector of its own, and partitions that have a direction.
- Sector numbers of subsectors are a table of the level, not computed from segs.
- `Indexer.TablesFollowChain`: assumes blocks deeper than the reorg depth final, each row key emitted at most once per chain (the contract refuses a second time), and a completed poll reading one chain.
- Row ids, time stamps, SQL and hex spelling; the query side of the database (leaderboard, statistics).
- `Estimate.SimulateSequence`: takes the ledger as deterministic and unmoved; fees, bounds, prices and the fallback of simulation flags are not part of it.
- Whether the planned segments cover the journal after a crash: the segment and the planned-tics counter are written by two transactions, and only linkage, proofs and the counter's being some segment's end are stated.
- Imported runs, submission bookkeeping, quotas, progress events and the 'proving' and 'verifying' stages, which are one stage in the pipeline model.
- `Planner.Judgement`: takes step ceilings as positive and carries no reason texts; `maxGrowth` and the tic limits are whole numbers.
- `FoldTree.RootBindsPreimages`: takes the hash as an injective function into eight words, and so does `FoldTree.RootBindsExactly`.
- Building the crate graph from the tool's metadata, classifying packages by path, and printing.
- `quadCorners`, vertex upload, light levels and everything the graphics library does; which sectors are dynamic is a parameter of the wall renderer.
- `Atlas.PackAtlas`: takes distinct keys, pictures with one byte of each channel per texel and a minimum size of at least 1.
- Container format and run records of a downloaded replay; texts are byte strings once encoded.
- Panels, capability probes, devnet drivers, fixtures, workers and transport.
