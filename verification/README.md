# ModelBlaster graph passes in Dafny

ModelBlaster compiles a network to a list of ops over named tensors. Each op has a `dispatch_id`,
the ids it depends on, and the tensors it reads and writes. A chain of passes rewrites that list.
This project models the passes and proves that they keep the graph schedulable and keep its meaning.

- `Seqs`, `Shapes`, `TextOrder`: sequences, element counts and the order of names. `Ir`: the graph, and what
  running it means. Kernels are uninterpreted functions of an op's semantic body and its input values; a fused op
  runs its stages and exposes its outputs.
- `Digraph`, `Contraction`: dependency graphs, cycles, and what contracting groups of nodes does.
- `Fusion`, `FusionRewrite`, `Renumbering`, `Schedules`, `FusionMeaning`, `Schedulable`, `RewriteCases`: the fusion
  rewriter from validation to meaning. Orders are compared through the equations a graph stands for: any run that
  respects the data flow solves them and they have one solution.
- `Unfuse`, `UnfuseTable`, `UnfuseMeaning`, `UnfuseSchedule`, `UnfuseRoundTrip`: the inverse rewriter, the tensor
  table and dependencies it leaves, and the round trip.
- `Split`, `SplitFacts`, `Names`: tiling along an output axis, as ops. `Tiles`, `SplitKernels`, `TileMeaning`: what a tile
  computes, as arithmetic and as an op that is run. `SplitRuns`, `SplitMeaning`: lists with tiles, whose readers see the
  join of the tiles, run before and after. `SplitTable`: the tensor table a split leaves.
- `Planner`: the workspace planner of composite kernels, a linear-scan allocator, against a byte
  machine. `PlanFacts`: what its lookups, refusals and calls are, in the graph's own terms.
- `Toposort`, `GraphEdit`: the stable sort, the editor and the diff/patch pair.
- `Prune`, `Casts`, `ConvFold`: passes that change ops and keep values.
- `Attention`, `AttentionFuse`, `JoinedNames`: recognising attention chains and replacing them.
  `AttentionKernels`: what the kernels involved mean. `AttentionMeaning`, `AttentionRewriting`, `AttentionLoop`: values
  before and after. `AttentionFinds`: which chains are found. `AttentionPaths`: which graphs are treated rightly.
  `AttentionCases`: chains that are matched and should not be, and one that should.
- `Bf16`, `Cones`: rounding of float32 bit patterns, and the precision an output can claim.
- `BuildCache`, `Eviction`: the build cache as a protocol between processes, and its eviction.
- `Beam`: beam search over kernel candidates.

Passes that the source writes as loops over changing state are methods (or classes, where an object
keeps the state) proved against specification functions; the theorems are lemmas about those.

Where the code does not do what its text says, the code is modelled and the exact condition proved:

- Fusion validates groups one by one. Two accepted groups can still form a cycle when both are fused
  (`RewriteCases.AcceptedGroupsCanClash`); `Renumbering.ResultSchedulableIff` says when they do not.
- Fusing a graph that still holds an op fused earlier, outside all groups, fails in the second pass
  (`Renumbering.RewriteSucceedsIff`, `RewriteCases.EarlierFusionFails`).
- A fused op is said to take the place of its first member. It takes that of the member with the least id
  (`Renumbering.OrderIsKept`).
- The planner refuses reads of what nothing produces, but not a stage that reads what it is the first to
  touch, nor a read after a partial write (`Planner.OutBeforeInIsPlanned`, `Planner.PartialWriteIsPlanned`). With
  whole writes, stages read only written bytes exactly when no stage does the former (`Planner.ReadsDefinedIff`).
- A tile records the channel it starts at relative to the op it was cut from. Splitting a tile again loses where that
  tile started (`SplitMeaning.ResplitForgetsOffset`).
- Diff and patch are called exact inverses. They are for edits that the patch format can express
  (`GraphEdit.RoundTrip`), which includes everything the editor's own calls can do
  (`GraphEdit.EditorRoundTrip`), but not a changed tensor (`GraphEdit.ChangedTensorIsLost`).
- Pruning keeps what feeds an op with side effects, not only what feeds an output
  (`Prune.DeadIffUnneeded`).
- Inserting casts twice is not the same as once (`Casts.SecondRun`, `Casts.SecondRunCastsAgain`).
- A matched attention chain is followed through the first output of each op, and the stages of a fused op
  are counted without asking what they read. Replacing it keeps values if the first output of each absorbed op
  is what its last stage made, each stage reads the one before it as operand 0, the second bmm reads the
  probabilities as its first matrix, and further outputs are used by nobody (`AttentionMeaning.CleanMatch`,
  `AttentionRewriting.FusingPreservesMeaning`). Without any one of the first three there is a graph on which it does
  not (`AttentionCases`); for the last, `AttentionFuse.NothingMissedIff`. `AttentionPaths.CleanGraph` asks this of the
  score paths of the input graph, once and for all rounds.
- Pads that are not constant zeros are said to be rejected. They are folded or emitted as zeros; so are
  crops, and pads of channels are dropped (`ConvFold.PadIsRightIff` and the lemmas after it).
- The batch-norm fold reads its constant from a keyword and assumes 1e-5 otherwise
  (`ConvFold.BatchNormFoldIsRightIff`, `ConvFold.PositionalConstantIsWrong`), and leaves other readers of the
  convolution without a producer (`ConvFold.ReadersServedIff`).
- The two-byte storage check accepts NaNs that rounding would change (`Bf16.ExactAcceptsWideNaN`).
- A candidate kernel whose op reports no cycles counts as taking none and beats the baseline
  (`Beam.UnreportedWins`).
- Beam search never improves on an improvement: it ends with the first iteration that beats the
  baseline (`Beam.StopMeansBeaten`).

## Model

| member | source | states |
|---|---|---|
| `Planner.WorkspaceReuseIsInvisible` | pipeline/composite_seed.py:145-234 | for every plan that is accepted, all kernels and all initial contents: if stages read only written bytes (see ReadsDefinedIff), pointers stay inside their tensors, parameters are bound to their roots and the constants are filled, then running the stages over the shared workspace gives every stage the inputs it has with one private buffer per tensor, and leaves every parameter buffer with the same final contents |
| `Planner.ReadsDefinedIff` | pipeline/composite_seed.py:186-189 | what the check on reads leaves to its callers, exactly: in a plan whose writes fill whole tensors and whose reads are not empty, stages read only written bytes when and only when no stage reads what it is itself the first to touch |
| `Planner.ReadsDefinedNeedLater` | pipeline/composite_seed.py:186-189 | in any plan whose reads are not empty, reading only written bytes needs that no stage reads what it is the first to touch |
| `Planner.GuardDefines` | pipeline/composite_seed.py:186-189 | and for whole writes that is enough, for empty reads too |
| `Planner.OutBeforeInIsPlanned` | pipeline/composite_seed.py:186-189 | a stage whose output argument precedes an input argument on the same tensor passes the check and reads unwritten bytes |
| `Planner.PartialWriteIsPlanned` | pipeline/composite_seed.py:186-189 | so does a read of a tensor of which only a part has been written |
| `Planner.SharedRunAgrees` | pipeline/composite_seed.py:166-213 | before every stage the shared workspace holds, for each root live there, the bytes its private buffer holds |
| `Planner.MakePlan` | pipeline/composite_seed.py:145-234 | refuses for want of stages exactly when no absorbed op is a kernel op; otherwise returns a plan exactly when no lookup or liveness rule refuses and what first fit needs is within the cap, and refuses for size exactly when it is not; the calls of a plan are those of exactly the absorbed kernel ops, each once and in base order with its own arguments, and the plan satisfies the specification |
| `PlanFacts.RefusedIff` | pipeline/composite_seed.py:168-189 | the liveness scan goes on exactly over arguments that nothing speaks against, and otherwise gives the reason that speaks against the first one: a weight, a constant that is no verified mask or no f16 matrix, a read of what nothing before it touches |
| `PlanFacts.CallsPass` | pipeline/composite_seed.py:206-225 | what a call passes for each argument: a number, a null pointer, or the byte of the workspace or of the parameter's buffer at which the tensor starts |
| `PlanFacts.ParamsAreFirst` | pipeline/composite_seed.py:161-165 | a root is reached through the first pointer parameter of the new op that points into it, at that parameter's offset |
| `PlanFacts.ResolvesAlongViews` | pipeline/composite_seed.py:107-114 | a tensor's memory belongs to the end of its chain of views, at the sum of the offsets along it; the chain ends at what is no view or where it comes back to itself |
| `PlanFacts.GuardsIntegers` | pipeline/composite_seed.py:230-231 | the guard checks every integer argument the plan was made for, each once and in order, and nothing else |
| `PlanFacts.SizeIsLeast` | pipeline/composite_seed.py:193 | a root takes its bytes, rounded up to the next multiple of 256 and no further |
| `PlanFacts.BytesAreNamed` | pipeline/composite_seed.py:124-125 | an element takes the bits its type is named after |
| `PlanFacts.OverlapIff` | pipeline/composite_seed.py:194 | two lifetimes overlap exactly when some stage lies in both |
| `PlanFacts.PlacedInOrder` | pipeline/composite_seed.py:192 | roots are placed in the order of their first stages, and by name, compared letter by letter, where these agree |
| `Shapes.NumelMultiplies` | pipeline/composite_seed.py:117-121 | the number of elements is the product of the sizes, one for none |
| `TextOrder.NamesCompare` | pipeline/composite_seed.py:192 | the order of names is that of the first letter in which they differ, a prefix first |
| `Planner.Place` | pipeline/composite_seed.py:190-202 | the placement is that of first fit in order of first use and name; roots with a common lifetime get disjoint ranges, aligned to 256 bytes and inside a workspace that is as large as needed and no larger |
| `Planner.FirstFitIsUnique` | pipeline/composite_seed.py:190-202 | there is one such placement |
| `Planner.FirstFit` | pipeline/composite_seed.py:194-200 | the offset chosen is aligned and the least one whose range is apart from all blocks live at the same time |
| `Planner.Liveness` | pipeline/composite_seed.py:166-189 | first and last use of every root that is no parameter, or the first reason to refuse, in stage order |
| `Planner.StagesWithinLifetimes` | pipeline/composite_seed.py:166-189 | every touch of a root by a stage falls inside the lifetime recorded for it |
| `Planner.Resolve` | pipeline/composite_seed.py:107-114 | follows views to the owner of the memory and adds the offsets, stopping on a cycle of views |
| `Planner.SortRoots` | pipeline/composite_seed.py:192 | the placement order is by first use and name, a permutation of the roots |
| `Planner.ExprDenotes` | pipeline/composite_seed.py:206-213 | every address expression in an emitted call denotes the first byte of the tensor it stands for |
| `Planner.ConstsSurvive` | pipeline/composite_seed.py:176-185 | a mask constant filled at the start is intact before every stage |
| `Fusion.DepEdges` | pipeline/apply_fusion_hint.py:88-110 | successor and predecessor lists are the known dependencies and their reverse; dangling ones are dropped |
| `Fusion.Closure` | pipeline/apply_fusion_hint.py:113-132 | the worklist finds exactly the nodes reachable from the seeds in one or more steps, each with a seed it is reached from |
| `Fusion.CheckOrder` | pipeline/apply_fusion_hint.py:162-172 | accepts exactly the groups in which no member depends on itself or on a member listed later |
| `Fusion.ValidateFuseGroup` | pipeline/apply_fusion_hint.py:135-199 | accepts exactly the nonempty, duplicate-free, known, topologically ordered, closed groups, and gives a true reason otherwise, naming the least trapped op |
| `Fusion.AcceptedIffSchedulable` | pipeline/apply_fusion_hint.py:174-199 | on an acyclic graph an ordered group is accepted exactly when collapsing it leaves the graph acyclic |
| `Contraction.ClosureCheckIsExact` | pipeline/apply_fusion_hint.py:174-199 | collapsing a set of nodes keeps an acyclic graph acyclic exactly when no outside node lies between two members |
| `Contraction.TrappedMakesCycle` | pipeline/apply_fusion_hint.py:174-199 | an op between two members ends up on a cycle through the fused node |
| `Contraction.JointContractionIsExact` | pipeline/apply_fusion_hint.py:366-401 | collapsing several disjoint groups keeps the graph acyclic exactly when each is closed in the graph contracted so far |
| `Contraction.ClosedGroupsCanClash` | pipeline/apply_fusion_hint.py:366 | a graph with two closed groups whose joint contraction is cyclic |
| `RewriteCases.AcceptedGroupsCanClash` | pipeline/apply_fusion_hint.py:366-463 | a job whose two groups are both accepted and whose rewrite succeeds with cyclic dependencies |
| `RewriteCases.EarlierFusionFails` | pipeline/apply_fusion_hint.py:449-463 | a job with an accepted group whose rewrite fails because another op was fused earlier |
| `Fusion.PairwiseSplit` | pipeline/apply_fusion_hint.py:309-331 | splits a group into consecutive pairs exactly when it alternates linear and elu |
| `Fusion.PairsAreValid` | pipeline/apply_fusion_hint.py:374-379 | every consecutive pair of a valid group is itself valid |
| `Fusion.PairsStaySchedulable` | pipeline/apply_fusion_hint.py:374-387 | contracting all pairs of one valid group at once leaves an acyclic graph |
| `FusionRewrite.BuildFusedOp` | pipeline/apply_fusion_hint.py:228-306 | the fused op with its boundary, kind name, target and verbatim stages |
| `FusionRewrite.BoundaryIsExact` | pipeline/apply_fusion_hint.py:245-271 | inputs are what members read and none makes, outputs what members make and an outside op or the model needs, internal tensors the rest |
| `FusionRewrite.FirstSeenOrder` | pipeline/apply_fusion_hint.py:216-225 | what is listed once stands in the order of the first occurrences |
| `FusionRewrite.TargetIsCommon` | pipeline/apply_fusion_hint.py:202-213 | a group goes where all its members go, and anywhere if they do not agree |
| `FusionRewrite.PairKinds` | pipeline/apply_fusion_hint.py:281-295 | a registered pair is named after its two kinds |
| `FusionRewrite.KindNamesStages` | pipeline/apply_fusion_hint.py:275-281 | any other group is named after all its kinds in order, marked as fused |
| `FusionRewrite.FusedNamesDiffer` | pipeline/apply_fusion_hint.py:297 | groups with another first or last member get another name |
| `FusionRewrite.ExpandedIsValid` | pipeline/apply_fusion_hint.py:368-387 | pairwise mode turns valid groups into valid groups |
| `FusionRewrite.PairsAreRegistered` | pipeline/apply_fusion_hint.py:309-331 | pairwise mode splits exactly the groups whose consecutive pairs all get the registered name |
| `FusionRewrite.ApplyHint` | pipeline/apply_fusion_hint.py:334-485 | refusals in the order they are looked for, with true reasons; otherwise the rewritten list and the remap |
| `Renumbering.RewriteSucceedsIff` | pipeline/apply_fusion_hint.py:449-463 | the second pass fails exactly when a dependency leaving a group dangles or an op left alone was fused earlier |
| `Renumbering.RenumberingIsLossless` | pipeline/apply_fusion_hint.py:417-484 | the remap names every id, takes exactly the values 0 to one less than the new op count, which are the new ids in list order, and joins two ids only inside a group |
| `Renumbering.OrderIsKept` | pipeline/apply_fusion_hint.py:405-446 | the new ids follow the positions of the old ops, a group standing where its member of least id stood |
| `Renumbering.EdgesAreContracted` | pipeline/apply_fusion_hint.py:449-463 | the dependencies of the result are those of the contracted graph under the new ids |
| `Renumbering.ResultSchedulableIff` | pipeline/apply_fusion_hint.py:334-485 | the result is acyclic exactly when each group is closed in the graph contracted so far |
| `Renumbering.OneGroupStaysSchedulable` | pipeline/apply_fusion_hint.py:334-485 | fusing one accepted group leaves an acyclic graph |
| `Renumbering.PairwiseStaysSchedulable` | pipeline/apply_fusion_hint.py:374-387 | fusing all pairs of one accepted group leaves an acyclic graph |
| `Schedules.RunSolves` | pipeline/apply_fusion_hint.py:228-306 | running ops in data-flow order solves the equations of the graph |
| `Schedules.SolutionIsUnique` | pipeline/apply_fusion_hint.py:228-306 | the equations have one solution |
| `Schedules.OrderDoesNotMatter` | pipeline/apply_fusion_hint.py:1-44 | every order the dependencies allow computes the same values |
| `FusionMeaning.ResultIsDataflow` | pipeline/apply_fusion_hint.py:334-485 | the rewritten graph has distinct ids, one producer per tensor, readers depending on producers, and fused ops whose stages read only what they are given |
| `FusionMeaning.FusionPreservesMeaning` | pipeline/apply_fusion_hint.py:228-306 | for any set of accepted groups and any dependency-respecting orders before and after: every tensor that is not hidden in a fused op keeps its value |
| `FusionMeaning.HiddenStaysInside` | pipeline/apply_fusion_hint.py:263-271 | hidden tensors are exactly those listed as internal; no op of the result reads or writes one and no model output is one |
| `Schedulable.SchedulableIffAcyclic` | pipeline/apply_fusion_hint.py:174-184 | an order that respects the dependencies exists exactly when they have no cycle |
| `Schedulable.OneGroupFusionWorks` | pipeline/apply_fusion_hint.py:334-485 | fusing one accepted group of a schedulable data-flow graph leaves a graph that has an order, and every such order keeps the value of each tensor that is not hidden |
| `Unfuse.Validate` | pipeline/apply_unfuse_hint.py:97-138 | accepts exactly chains of at least two complete stages that end in the op's outputs, and gives a true reason otherwise |
| `Unfuse.ApplyUnfuse` | pipeline/apply_unfuse_hint.py:175-262 | validates every entry before rewriting; restores the stages, registers missing inner tensors and derives dependencies from producers |
| `Unfuse.Relink` | pipeline/apply_unfuse_hint.py:238-252 | dependencies are the sorted ids of the last producers of the inputs, the op itself excepted |
| `UnfuseTable.TableIsRight` | pipeline/apply_unfuse_hint.py:222-235 | after a successful unfusing every entry of before is as it was, every new one is of what a restored stage hands to the next, and everything handed on is in the table with the dtype and shape its maker's entries give |
| `UnfuseTable.DependsIff` | pipeline/apply_unfuse_hint.py:238-252 | an op depends on exactly the other ops that wrote something it reads last, each named once and in increasing order; views keep what they had |
| `UnfuseMeaning.UnfusingPreservesMeaning` | pipeline/apply_unfuse_hint.py:197-236 | in list order: if nobody else reads what lived inside the unfused ops, every other tensor keeps its value |
| `UnfuseSchedule.UnfusedIsSchedulable` | pipeline/apply_unfuse_hint.py:197-252 | the derived dependencies allow an order, and every order they allow gives each tensor that did not live inside its old value |
| `UnfuseRoundTrip.UnfuseUndoesFuse` | pipeline/apply_unfuse_hint.py:166-262 | fusing neighbours and unfusing the result gives back every op, with only the tag and a defaulted target added, and the same tensors |
| `Split.SplitPlain` | pipeline/apply_split_hint.py:72-150 | tiles of a linear op or convolution: narrowed entry, own output, recorded offset; refuses a width that does not divide |
| `Split.SplitFused` | pipeline/apply_split_hint.py:190-254 | tiles of a fused convolution: stages renamed apart and narrowed where the width can be verified |
| `Split.RegisterTiles` | pipeline/apply_split_hint.py:270-318 | registers the missing tile tensors with the parent's dtype and scale, narrowed on the split axis (see SplitTable.TableIsRight) |
| `Split.ApplySplit` | pipeline/apply_split_hint.py:321-437 | the whole rewrite, with the first refusal in source order |
| `SplitFacts.SplitIff` | pipeline/apply_split_hint.py:333-368 | a hint is carried out exactly when every entry names a known op of a kind that can be split and asks for two tiles or more, and every op asked for can be cut into as many |
| `SplitFacts.TargetsAreLast` | pipeline/apply_split_hint.py:351 | of several entries for one op the last counts |
| `SplitTable.TableIsRight` | pipeline/apply_split_hint.py:271-318 | after a split what was registered is as it was, what is new is a tile, and every new tile of an op whose tensor is registered with its own sizes ([N, OC, OH, OW] or [M, N], written out from the op) is registered with the tile's own sizes and the parent's dtype and scale |
| `SplitTable.TileCounts` | pipeline/apply_split_hint.py:292-299 | these sizes count the elements of the value the tile holds, and as many tiles of that count make the parent's |
| `SplitTable.TileCountsAddUp` | pipeline/apply_split_hint.py:292-299 | the counts of the tiles add up to the parent's |
| `SplitFacts.AxisIsCovered` | pipeline/apply_split_hint.py:92-108 | every channel of the split axis belongs to exactly one tile |
| `SplitFacts.TilesShareNothing` | pipeline/apply_split_hint.py:229-247 | no tensor is made by two tiles, neither an output nor one between stages |
| `SplitFacts.RenumberingCounts` | pipeline/apply_split_hint.py:353-437 | the id lists in op order, joined, are the ids of the result in list order and count from 0 |
| `SplitFacts.EdgesSpread` | pipeline/apply_split_hint.py:395-408 | a tile depends on another op exactly where its original did, on all tiles of what was split |
| `SplitFacts.SplittingKeepsCycles` | pipeline/apply_split_hint.py:395-408 | the result is acyclic exactly when the input was |
| `SplitFacts.OrderIsKept` | pipeline/apply_split_hint.py:395-408 | a list whose dependencies all stand earlier keeps that property |
| `Tiles.TilesPartition` | pipeline/apply_split_hint.py:92-108 | tile ranges of equal width cover the axis once |
| `Tiles.LinearSplit` | pipeline/apply_split_hint.py:72-109 | joining slices of an int8 linear layer along the feature axis gives the unsplit output, element by element; TileMeaning shows that the tile ops compute these slices |
| `Tiles.ConvSplit` | pipeline/apply_split_hint.py:112-150 | the same for an int8 convolution and its output channels |
| `Tiles.FusedSplit` | pipeline/apply_split_hint.py:190-254 | the same for a convolution followed by any per-channel normalisation and activation |
| `SplitKernels.SimulatorInterprets` | pipeline/extract_graph.py:801-861 | the int8 simulator is a family of kernels of the kind the split theorems ask for |
| `TileMeaning.TileHoldsItsPart` | pipeline/apply_split_hint.py:72-254 | every tile that the splitter makes of a layer whose shape fits its parameters, run as the op it is (sizes from its own narrowed shape entries, parameters from its recorded offset), holds the channels from that offset on, as many as its shape says, of what the unsplit op makes; the widths are equal and add up to the whole |
| `TileMeaning.ChainMakes` | pipeline/extract_graph.py:2596-2618 | a fused convolution, run stage by stage, makes what the simulator makes of convolution, normalisation and activation in turn |
| `TileMeaning.ChainIsFused` | pipeline/apply_split_hint.py:190-254 | that is one fused kernel on slices of every parameter, whichever channel the parameters start at |
| `TileMeaning.StagesNarrowed` | pipeline/apply_split_hint.py:164-187 | every stage of a fused tile is narrowed in its own entry: channels of the convolution, channels of the normalisation, element count of the activation |
| `SplitRuns.TiledRunSolves` | pipeline/apply_split_hint.py:395-408 | running a list with tiles, whose readers see joins, in data-flow order solves the equations of the list |
| `SplitRuns.TiledSolutionIsUnique` | pipeline/apply_split_hint.py:395-408 | these equations have one solution |
| `SplitMeaning.JoinIsMade` | pipeline/apply_split_hint.py:22-27 | in any run of the rewritten list the join of the tiles, put together from their own shapes, is what the split op would make |
| `SplitMeaning.SplittingPreservesMeaning` | pipeline/apply_split_hint.py:321-437 | for all kernels that are the simulator's on layers and anything else elsewhere, all inputs and all orders either list allows: every tensor that is no new tile has its old value for its readers, the split ones as the join of their tiles; asked of the list: declared dependencies, one maker per tensor, fresh tile names, and that split ops are layers that fit their parameters and are no tiles |
| `SplitMeaning.ResultIsRunnable` | pipeline/apply_split_hint.py:395-408 | the result again has declared dependencies, through joins too, one maker per tensor and contained fused ops, so it can be run in any order and split again |
| `SplitMeaning.SplitsPreserveMeaning` | pipeline/apply_split_hint.py:321-437 | the same for any number of splits one after the other |
| `SplitMeaning.SplitsKeepPlainRun` | pipeline/apply_split_hint.py:321-437 | starting from a list without tiles, the values are those of an ordinary run of it |
| `SplitMeaning.OneLayerCanBeSplit` | pipeline/apply_split_hint.py:72-109 | a layer with two features meets what the theorems ask for |
| `SplitMeaning.ResplitForgetsOffset` | pipeline/apply_split_hint.py:100-105 | the new tiles of a tile are recorded where their channels start exactly when the tile itself started at channel 0 |
| `Tiles.StoredAlikeIff` | pipeline/apply_split_hint.py:77-85 | tiles stored back to back are the unsplit tensor exactly when the outer dimension is 1 |
| `Names.TileNamesDiffer` | pipeline/apply_split_hint.py:229-247 | two tile names are equal only for the same tensor and the same tile |
| `Toposort.Order` | pipeline/graph_edit.py:92-108 | the worklist picks the least ready index each time, until nothing is ready |
| `Toposort.CompleteIffAcyclic` | pipeline/graph_edit.py:92-108 | every index is placed exactly when the dependencies have no cycle |
| `Toposort.LexicographicallyLeast` | pipeline/graph_edit.py:92-108 | among all topological orders the one found is lexicographically least |
| `Toposort.SortedStays` | pipeline/graph_edit.py:69-71 | a list already in order stays as it is |
| `Toposort.Toposort` | pipeline/graph_edit.py:69-109 | the sorted graph, or the error the source raises: two producers, a missing input, a cycle |
| `Toposort.RefusedAs` | pipeline/graph_edit.py:72-109 | which graphs are refused and as what: a tensor made twice, else a read of what nothing gives, else a cycle, and nothing more |
| `Toposort.SortedIsInOrder` | pipeline/graph_edit.py:69-109 | a successful sort permutes the ops and afterwards every read comes after its maker |
| `Toposort.SortIsIdempotent` | pipeline/graph_edit.py:69-109 | sorting a sorted graph changes nothing |
| `GraphEdit.ApplyPatch` | pipeline/graph_edit.py:214-253 | refuses a stale, duplicate or missing part; otherwise the patched and sorted graph |
| `GraphEdit.StaleIff` | pipeline/graph_edit.py:223-227 | a patch is refused as stale exactly when the graph lacks an op that the edit removed or changed, or has it with another kind, shape, operands, stages, target or origin |
| `GraphEdit.ExistsIff` | pipeline/graph_edit.py:228-249 | a patch that is not stale is refused for what exists exactly when an op it adds has the name of one that stays, or a tensor or derived weight it adds is there with another description |
| `GraphEdit.RoundTrip` | pipeline/graph_edit.py:190-253 | applying the patch of an edit reproduces it, op by op in kind, shape, operands, stages, target and origin, exactly when the edit is expressible: io kept, no registered tensor changed, an unregistered one unused, derivations only added |
| `GraphEdit.PatchedComputesTheSame` | pipeline/graph_edit.py:190-253 | whenever the patch of an edit applies to its base, every tensor has the same value after running the patched graph as after running the sorted edited one, for all kernels and inputs |
| `GraphEdit.DigestTells` | pipeline/graph_edit.py:56-59 | the digest tells apart exactly the ops that differ in more than the number, dependencies and marks |
| `GraphEdit.ChangedTensorIsLost` | pipeline/graph_edit.py:190-212 | an edit that changes the shape of a registered tensor is not reproduced |
| `GraphEdit.EditorRoundTrip` | pipeline/graph_edit.py:113-253 | for any sequence of editor calls that leaves a sortable graph the patch reproduces it |
| `GraphEdit.StepsGrow` | pipeline/graph_edit.py:149-182 | what any sequence of editor calls keeps: distinct names, io, and every registered tensor and derivation |
| `GraphEdit.ReapplyRefused` | pipeline/graph_edit.py:214-253 | a patch that adds or removes an op is refused on its own result |
| `GraphEdit.SameOpsSortAlike` | pipeline/graph_edit.py:56-109 | whether a graph sorts does not depend on op order or bookkeeping |
| `GraphEdit.Editor.constructor` | pipeline/graph_edit.py:120-124 | the editor starts from the graph it is given |
| `GraphEdit.Editor.AddTensor` | pipeline/graph_edit.py:149-153 | adds a tensor under a new name, or refuses and changes nothing |
| `GraphEdit.Editor.AddOp` | pipeline/graph_edit.py:155-161 | adds an op under a new name, or refuses and changes nothing |
| `GraphEdit.Editor.RemoveOps` | pipeline/graph_edit.py:163-168 | removes the named ops, or refuses when one is missing |
| `GraphEdit.Editor.Rewire` | pipeline/graph_edit.py:170-182 | renames reads, in stages too, and counts them |
| `GraphEdit.RewiresExactly` | pipeline/graph_edit.py:170-182 | in the selected ops and their stages every read of the old name, and no other, becomes one of the new; the rest is untouched |
| `GraphEdit.CountsReads` | pipeline/graph_edit.py:170-182 | nothing is counted exactly when no selected op or stage reads the old name |
| `GraphEdit.Editor.Derive` | pipeline/weight_derivations.py:447-468 | adds a derived weight under a new prefixed key, or refuses |
| `GraphEdit.Editor.Result` | pipeline/graph_edit.py:184-187 | sorts in place; a refused sort leaves the graph as it was |
| `Prune.Analyse` | pipeline/graph_prune.py:61-77 | the backward scan computes the dead positions and the live tensors |
| `Prune.DeadOps` | pipeline/graph_prune.py:51-53 | the dead positions in list order |
| `Prune.PruneSelection` | pipeline/graph_prune.py:80-94 | the live part of a selection, in its order and with its repetitions, or the selection itself when nothing is dead or nothing would be left |
| `Prune.PruningIsSound` | pipeline/graph_prune.py:61-77 | running only the kept ops gives the same graph outputs as running all, for all kernels and inputs |
| `Prune.DeadIffUnneeded` | pipeline/graph_prune.py:61-77 | on a list whose readers follow their makers an op is dead exactly when it is not always live and no data-flow path leads to a graph output or an always-live op |
| `Prune.LiveTensors` | pipeline/graph_prune.py:46-48 | a tensor is live exactly when it is a graph output or read by a kept op |
| `Prune.PruningIsIdempotent` | pipeline/graph_prune.py:61-77 | pruning a pruned list drops nothing |
| `Bf16.RoundsToNearestEven` | pipeline/cuda_dtypes.py:183-190 | for every finite pattern the result is the bfloat16 of section 4.3.1 of IEEE 754-2019: nearest, ties to even, overflow from the midpoint on to infinity |
| `Bf16.WrapsOnlyOnNaN` | pipeline/cuda_dtypes.py:183-190 | the 32-bit addition wraps only on NaN patterns |
| `Bf16.NaNStaysQuiet` | pipeline/cuda_dtypes.py:189-190 | a NaN stays a NaN of the same sign, quiet, with a zero low half |
| `Bf16.InfinityStays` | pipeline/cuda_dtypes.py:193-195 | infinities are kept |
| `Bf16.FixedPoints` | pipeline/cuda_dtypes.py:183-202 | rounding fixes exactly the patterns whose low half is zero and which, if NaN, are quiet |
| `Bf16.ExactIffRoundingKeeps` | pipeline/cuda_dtypes.py:217-221 | the storage check accepts exactly the arrays that rounding leaves alone, NaNs aside |
| `Bf16.ExactAcceptsWideNaN` | pipeline/cuda_dtypes.py:217-221 | a NaN that does not fit two bytes passes the check |
| `Bf16.RoundingIsIdempotent` | pipeline/cuda_dtypes.py:183-202 | rounding twice is rounding once |
| `Bf16.RoundingIsMonotone` | pipeline/cuda_dtypes.py:183-202 | rounding respects the order of all non-NaN values |
| `Bf16.ThresholdIsMidpoint` | pipeline/cuda_dtypes.py:183-190 | the overflow threshold is the midpoint between the greatest bfloat16 and 2 to the 128 |
| `Bf16.RoundBf16` | pipeline/cuda_dtypes.py:193-202 | rounds every element, chunk by chunk, into a new array |
| `Bf16.Bf16Bits` | pipeline/cuda_dtypes.py:205-214 | the two-byte storage from which the rounded patterns can be recovered |
| `Cones.ConeOf` | pipeline/cuda_dtypes.py:246-262 | the worklist finds the narrowest storage among a tensor and all it depends on, weights included |
| `Cones.ConeDtypes` | pipeline/cuda_dtypes.py:235-263 | the same for every tensor asked for |
| `Cones.MakersAreLast` | pipeline/cuda_dtypes.py:240-243 | a tensor is made by the last op that lists it, inside a fused op too |
| `Cones.ConeIsMonotone` | pipeline/cuda_dtypes.py:235-239 | there is one answer, and no tensor claims a tighter bound than one it depends on |
| `Casts.ExportWalker.CastOne` | pipeline/extract_graph_export.py:487-531 | the tensor an input is replaced by, the cast op made for it if there is none yet, and its table entry |
| `Casts.ExportWalker.CastInputs` | pipeline/extract_graph_export.py:485-533 | replaces the inputs of one op |
| `Casts.ExportWalker.InsertCasts` | pipeline/extract_graph_export.py:470-534 | the new op list and tensor table of one run |
| `Casts.WellTypedAfterOneRun` | pipeline/extract_graph_export.py:470-534 | every i8 or f16 input of an original op has the precision the op works in |
| `Casts.OneCastPerPair` | pipeline/extract_graph_export.py:481-528 | exactly one cast per mismatched pair, before every op that asked for it, and no other |
| `Casts.CastIsDescribed` | pipeline/extract_graph_export.py:500-531 | a cast is named after both precisions, carries the element count and the scale of what it reads, and makes a tensor of the same shape in the precision its kind works in |
| `Casts.ErasingCasts` | pipeline/extract_graph_export.py:532-534 | dropping the casts from the emitted list and reading through them gives the original list |
| `Casts.RestoringInputs` | pipeline/extract_graph_export.py:529-531 | reading through the casts gives every op its original inputs |
| `Casts.CastingPreservesMeaning` | pipeline/extract_graph_export.py:470-534 | if a cast is the identity up to precision, no original tensor changes its value |
| `Casts.UnchangedIffNothingAsked` | pipeline/extract_graph_export.py:470-534 | a run leaves the list alone exactly when nothing was mismatched |
| `Casts.SecondRun` | pipeline/extract_graph_export.py:470-534 | the pass can be run on its own result; that changes nothing exactly when the first run inserted nothing, and otherwise casts the casts again |
| `Casts.SecondRunCastsAgain` | pipeline/extract_graph_export.py:470-534 | one float op with one int8 input is such a list |
| `Attention.FollowReader` | pipeline/attention_fuse.py:90-102 | the single reader of a tensor, views skipped |
| `Attention.FindMatch` | pipeline/attention_fuse.py:105-174 | the match found by walking the chain, or none |
| `AttentionFinds.MatchFinds` | pipeline/attention_fuse.py:105-174 | every score bmm whose scores go through positive factors, at most one mask of exactly the later keys and one softmax over the row or relu, views anywhere between, each result handed to the next op only, to a plain bmm of fitting sizes is matched, with the product of the factors as scale |
| `AttentionPaths.MatchScale` | pipeline/attention_fuse.py:51-57 | the scale of a match is the product of what the absorbed stages multiply scores with: the constant of a multiplication, one over that of a division |
| `AttentionKernels.OverUndone` | pipeline/attention_fuse.py:54-56 | a division by a constant is what, times the constant, gives back the dividend, infinities included |
| `AttentionKernels.OnlyPositiveScalesHide` | pipeline/attention_fuse.py:136-140 | a hidden score stays hidden under a factor exactly when the factor is positive |
| `AttentionKernels.ReferenceInterprets` | pipeline/attention_fuse.py:105-174 | kernels that mean what the reference kernels say exist |
| `AttentionMeaning.MatchMeansAttention` | pipeline/attention_fuse.py:105-174 | in a graph whose matched ops are clean, for kernels that mean what the reference kernels say: the second bmm holds act(product of the scales * q k, later keys hidden when causal) v |
| `AttentionRewriting.FusingPreservesMeaning` | pipeline/attention_fuse.py:178-264 | replacing a clean match keeps the value of every tensor that does not go away, for all such kernels and all inputs |
| `AttentionRewriting.OutputsAreKept` | pipeline/attention_fuse.py:246-264 | no output of the graph goes away |
| `AttentionPaths.MatchIsPath` | pipeline/attention_fuse.py:105-174 | whatever is matched is a score path: a score bmm, ops that scale, mask or act on scores with an activation among them, and a plain bmm, each reading the first output of the one before |
| `AttentionPaths.CleanGraphMatches` | pipeline/attention_fuse.py:105-174 | if every score path of the graph is clean (see CleanPath), constants hold what the lookup says and layouts split the batch, every match is clean |
| `AttentionPaths.StaysClean` | pipeline/attention_fuse.py:229-274 | replacing a match of such a graph leaves such a graph: it makes no new score path |
| `AttentionPaths.LocallyCleanIsClean` | pipeline/attention_fuse.py:105-174 | looking at single ops and reads is enough: every op a path may go through has one output, made by its last stage, every stage reads the one before as operand 0, and such an op is read by another only as operand 0 of its first stage |
| `AttentionLoop.FusionsPreserveMeaning` | pipeline/attention_fuse.py:229-276 | for a graph whose score paths are clean, a condition on the input graph alone, and any number of replacements: every tensor that does not go away keeps its value, no output goes away, and names stay apart |
| `AttentionLoop.PlainNamesAreApart` | pipeline/attention_fuse.py:222 | different names without plus signs are apart, so joined names never clash |
| `AttentionCases.StraightIsFused` | pipeline/attention_fuse.py:105-174 | a plain bmm, factor, relu and bmm meet all of these conditions, and with the reference kernels the replacement gives the same result |
| `AttentionCases.ExposedScoreIsWrong` | pipeline/attention_fuse.py:115-134 | a match in which an op's first output is not what its last stage made: the result changes and an op is left reading what nobody makes |
| `AttentionCases.SkippedStageIsWrong` | pipeline/attention_fuse.py:115-134 | a match in which a stage does not read the one before it: the result changes |
| `AttentionCases.SecondMatrixIsWrong` | pipeline/attention_fuse.py:123-125 | a match whose probabilities are the second matrix: the replacement reads what it replaces |
| `AttentionFuse.MatchIsPrivate` | pipeline/attention_fuse.py:90-148 | every absorbed op hands its result to the next one only and none of these results is a graph output |
| `AttentionFuse.NothingMissedIff` | pipeline/attention_fuse.py:246-264 | nobody misses what the rewrite removes exactly when nobody uses a further output of the removed ops |
| `AttentionFuse.SpliceFlows` | pipeline/attention_fuse.py:246-256 | inserting the new op after the producers of its inputs keeps the list in data-flow order |
| `AttentionFuse.FuseAtKeeps` | pipeline/attention_fuse.py:229-274 | one replacement keeps the graph well formed and lowers the number of ops headed by a bmm |
| `AttentionFuse.TableAfterFuse` | pipeline/attention_fuse.py:253-266 | a replacement takes exactly those tensors off the table that an op it stands for made, itself or in a stage, and that it does not read or make |
| `AttentionFuse.Fuse` | pipeline/attention_fuse.py:229-276 | the loop ends, after at most as many replacements as there were such ops, with nothing left to match |
| `ConvFold.FoldedIsNormed` | pipeline/extract_graph_export.py:1660-1673 | the folded convolution is the normalised convolution with the constant the fold used, for all strides, dilations, kernels and groups |
| `ConvFold.OneWeight` | pipeline/extract_graph_export.py:1049-1107 | a kernel with one weight gives bias plus this weight times the element its stride, dilation, padding and group make it meet |
| `ConvFold.WeightsAddUp` | pipeline/extract_graph_export.py:1049-1107 | kernels add up, so the convolution is the sum over its weights |
| `ConvFold.BatchNormFoldIsRightIff` | pipeline/extract_graph_export.py:1660-1673 | the fold is right for every value exactly when the channel has no gain or the constant it used is the layer's own |
| `ConvFold.NormEquation` | pipeline/extract_graph_export.py:1660-1673 | what a batch norm makes of y, less beta, times the root of variance plus its constant, is gamma times y less mean |
| `ConvFold.FoldEquation` | pipeline/extract_graph_export.py:1660-1673 | the same for the constant the fold used |
| `ConvFold.EmittedNormalises` | pipeline/extract_graph_export.py:1660-1673 | the same between every element of the emitted convolution and of the plain one |
| `ConvFold.PadIsRightIff` | pipeline/extract_graph_export.py:1083-1107 | for pads of any signs, lengths and modes: the emitted convolution has the shape and outputs of the convolution of the padded image, for every image and kernel, exactly when all pads are zero, or channels and batch are not padded, what is added is zeros, and nothing that is folded crops |
| `ConvFold.FoldIsRightIff` | pipeline/extract_graph_export.py:1049-1107 | pad, convolution and batch norm in a row equal what is emitted, in a channel, for every image and kernel, exactly when the shape is kept and the channel has no gain, or the pad is harmless and the constant is the one the fold picked up |
| `ConvFold.NonzeroPadIsLost` | pipeline/extract_graph_export.py:1088-1100 | a pad with a nonzero value is folded all the same and its value is lost |
| `ConvFold.CroppedPixelsComeBack` | pipeline/extract_graph_export.py:1088-1100 | a crop is folded all the same, and the padding of the convolution reads what was cropped |
| `ConvFold.ReflectionIsLost` | pipeline/extract_graph_export.py:1088-1100 | a reflecting pad is folded all the same and becomes zeros |
| `ConvFold.AddedChannelsAreDropped` | pipeline/extract_graph_export.py:1088-1100 | pads behind the fourth are dropped |
| `ConvFold.UnfoldedValueIsLost` | pipeline/extract_graph_export.py:1590-1621 | a pad that stays an op adds zeros whatever its value |
| `ConvFold.PositionalConstantIsWrong` | pipeline/extract_graph_export.py:1668 | a layer with a gain and a constant that is not the assumed one is folded wrongly |
| `ConvFold.ReadersServedIff` | pipeline/extract_graph_export.py:1073-1079 | every reader of a convolution finds its tensor exactly when no reader is a batch norm or the only one is; beside a batch norm every other reader is left without its tensor |
| `ConvFold.FoldConv` | pipeline/extract_graph_export.py:1049-1107 | what is emitted for pad, convolution and batch norm has, wherever the fold is harmless, the shape and outputs of the three in a row |
| `BuildCache.EveryReturnIsSound` | pipeline/build_cache.py:165-229 | over all interleavings with time-outs, evictions and crashes: a call that returns 0 has a whole product of a successful run at its output, a stored error comes from a deterministic failure, and a failed run is not reported as 0 |
| `BuildCache.AlwaysSafe` | pipeline/build_cache.py:165-229 | the invariant behind it, kept by every step of every call |
| `BuildCache.AtMostOneRunSucceeds` | pipeline/build_cache.py:143-229 | without time-outs, evictions and crashes: at most one run for the key succeeds, at most one call is inside the lock, and all calls that return 0 have one product |
| `BuildCache.HitReturnsProduct` | pipeline/build_cache.py:167-191 | a product in the cache is handed out by the next two steps of a call, before the lock or inside it |
| `BuildCache.NegHitIsFresh` | pipeline/build_cache.py:134-141 | a stored error that is returned is no older than the time to live, which is positive |
| `BuildCache.ErrorsAreDated` | pipeline/build_cache.py:212-217 | over all interleavings a stored error is dated no later than now |
| `BuildCache.FailureIsStored` | pipeline/build_cache.py:212-219 | a failure is remembered exactly when it is deterministic, if errors are kept at all |
| `BuildCache.MissThenHit` | pipeline/build_cache.py:161-229 | a call that finds nothing builds the product, and a later call is given it without a run of its own |
| `Eviction.Choose` | pipeline/build_cache.py:247-258 | removes a prefix in order of age: every removed file was old enough and still needed to go, and it stops at four fifths of the cap or when only young files are left |
| `Eviction.Directory.List` | pipeline/build_cache.py:237-243 | the counted files, sorted by time, size and path |
| `Eviction.ListedInOrder` | pipeline/build_cache.py:237-243 | of two files the one used longer ago comes first, then the smaller, then the one whose path comes first |
| `Eviction.Directory.Evict` | pipeline/build_cache.py:231-259 | exactly the chosen files and the notes beside them go, and the counter grows by their number |
| `Beam.NormalFormIsWords` | pipeline/generate_kernels.py:1095-1096 | two texts have one normal form exactly when they have the same words; normalising twice is normalising once |
| `Beam.NeverMeasuredTwice` | pipeline/generate_kernels.py:1163-1175 | no two candidates that are built have one normal form, and none has the baseline's |
| `Beam.BestIsMinimum` | pipeline/generate_kernels.py:1246-1247 | the winner is the baseline or a survivor and nothing that survived is cheaper |
| `Beam.SurvivorsPassed` | pipeline/generate_kernels.py:1163-1247 | the survivors are exactly the candidates that are new, were built, passed every check that was asked for and carry the cycles they were measured at |
| `Beam.UnreportedWins` | pipeline/generate_kernels.py:1235 | a candidate whose op reports no cycles counts as taking none and beats the baseline |
| `Beam.StopMeansBeaten` | pipeline/generate_kernels.py:1253-1256 | the test that ends the search early holds exactly when something has beaten the baseline |
| `Beam.RankedIsSorted` | pipeline/generate_kernels.py:1253 | ranking sorts by cycles and keeps every candidate |
| `Beam.TakesTheBest` | pipeline/generate_kernels.py:1253 | the next beam is as many of the cheapest candidates as fit |
| `Beam.ViableForms` | pipeline/generate_kernels.py:1260-1270 | survivors have distinct normal forms, so the final dedupe drops nothing |
| `Beam.BeamSearch` | pipeline/generate_kernels.py:1099-1270 | the winner is the baseline or a candidate that passed, with the cycles it was measured at, and no candidate that passed is cheaper; one record per call naming its parent, the generations, the bound on calls, and that a later iteration starts only while nothing has beaten the baseline |

## Left out

- Files, command lines, printing, device runs, language-model clients and the emitted C and CUDA text.
- Names: unique-name generation, and the hash behind op digests (the hashed content is compared itself).
- The helpers behind argument binding, layout folding, kernel signatures and weight evaluation; binding results, layout numbers and weight keys are inputs.
- Floating point: batch norm is over exact reals and attention over exact reals with infinities, a cast is the identity up to precision, and the eviction goal is four fifths of the cap without rounding.
- Bit masks and shifts of the bfloat16 code are written as arithmetic on 32-bit integers; vectorised array code is an element-by-element loop.
- The heap of the sort is a set from which the least element is taken.
- An op added to the editor is a value: later changes to the caller's own copy are not modelled.
- The `dispatches` list, and the names of errors beyond what tells them apart.
- Unfuse.ApplyUnfuse: a restored op that was itself a tile or a fused op loses that earlier tag, because an op has one origin here; the description of a synthesised tensor omits where it came from.
- UnfuseRoundTrip.UnfuseUndoesFuse: is about neighbours in list order, ids counting from 0 and dependencies derived from producers; restored members come back with an explicit default target where they had none.
- FusionMeaning.FusionPreservesMeaning: is about view-free graphs with one producer per tensor, because the code counts neither reads nor writes of view ops.
- Planner.WorkspaceReuseIsInvisible: reasons about one plan; the generated file shares one workspace and its fill flags between branches.
- AttentionFuse.Fuse: copies in front of and behind the chain are not folded into the layout, and the offsets and strides of the attention kernel are not modelled: its operands lie one after the other.
- AttentionRewriting.FusingPreservesMeaning: says that a clean match is enough; a match that is not clean may still compute the same by coincidence, for instance with a factor of 1. A mask marked as verified earlier is trusted to be one, and the op's two batch numbers are taken to multiply to the batch.
- ConvFold.ReadersServedIff: is about the int8 path; the half-precision path emits the batch norm as an op of its own.
- ConvFold.FoldConv: quantisation of the folded weights is not modelled.
- Casts.ExportWalker.InsertCasts: assumes that a tensor which already has the name of a cast to be made, and is read, is described as that cast would be; the code would overwrite another description half-way through the list.
- GraphEdit.Editor.Derive: the recorder's checks on expressions and their evaluation are not modelled.
- Tiles.FusedSplit: batch norm and activation are one uninterpreted function of the channel's two parameters and one element.
- SplitMeaning.SplittingPreservesMeaning: is about view-free lists; a fused op to be split is a convolution, a normalisation and at most one activation that read each other in turn, and tiles of tiles are not joined (see ResplitForgetsOffset). Where a backend repacks weights, a tile's slice is an array of its own; here it is a slice either way. The generated code, which refuses tiles of tensors with an outer dimension above 1, is not modelled.
- BuildCache.EveryReturnIsSound: linking, renaming and locking are single steps, and the copy that replaces a link across file systems is one too; a process that dies releases its lock.
- Beam.BeamSearch: the model's replies and the measurements are inputs, and the baseline's cycles are positive because the progress line divides by them.
- Shard annotation, dispatch emission, pricing and the profile database.
