# SoN, verified

A Dafny model of the SoN sea-of-nodes compiler: the use-def graph, the control-flow
analyses, the global scheduler, the linear order, liveness, the linear-scan register
allocator and the rewriting passes, with proofs of what each of them promises. One
module stands for each component of the source; the files without a counterpart
(`SeqUtil`, `Tree`, `ControlFlow`, `NaturalLoops`, `Bits`, `Values`, `Rewriting`) hold
the mathematics the components share, `RegionEdges` reads edges off the node graph,
`SearchOrder` adds to `DepthFirstSearch` which search it is, `Backend` joins liveness and
allocation, the files `ChecksExample`, `ChecksTreeExample` and `LivenessExample` hold
functions on which a pass does not do what it is for, and `JoinExample` holds one on which
liveness is worked out in numbers. `dafny verify dfyconfig.toml` checks everything.

## How the source is represented

- A node is an index into a node table (`UseDef.Graph.nodes`); it has a kind, a type,
  operand slots that may be empty, and the multiset of its users. `unique_ptr`
  ownership and `isa`/`dynamic_cast` become indices and kinds.
- A region is a number in a control-flow graph with ordered successor and predecessor
  lists (`ControlFlow.Cfg`). A region node carries the number of its region; the number
  is a name given for one analysis, not a property the passes maintain. Start, end and
  other regions are three kinds, as in the source, where only the last are `RegionNode`s.
- The end region is entered by returns, which `successors()` reports and `predecessors()`
  does not. A region without successors may therefore list any part of the regions that
  enter it, or none (`Cfg.Wf`); all others list exactly the regions that enter them.
- Classes with mutable fields (`RegAlloc`, `DomTree`, `LoopInfo`, `Liveness`, the node
  graph) are classes whose methods update those fields; worklists and tables are local
  variables and arrays, as in the source. Loops are records inside `LoopInfo`, and
  `Loop *` pointers are positions in its list.
- Hash iteration order is arbitrary: set and multiset elements are taken in any order,
  and the order of successor lists is a parameter. `std::sort` is a stable sort, which
  fixes the order of ties that the source leaves open; no claim depends on it.
- Out-of-range `.at()` calls and failing `assert`s of the source are preconditions.
- Values live modulo 2^w for a type of w bits. Arguments, phis, calls and regions are
  leaves with arbitrary values; every operator other than Add, Xor and Shl is an
  uninterpreted function of its operands.

## What the proofs found

- **Dominators.** The source's README calls the tree Lengauer-Tarjan. The code is less:
  `iDominators` never links an ancestor, so it returns its argument unchanged, and the
  candidate of a region is the smallest depth-first ancestor reached from its
  predecessors. Every true dominator is in the tree (`Completeness`). The tree is exact if
  and only if the search leaves no region passed by: no path that leaves a number below
  the candidate for one above it and reaches the region without touching a number up to
  the candidate again (`ExactUnlessPassedBy`); equivalently, if and only if each computed
  parent truly dominates its child, or a local test on the edges succeeds (`Exactness`).
  On a graph of four regions the search itself leads to a wrong tree (`ExampleSearch`,
  `InexactExample`).
- **Returns.** A region that lists no predecessor, because only returns enter it, is its
  own candidate, a root beside the start (`AnchoredIsRooted`, `CandidateBelow`). The claims
  about dominance are about the other regions, with the edges of returns counted, and
  `dominates(a, b)` stops exactly when b is a, is the start or lists a predecessor;
  otherwise it climbs for ever (`ClimbStops`, `DomTree.DominatesStops`, `ReturnExample`).
  The passes only ask about regions where it stops, such as all with a successor.
- **Loop headers.** `createLoop` asserts that a header is new. That holds, and inner
  headers come before outer ones, exactly when the depth-first list mentions no header
  twice; other regions may repeat (`SearchOrdersHeaders`). It can mention one twice: on
  R→h, R→a, a→h, h→h, h→e, a reducible function with one loop, the assertion fails
  (`HeaderTwice`).
- **The depth-first list repeats regions.** `_dfs` appends a region once for each stale
  stack entry: the start once, and every region once for each edge into it from a region
  with a smaller number (`ListedAndTaken`). First mentions form a post-order, but `linearize` reverses the list and
  so goes by last mentions. On a function without cycles in which equal successors stand
  side by side (as the two arms of a branch do), every edge goes forwards in the linear
  order if and only if no region is mentioned again after another one
  (`ForwardIffNoRepeats`). Two arms into one region do no harm (`ArmsGoForward`); on
  R→a, R→v, a→v the list puts v before a (`TriangleSearch`, `TriangleGoesBack`). Liveness
  relies on forward edges.
- **Linear order and loops.** A dominator precedes the regions it dominates outside its
  group unless the dominated region's loop encloses it: inner loops follow the blocks
  of the outer loop (`DominatorComesFirst`, both directions).
- **Checks.** Check elimination loses exactly the repeated checks: those that use the
  object of a check whose region is above theirs in the computed tree, with no larger a
  bound. Nothing compares the objects, and the tree may be wrong. It keeps all runs and
  failures if and only if every path to a repeated check passes, after the last
  computation of its object, a check that implies it and is not itself repeated
  (`Run`, `EliminationRuns`): a condition on the function before the pass. On SSA
  functions it holds if the tree tells the truth, which is so exactly when the search
  leaves no region passed by (`TruthfulIff`), and no object of a check is the bound of a
  check that repeats it (`NoConfusionSuffices`). Both fail on real inputs: a constant that
  is object and bound (`RunShared`), and a wrong tree (`RunCross`), each cost a failure.
- **Wide shifts.** Folding keeps shift amounts unreduced; an amount of 2^w or more folds
  to zero, which is right exactly when the reduced operation is zero too
  (`FoldShlExactly`, `WideShiftDiffers`). Stored amounts are therefore assumed below
  2^w, and below 64 for the C++ shift to be defined.
- **Scheduling.** A dead data node that still holds a data node is a user that never gets
  a region, so what it holds is never scheduled (`DeadUserBlocks`); the fixpoint places
  every used data node exactly when there is none (`AllScheduledIff`).
- **Liveness.** A phi in a region to which nothing is scheduled gets no live number. Its
  interval starts at 0, so it starts at its block if and only if something is scheduled to
  the region or the block starts at 0 (`PhiStartsAtBlock`, `LatePhi`). Values that are
  live at one point have overlapping intervals (`LiveSpans`). A phi and a value that is
  there when its region begins have overlapping intervals if and only if each is
  wanted in a region that something scheduled is in or before (`PhiMeets`, `LastsIff`);
  two phis that are only live before that do get one register (`EarlyPhis`, `RunEarly`).
- **Allocation.** Spilling is minimal for non-empty intervals; an empty one is never
  spilled (`KeepsEmpty`) and can push out an interval it never meets (`EmptyPushesOut`).
- **Inlining.** The inlined call stays in the caller's graph with empty slots. The caller
  is well formed and closed again, and its other calls can be inlined next
  (`InlinableStays`), but it can no longer be copied, so it cannot be inlined itself
  (`ResultNotSealed`).

## Model

| member | source | states |
|---|---|---|
| RegAllocation.RegAlloc.LinearScan | src/Analyses/RegAlloc.hpp:80-122 | for every interval table, empty intervals included: each interval is placed; overlapping intervals in registers differ in register, all below numRegs; spilled ones own slots 0 to spills-1, one each; an interval x is spilled only if at the start of some interval numRegs others that started no later all reach past it, x is that interval or one of them, and x ends last of all; no register is used while a smaller one never was; and, when intervals are non-empty, the kept intervals have at every point finished at least as many as any feasible choice |
| RegAllocation.RegAlloc.constructor | src/Analyses/RegAlloc.hpp:80-122 | two intervals that are live at one point (start <= t < end) have different locations, registers are below numRegs, and register intervals never exceed numRegs at a point; only crowded intervals are spilled; and no set of non-empty input intervals that fits the registers is larger than the kept one: spilling is minimal |
| RegAllocation.RegAlloc.ExpireOldIntervals | src/Analyses/RegAlloc.hpp:124-139 | what leaves active is a prefix of intervals that end by the new start, the first that stays ends later, and the locations of those that left are appended to the pool in order |
| RegAllocation.ExpireKeepsInv | src/Analyses/RegAlloc.hpp:124-139 | expiring keeps the loop invariant at the new point: active holds every kept interval that reaches past it, sorted by end, and free and active registers partition 0 to numRegs-1 |
| RegAllocation.RegAlloc.PlaceInterval | src/Analyses/RegAlloc.hpp:104-121 | one interval, once the ended ones are gone: it is spilled or gets a register, and everything the scan promises of the table so far is kept |
| RegAllocation.RegAlloc.AssignRegister | src/Analyses/RegAlloc.hpp:109-119 | the interval gets the last free register, active is re-sorted by end, the invariant and the lead over every feasible choice are kept |
| RegAllocation.RegAlloc.SpillAtInterval | src/Analyses/RegAlloc.hpp:141-169 | the interval that ends last is the one sent to the next slot, whether it is the new one or the last active one, whose register the new one takes; invariant and lead are kept |
| RegAllocation.SpillCrowded | src/Analyses/RegAlloc.hpp:141-169 | spilling keeps this: each spilled interval ends last among numRegs + 1 intervals, of which all but the newest reach past the start of the newest |
| RegAllocation.StockedAssign | src/Analyses/RegAlloc.hpp:94-119 | taking the last free register keeps this: the untouched registers lie at the bottom of the pool, and all smaller ones are in use |
| RegAllocation.AheadWhenSpilled | src/Analyses/RegAlloc.hpp:141-169 | giving up the furthest end keeps the kept set at least as far ahead as every feasible set, at every point |
| RegAllocation.KeptFeasible | src/Analyses/RegAlloc.hpp:80-122 | a table without register clashes covers no point with more than numRegs kept intervals |
| RegAllocation.NoSpillWhenFits | src/Analyses/RegAlloc.hpp:80-169 | if the whole input never needs more than numRegs registers at a point, nothing is spilled |
| RegAllocation.SpillKeepsEmpty | src/Analyses/RegAlloc.hpp:141-169 | whatever is given up reaches past the start of the new interval, so an empty interval is never spilled |
| RegAllocation.EmptyPushesOut | src/Analyses/RegAlloc.hpp:80-122 | with one register, [5, 5) is kept and [0, 10) spilled, although both together need one register at every point |
| DepthFirstSearch.Dfs | src/Function.cpp:369-409 | numbers exactly the reachable regions, once each, in pre-order; parents are real edges from smaller numbers; an edge to a larger number comes from a tree ancestor; rpo holds exactly the numbered regions and its first mentions form a post-order; when equal successors stand side by side, a region is mentioned again only directly after itself or after its tree parent; and the lists are the ones the steps of the loop stop with |
| DepthFirstSearch.SearchIs | src/Function.cpp:369-409 | all of that holds of whatever the steps of the loop stop with |
| DepthFirstSearch.VisitSpan | src/Function.cpp:387-397 | entering a region keeps the pre-order: what is numbered while a region is open lies below it |
| DepthFirstSearch.OneOutcome | src/Function.cpp:376-398 | the steps of the loop stop with one outcome only |
| DepthFirstSearch.AllFinished | src/Function.cpp:376-398 | when the stack is empty, the numbered regions, the listed regions and the regions reachable from the start coincide |
| DepthFirstSearch.VisitDepth | src/Function.cpp:387-397 | entering a region leaves no edge from a smaller to a larger number outside the tree order |
| DepthFirstSearch.CloseOrder | src/Function.cpp:380-384 | when a region is listed, each successor was listed before or is above it in the tree |
| DepthFirstSearch.DropRepeats | src/Function.cpp:380-384 | a stale stack entry is popped only directly after its region was listed, or after the tree parent of its region has been |
| SearchOrder.ListedAndTaken | src/Function.cpp:376-398 | how often each region is listed: the start once, and every region once more for each edge into it out of a region with a smaller number; and the successors that the tree parent of a region has after it are numbered before it |
| SearchOrder.OneNumbering | src/Function.cpp:369-409 | there is only one numbering of the reachable regions in pre-order, without forward cross edges, that takes later successors first: order, parents and numbers are determined by the graph |
| SearchOrder.SearchTakes | src/Function.cpp:369-409 | the search yields that one |
| Compression.BestIsMinimal | src/Function.cpp:411-442 | the uncompressed search returns the label of smallest semi among the vertices from v up to, but excluding, its forest root |
| Compression.Compress | src/Function.cpp:413-424 | for every forest, compression makes v a child of its root with that best label, changes no vertex's answer, and touches nothing above v |
| Compression.Eval | src/Function.cpp:428-442 | returns the answer of the uncompressed search (v itself at a root) and leaves every later answer unchanged |
| Compression.HangSameAnswers | src/Function.cpp:418-422 | hanging a vertex below its root with its best label changes no answer in the forest |
| Dominators.SemiDominators | src/Function.cpp:470-504 | the candidate of each region is the least, over its predecessors, of the nearest tree ancestor numbered below the region |
| Dominators.CandidateIsLeast | src/Function.cpp:484-501 | in terms of the depth-first tree alone: each listed predecessor contributes its last tree ancestor, itself included, that is numbered below the region, and the candidate is the smallest contribution |
| Dominators.CandidateBelow | src/Function.cpp:484-501 | a candidate is numbered below its region unless the region has no listed predecessor, and then it is the region itself |
| Dominators.AnchoredIsRooted | src/Function.cpp:484-501 | following candidates from a region ends at the start if and only if the region is the start or lists a predecessor |
| Dominators.IDominators | src/Function.cpp:544-580 | with ancestors never linked, the buckets and the final adjustment return the candidates unchanged |
| Dominators.DominatorIsTreeAncestor | src/Function.cpp:470-504 | whatever dominates a region is above it in the depth-first tree |
| Dominators.Completeness | src/Function.cpp:470-580 | if d lies on every path from the start to v, and v hangs below the start, then d is above v in the computed tree |
| Dominators.Exactness | src/Function.cpp:470-580 | for regions that hang below the start, the computed relation is true dominance if and only if each computed parent dominates its child, and if and only if each parent is above all predecessors of its child |
| Dominators.DominatesUnlessBypassed | src/Function.cpp:470-504 | for every numbering of the search, a region with a smaller number dominates v if and only if no path enters the numbers above it from below and reaches v without coming back |
| Dominators.ExactUnlessPassedBy | src/Function.cpp:470-580 | a criterion on the result of the search alone: the tree is exact if and only if no region is passed by beside the least tree ancestor reached from its predecessors |
| Dominators.AncestorsOnPath | src/Function.cpp:470-580 | under the local test every computed ancestor of a region lies on every path to it |
| Dominators.ExampleSearch | src/Function.cpp:376-398 | on R→a, R→u, a→v, a→u, u→v, with u and v pushed in that order, the search numbers R, a, v, u |
| Dominators.InexactExample | src/Function.cpp:484-501 | with that numbering the computed parent of v is a, although R, u, v passes a by |
| Dominators.ReturnExample | src/Node.cpp:49-72 | a start region that returns: on the result of the search it dominates the end, the end does not list it, and the climb from the end never reaches the start |
| Dominators.CandidateAbove | src/Function.cpp:484-501 | a candidate lies above its region in the depth-first tree |
| Dominators.BuiltOrder | src/Analyses/DomTree.hpp:16-22 | exact or not, the computed tree fits the list of the search: when a region is mentioned, everything below it has been |
| Dominators.TruthfulIff | src/Analyses/DomTree.hpp:16-39 | what the computed tree says of regions below the start is true if and only if the search leaves no region passed by |
| Dominators.DomTree.Recalc | src/Analyses/DomTree.hpp:16-22 | search, candidates and tree composed, for functions with returns too: the regions that list a predecessor are the ones below the start, every dominator of one is reported, and exactness holds exactly under each of the three tests |
| Dominators.DomTree.Dominates | src/Analyses/DomTree.hpp:24-39 | answers the ancestor relation of the tree wherever the climb stops |
| Tree.ClimbStops | src/Analyses/DomTree.hpp:33-39 | going up from b reaches a or 0 if and only if a is above b or b hangs below 0 |
| Dominators.DomTree.DominatesStops | src/Analyses/DomTree.hpp:24-39 | on a computed tree the climb stops if and only if b is a, is the start or lists a predecessor |
| Tree.AncTrans | src/Analyses/DomTree.hpp:33-39 | the relation `dominates` answers is transitive over every parent array with smaller parents |
| Tree.AncAntisym | src/Analyses/DomTree.hpp:33-39 | and antisymmetric, so it is a partial order |
| Tree.AncChain | src/Analyses/DomTree.hpp:33-39 | the vertices above a given one form a chain |
| Dominators.DomTree.Idom | src/Analyses/DomTree.hpp:28-30 | the parent is a numbered region above its child |
| LoopTree.PostOrderPutsDominatorsLast | src/Analyses/Loop.hpp:59-70 | a depth-first list without repeats lists every region before its strict dominators |
| LoopTree.SearchOrdersHeaders | src/Analyses/Loop.hpp:59-70 | in the list of the search inner headers come before outer ones, each once, if and only if no header is mentioned twice, which createLoop asserts |
| LoopTree.HeaderTwice | src/Analyses/Loop.hpp:116-125 | on R→h, R→a, a→h, h→h, h→e the search mentions the header h twice |
| LoopTree.LoopInfo.LoopAnalyze | src/Analyses/Loop.hpp:53-113 | with exact dominance and headers in that order: one loop per header, latches are the dominated predecessors, each region is mapped to its innermost loop and listed once in it with the header in front, and parent, subloops and top loops describe one tree |
| LoopTree.LoopInfo.FillLoop | src/Analyses/Loop.hpp:73-102 | the backwards walk from the latches visits exactly the regions that reach a latch without passing the header |
| LoopTree.LatchesAreBackEdges | src/Analyses/Loop.hpp:59-70 | on edges and paths: x is a latch of the loop of h if and only if an edge leads from x to h and every path from the start to x passes h |
| LoopTree.PathsStayInLoop | src/Analyses/Loop.hpp:73-102 | every region on a path to a latch that avoids the header is in the blocks of the loop or of one below it |
| LoopTree.BodyIsUnionOfBlocks | src/Analyses/Loop.hpp:86-96 | the blocks of a loop and of all loops below it are exactly the header and the regions that reach a latch avoiding it |
| LoopTree.MappedToSmallest | src/Analyses/Loop.hpp:86-95 | the loop a region is mapped to lies inside every loop that holds the region |
| LoopTree.ParentIsSmallest | src/Analyses/Loop.hpp:86-90 | the parent strictly encloses its loop and lies inside every other loop that encloses it |
| LoopTree.EnclosesIffHolds | src/Analyses/Loop.hpp:86-110 | following parent links from one loop reaches another exactly when the other holds its header |
| NaturalLoops.MeetingLoops | src/Analyses/Loop.hpp:72-102 | two natural loops that share a region are nested |
| NaturalLoops.LoopNested | src/Analyses/Loop.hpp:72-102 | a loop whose header lies in another loop is part of it |
| Schedule.GetUserRegions | src/Function.cpp:162-200 | reports completeness exactly when every data user is mapped, and exactly the regions that need the node; on the slots: the region whose node a return or branch holds in its first slot, a call or check in its last, and for a phi that holds the node as its k-th value the k-th predecessor |
| Schedule.ControlNeeds | src/Function.cpp:172-179 | a return or branch needs its operands in the region whose node its first slot holds, a call or check in that of its last slot, and nowhere else |
| Schedule.PhiNeedsFrom | src/Function.cpp:180-190 | a phi needs a value exactly in the k-th predecessors of its region, for the k whose value slot holds it |
| Schedule.OtherNeeds | src/Function.cpp:191-197 | any other user needs its operands exactly where it is placed |
| Schedule.NearestCommonDominator | src/Function.cpp:229-237 | the climb terminates at a region above all user regions and below every region that is |
| Schedule.PlaceKeepsPlan | src/Function.cpp:225-240 | placing one waiting node keeps every placed node lowest among its common dominators, listed once, and before nothing it needs later |
| Schedule.NothingWaits | src/Function.cpp:217-243 | when a pass places nothing, every used data node has been placed |
| Schedule.AllScheduledIff | src/Function.cpp:212-243 | at the fixpoint every used data node has been placed if and only if no dead data node holds a data node |
| Schedule.DataSchedule | src/Function.cpp:202-249 | terminates; a placed node is listed exactly once, in the lowest region above all regions that need it (as the three rows above say on the slots), before its users of the same region; phis stay in their own region; and every used data node is placed if and only if no dead data node holds a data node |
| Schedule.ControlUseDominated | src/Function.cpp:172-179 | what a return, branch, call or check holds is placed above the region whose node that user names, which truly dominates when the tree is exact, and in that very region if nothing else uses it |
| Schedule.PhiUseDominated | src/Function.cpp:180-190 | what slot k+1 of a phi holds is placed above the k-th predecessor of its region, and in it if no other slot holds the value |
| Schedule.DataUseDominated | src/Function.cpp:191-197 | what a placed data node holds is placed above the region of that node, and in it if nothing else uses it |
| Schedule.DefinitionsDominateUses | src/Function.cpp:202-249 | with an exact tree, the region of a definition truly dominates each region that needs it |
| LinearOrder.Linearize | src/Function.cpp:252-281 | even with repeats in rpo: every region exactly once, each loop's own blocks contiguous with the header first, and groups in the order in which they first turn up in the reversed list |
| LinearOrder.DominatorComesFirst | src/Function.cpp:251-281 | a dominator in another group precedes what it dominates if and only if it is not inside the dominated region's loop |
| LinearOrder.ForwardIffNoRepeats | src/Function.cpp:252-281 | without cycles, and with equal successors side by side, every edge goes forwards in the linear order if and only if the list of the search mentions no region again after another one |
| LinearOrder.ArmsGoForward | src/Function.cpp:252-281 | a branch with both arms into one region: the list has a repeat and the order goes forwards |
| LinearOrder.TriangleSearch | src/Function.cpp:376-398 | on R→a, R→v, a→v, with v pushed first, the search ends with the list v, a, v, R |
| LinearOrder.TriangleGoesBack | src/Function.cpp:252-281 | any linear order of the list the search yields there puts v before its predecessor a |
| LiveRanges.LiveUnfold | src/Analyses/Liveness.hpp:42-95 | the flow equation of the pass and the path definition of liveness agree at every region |
| LiveRanges.Liveness.LiveNumbers | src/Analyses/Liveness.hpp:123-151 | blocks are numbered consecutively from 0 along the linear order, nodes two apart, phis at the block start; a region without scheduled nodes has an empty block and unnumbered phis |
| LiveRanges.NumbersAre | src/Analyses/Liveness.hpp:123-151 | the numbers block by block: two for the start of a block to which something is scheduled and two for each of its nodes, phis at the start, each block beginning where the one before it in the linear order ends |
| LiveRanges.Liveness.Recalc | src/Analyses/Liveness.hpp:26-115 | on forward edges the one reverse pass computes the path definition of live-in at every region (phi values flowing from the predecessor in the same position, as the rows on GetValOf say), and every interval is determined by its definition and its reasons to last |
| LiveRanges.Liveness.Block | src/Analyses/Liveness.hpp:37-95 | one block: live-in is exact, and each interval grows exactly as far as the block asks |
| LiveRanges.Liveness.CollectLive | src/Analyses/Liveness.hpp:42-55 | collects exactly what some successor has live-in or some phi takes from this predecessor |
| LiveRanges.GetValOf | src/Node.hpp:628-637 | returns what slot k+1 of the phi holds, for every k at which the region is the k-th predecessor, and there is such a k |
| LiveRanges.PhiValueLiveOut | src/Node.hpp:628-644 | on the nodes: the k-th value of a phi is live out of the region that the k-th input of its region node leaves, and live into it unless defined there |
| LiveRanges.EdgeUseSlot | src/Analyses/Liveness.hpp:42-55 | every value needed on an edge is such a slot, for the predecessor in the same position |
| RegionEdges.PredecessorAt | src/Node.cpp:49-72 | when no earlier input is empty or a return, the k-th predecessor listed is the region that the k-th input leaves |
| JoinExample.RunJoin | src/Analyses/Liveness.hpp:26-151 | run on a branch whose arms bring two values to one phi, the analysis takes 5 from region 1 and 9 from region 2, and gives the live-in sets, blocks and intervals in numbers |
| LiveRanges.LiveBelowDefinition | src/Analyses/Liveness.hpp:26-115 | a region where a value is live lies strictly below the definition in the dominator order |
| LiveRanges.IntervalIsExact | src/Analyses/Liveness.hpp:58-95 | an interval starts at the number of the definition and ends exactly at its last reason: a read, the end of a block it leaves alive, or two past the definition |
| LiveRanges.LastsToRead | src/Analyses/Liveness.hpp:58-95 | an interval reaches the number of every scheduled node that holds its value in a slot |
| LiveRanges.LiveValuesOverlap | src/Analyses/Liveness.hpp:26-115 | a node computed while a value is live lies strictly inside that value's interval, so the two intervals overlap |
| LiveRanges.LiveSpans | src/Analyses/Liveness.hpp:26-151 | the interval of a value spans every point at which the value is live: where a block begins, after a node, where a block ends |
| LiveRanges.PhiOverlaps | src/Analyses/Liveness.hpp:26-115 | where something is scheduled, a phi starts inside the interval of every value that is there when its region begins, other phis included |
| LiveRanges.PhiMeets | src/Analyses/Liveness.hpp:26-151 | at every region, the intervals of a phi and of such a value overlap if and only if both last past 0 |
| LiveRanges.LastsIff | src/Analyses/Liveness.hpp:26-151 | an interval ends past 0 if and only if its value is wanted, or computed, in a region that something scheduled is in or before |
| Backend.LiveTogetherApart | src/Analyses/RegAlloc.hpp:80-122 | with any safe allocation of the computed intervals, two values that are live at one point get different registers, different slots, or one of each |
| Backend.LiveValuesApart | src/Analyses/RegAlloc.hpp:80-122 | so do a value and a node computed while it is live, even if nothing reads the node |
| Backend.LivePhisApart | src/Analyses/RegAlloc.hpp:80-122 | so do a phi and a value that is there when its region begins, provided both last past 0; otherwise their intervals do not overlap |
| LiveRanges.PhiStartsAtBlock | src/Analyses/Liveness.hpp:123-151 | the interval of a phi starts at its block if and only if something is scheduled to its region or the block starts at 0 |
| LivenessExample.LatePhi | src/Analyses/Liveness.hpp:123-151 | a function with a phi whose interval starts at 0 while its block starts at 4 |
| LivenessExample.EarlyPhis | src/Analyses/Liveness.hpp:123-151 | a function in which two phis of one region, both live at its end, have empty intervals |
| LivenessExample.RunEarly | src/Analyses/RegAlloc.hpp:80-122 | analysis and linear scan with one register, run on that function, give both phis that register |
| LiveRanges.ScheduleIsPlaced | src/Function.cpp:202-249 | a valid schedule over exact dominators gives the placement the analysis assumes: definitions first, in the same region or in a dominating one |
| UseDef.Graph.SetOperand | src/Node.hpp:73-84 | exactly one slot changes and users stay the inverse of operand slots, with multiplicity |
| UseDef.Graph.SwapOperands | src/Node.hpp:86-88 | two slots are exchanged and nothing else, users included |
| UseDef.Graph.AddOperand | src/Node.hpp:110-119 | one slot is appended and duality is kept |
| UseDef.Graph.ReplaceWith | src/Node.hpp:99-107 | terminates; every slot that held the node holds the new one, no other slot changes, and the node has no users left |
| UseDef.Graph.Detach | src/Node.hpp:90-97 | the node holds nothing, nothing holds it, and no other slot changes |
| UseDef.Graph.Create | src/Function.hpp:48-53 | a new node with the given operands and no users; the others keep kinds, types and slots |
| UseDef.DualUnique | src/Node.hpp:25-28 | the operand slots determine the users |
| Values.ModelUnique | src/Optimizations/Peephole.hpp:14-35 | an acyclic graph has at most one meaning for each leaf valuation |
| Values.ModelExists | src/Optimizations/Peephole.hpp:14-35 | an acyclic graph has a meaning for each leaf valuation |
| Values.ModDigits | src/Opcodes.hpp:9 | the moduli of the value types: 2, 2^8, 2^32 and 2^64, in digits |
| Rewriting.OperatorMeaning | src/Node.hpp:314-352 | what Add, Shl and Xor read as: the sum modulo 2^w, the first operand doubled as often as the second says modulo 2^w, and the bits in which the operands differ |
| Bits.DoubledOnce | src/Optimizations/ConstantFolding.hpp:63-69 | doubling k + 1 times is doubling k times and adding the result to itself |
| Bits.DoubledTwice | src/Optimizations/ConstantFolding.hpp:63-69 | doubling twice multiplies by four |
| Bits.XorBit | src/Optimizations/ConstantFolding.hpp:70-79 | a bit of the exclusive or is set when the bits of the operands differ |
| Bits.BitsDetermine | src/Optimizations/ConstantFolding.hpp:70-79 | and the bits determine the number |
| Values.PreservesMeaning | src/Optimizations/Peephole.hpp:14-35 | when a pass preserves meaning, the one meaning before and the one after agree on every observed operand |
| PeepholePass.TryAdd | src/Optimizations/Peephole.hpp:62-117 | on the slots: with right operand Constant(0), every slot that held the node holds its left operand and it is vacant; with both operands one other node, a new shift of it by a new constant 1 takes the place; a non-zero constant added to a sum, used once, of a non-constant x and a constant c: the two slots are exchanged; otherwise nothing changes and the answer is false; meaning, duality and acyclicity are kept |
| PeepholePass.TryShl | src/Optimizations/Peephole.hpp:119-134 | with right operand Constant(0), every slot that held the node holds its left operand and it is vacant; otherwise nothing changes and the answer is false; meaning and well-formedness are kept |
| PeepholePass.TryXor | src/Optimizations/Peephole.hpp:136-163 | with both operands one node, a new Constant(0) takes the place; with another right operand Constant(0), the left operand does; otherwise nothing changes and the answer is false; meaning and well-formedness are kept |
| PeepholePass.ChainPreserves | src/Optimizations/Peephole.hpp:83-101 | reordering (x+c)+b through an inner addition used only here changes the inner value and no observed operand |
| PeepholePass.DoubleIsShift | src/Optimizations/Peephole.hpp:103-114 | x+x equals x shifted by the constant 1 at every width, also where the constant 1 reduces to 0 |
| PeepholePass.Canonicalize | src/Optimizations/Peephole.hpp:38-48 | a used addition or xor of a constant and of a node that is none has its two slots exchanged, every other node stays as it is; no constant is left first, and meaning is unchanged |
| PeepholePass.Run | src/Optimizations/Peephole.hpp:14-35 | canonicalization, then each Add, Shl and Xor once, from the last node to the first: an unused one is left alone, any other turns out as the rows above say on its slots; the whole run keeps the value of every operand of phis, returns, branches, calls and checks, and the graph stays dual, typed and acyclic |
| ConstantFoldingPass.FoldReduces | src/Optimizations/ConstantFolding.hpp:53-79 | 64-bit folding followed by reduction equals the operation on reduced operands, for shift amounts below 2^w |
| ConstantFoldingPass.FoldShlExactly | src/Optimizations/ConstantFolding.hpp:63-69 | for shift amounts below 64, where the C++ shift is defined, a folded shift agrees with the operation on reduced operands if and only if the amount is below 2^w or the latter is zero |
| ConstantFoldingPass.WideShiftDiffers | src/Optimizations/ConstantFolding.hpp:63-69 | on one bit, 1 shifted by the stored amount 2 is a case where it does not |
| ConstantFoldingPass.Fold | src/Optimizations/ConstantFolding.hpp:53-86 | every slot that held the node holds a new constant below 2^64: the sum of the two constants modulo 2^64, the first doubled as often as the second says modulo 2^64, or the bits in which they differ; meaning and the state of the pass are kept, and the shift carried out is by less than 64 |
| ConstantFoldingPass.Run | src/Optimizations/ConstantFolding.hpp:18-37 | terminates; keeps every observed value; leaves no used Add, Xor or Shl whose two slots hold constants; and every slot of a node of another kind holds what it held or, where the table of 64-bit results knows a number, a constant with that number |
| ConstantFoldingPass.RawIs | src/Optimizations/ConstantFolding.hpp:53-79 | that table: a constant stands for itself, an Add, Shl or Xor over two known numbers for what a 64-bit machine computes from them, and nothing else is known |
| ConstantFoldingPass.RawExists | src/Optimizations/ConstantFolding.hpp:53-79 | every acyclic graph has one table of unreduced constants, so the shift condition is about the input graph |
| ChecksEliminationPass.PassedSince | src/Optimizations/ChecksElimination.hpp:43-47 | if D dominates A and A dominates the end of a path, the path passes A after its last visit of D |
| ChecksEliminationPass.RunsAgreeIff | src/Optimizations/ChecksElimination.hpp:14-21 | whatever checks are lost, every execution fails as before, at the same region, if and only if on every path to a lost check a check that is left and implies it is passed after the last computation of its object |
| ChecksEliminationPass.RemovedRunsIff | src/Optimizations/ChecksElimination.hpp:43-48 | removing one check changes no execution if and only if every path to it passes another check that implies it after the last computation of its object |
| ChecksEliminationPass.UnvouchedRun | src/Optimizations/ChecksElimination.hpp:43-48 | a path without such a check gives an execution that fails at the lost check alone |
| ChecksEliminationPass.Covered | src/Optimizations/ChecksElimination.hpp:43-47 | a dominating check is passed on every path since the object was last computed, even inside loops |
| ChecksEliminationPass.TryRemove | src/Optimizations/ChecksElimination.hpp:34-51 | a user of the object is replaced by a jump if and only if it is another check of the kind below in the tree, whatever its own object; of boundsCheck(_, m) against boundsCheck(o, k), where m and k are the constants in their second slots: if and only if it holds o, m <= k and its region lies below |
| ChecksEliminationPass.EliminateAt | src/Optimizations/ChecksElimination.hpp:28-53 | one region: exactly the checks that repeat its check are lost |
| ChecksEliminationPass.Sweep | src/Optimizations/ChecksElimination.hpp:57-93 | one sweep, inner regions first: a check is lost if and only if the check of a listed region repeated it in the graph before the sweep |
| ChecksEliminationPass.SweepNext | src/Optimizations/ChecksElimination.hpp:57-93 | a repeating check is still there when its region comes up, or what it repeats is already gone |
| ChecksEliminationPass.KeptAbove | src/Optimizations/ChecksElimination.hpp:43-47 | without confusion, above a repeated check stands one that repeats it and is not itself repeated |
| ChecksEliminationPass.NoConfusionSuffices | src/Optimizations/ChecksElimination.hpp:14-93 | on SSA functions, with a truthful tree and no confusion of objects and bounds, kept checks vouch for all repeated ones |
| ChecksEliminationPass.EliminationRuns | src/Optimizations/ChecksElimination.hpp:14-21 | losing the repeated checks keeps all executions if and only if on every path to a repeated check one that is not repeated vouches for it, all read off the graph before |
| ChecksEliminationPass.AlreadyChecked | src/Optimizations/ChecksElimination.hpp:24-93 | then, when a run reaches a region that lost its check, a kept check that implies it has been passed on the very value of the object |
| ChecksEliminationPass.NothingLeft | src/Optimizations/ChecksElimination.hpp:24-93 | afterwards no check is left that the pass would remove, nor one that another of the same object makes redundant |
| ChecksEliminationPass.Run | src/Optimizations/ChecksElimination.hpp:14-21 | search, tree and both sweeps, for exact trees and others: on the slots, a null check is lost if and only if another null check of its object lies above it, and boundsCheck(_, m) if and only if another boundsCheck(o, k) lies above it whose object it holds and m <= k, for the constants stored in the second slots; the control-flow graph is unchanged; and every execution fails as in the original if and only if checks that are not repeated vouch for those that are |
| ChecksEliminationPass.CheckPasses | src/Optimizations/ChecksElimination.hpp:24-93 | what executions ask of a check: nullCheck(o) passes when o is not null, and boundsCheck(o, m) when o admits m, the constant in its second slot |
| ChecksEliminationPass.BoundsRepeated | src/Optimizations/ChecksElimination.hpp:65-87 | a bounds check is repeated, in the sense of the conditions on executions, exactly when a bounds check as just said lies above it |
| ChecksEliminationPass.NullRepeated | src/Optimizations/ChecksElimination.hpp:28-53 | and a null check exactly when another null check of its object lies above it |
| ChecksEliminationExample.SharedIsFunction | src/Node.cpp:17-72 | a function with a start, terminators, a return and an end, whose edges and predecessor lists are those of its flow graph, with an exact tree |
| ChecksEliminationExample.SharedConstantChangesFailures | src/Optimizations/ChecksElimination.hpp:65-87 | in it the object of one bounds check is the bound of another: losing the repeated checks loses the second one and with it a failure |
| ChecksEliminationExample.RunShared | src/Optimizations/ChecksElimination.hpp:14-21 | the pass run on that function does so |
| InexactTreeExample.CrossAccepted | src/Node.cpp:17-72 | a function with two null checks of one argument, its edges, predecessor lists and computed tree |
| InexactTreeExample.CrossUnvouched | src/Optimizations/ChecksElimination.hpp:34-51 | its tree puts the first check above the second, a path avoids it, and nothing on that path vouches for the second |
| InexactTreeExample.RunCross | src/Optimizations/ChecksElimination.hpp:14-21 | the pass run on that function loses the second check and with it a failure |
| FunctionCopy.Copy | src/Function.cpp:286-364 | on a closed function without missing operands: a bijection to new nodes that keeps kinds, types, operand order and user multiplicities, arguments first and in position; the original nodes are untouched and use-def duality holds |
| FunctionCopy.CopyHolds | src/Function.cpp:316-322 | slot by slot: where a node held m, its copy holds the copy of m, in the same position |
| FunctionCopy.CopyKeepsOrder | src/Function.cpp:290-313 | the copied graph lists the nodes that are no arguments after the arguments, in their old order |
| FunctionCopy.CopyIsSeparate | src/Function.cpp:286-364 | the copy shares no node with the original, is closed again, and its i-th argument is the copy of the i-th |
| FunctionCopy.RenamedCount | src/Function.cpp:322-327 | renaming by an injection keeps how often an operand list holds each node |
| InliningPass.ReplaceArgs | src/Optimizations/Inlining.hpp:39-43 | every slot that held the i-th argument holds the i-th operand of the call, all at once |
| InliningPass.JoinReturns | src/Optimizations/Inlining.hpp:45-63 | each return becomes a jump into the new region and a value of the new phi, in order, and is detached |
| InliningPass.Redirect | src/Optimizations/Inlining.hpp:65-79 | exactly the slot of the region node that follows the call is redirected to the final jump, and one is found; the end of the function is no such node |
| InliningPass.AllInlined | src/Optimizations/Inlining.hpp:39-89 | the steps composed: what every slot of every node holds in the end |
| InliningPass.MovedNode | src/Optimizations/Inlining.hpp:39-88 | each callee node that moves into the caller holds the images of its operands: call operands for parameters, the call's region for the start, copies otherwise |
| InliningPass.OldSlot | src/Optimizations/Inlining.hpp:64-89 | each slot of a node that was there before: the slot of the following region holds the final jump, every other slot that held the call holds the new phi, the slots of the call are empty, and all others stay |
| InliningPass.PhiCollects | src/Optimizations/Inlining.hpp:46-63 | the i-th value of the new phi is the image of the i-th returned value and its i-th predecessor the image of that return's region |
| InliningPass.CallerClosed | src/Optimizations/Inlining.hpp:82-89 | afterwards no operand or user of a caller node is a node the caller does not own, such as the copied start, end, returns and arguments |
| InliningPass.InlinableExample | src/Optimizations/Inlining.hpp:34-90 | a caller, a call and a callee that meet all conditions of the pass |
| InliningPass.InlineStaticCall | src/Optimizations/Inlining.hpp:34-90 | the whole pass on one call: duality, a well-formed and closed caller, and the collected returns |
| InliningAll.OthersUntouched | src/Optimizations/Inlining.hpp:34-90 | nodes of other functions, the callee among them, are as before, users included |
| InliningAll.InlinableStays | src/Optimizations/Inlining.hpp:14-20 | inlining one call leaves every other call of the caller fit to be inlined |
| InliningAll.InlineCalls | src/Optimizations/Inlining.hpp:14-32 | all calls the caller starts with, in graph order, each a run of the pass on the result of the one before: none of them is left in place, the caller stays well formed and closed, and other functions are untouched |
| InliningAll.ResultNotSealed | src/Optimizations/Inlining.hpp:82-89 | a caller with an inlined call holds empty slots, so copying it violates the assertion of copy |
| InliningAll.InlinableCall | src/Optimizations/Inlining.hpp:14-32 | the example meets the conditions of inlining all calls |

## Left out

- `dump`, `nameNodes`, type and opcode names, `RegAlloc::dump`: printing only.
- `GraphChecker`, `InstVisitor`, `isa` templates, `Opcodes.def`, `Module`, CMake files and tests; the checker's conditions appear as preconditions.
- `Node::removeOperand`: no pass uses it, and it looks the user up in the wrong node, so it does not keep duality.
- `Function::clean`: it deletes zero-user nodes without dropping their operands; check elimination is modelled up to that call.
- Casts, Div, Rem, Mul, Sub and comparisons: no pass rewrites them, so they stay uninterpreted operators.
- Allocation of intervals to nodes: a node is its position in the interval table; where the table comes from is `LiveRanges`.
- LoopTree.LoopInfo.LoopAnalyze: the order of a loop's blocks after the header, of its latches and of its subloops is not stated, only which they are; it assumes exact dominance and headers mentioned once, because the code relies on both; loop records in a table do not capture aliasing of `Loop *` with other owners, and `preheader()` has no body in the source.
- Schedule.DataSchedule: assumes an acyclic data graph and a tree that covers all regions; its own regions are those of returns, branches, calls and checks and the predecessors of phis, and each of the former must be the start or list a predecessor; where a user's region input is not a region, the source dereferences null.
- LiveRanges.Liveness.Recalc: models a fresh object and functions whose linear order has only forward edges, hence no loops; the loop-header extension of intervals is not modelled, operands of terminators are not counted by the code, and region and node entries of the one interval table are two tables.
- LiveRanges.ScheduleIsPlaced: assumes that each phi's region dominates the regions needing the phi, which the code does not check.
- `phis()` of a region is found by scanning the node table for phis of that region instead of the region's users.
- ChecksEliminationPass.Run: assumes that a check is its region's only terminator, and that a check the pass can remove is the only input of its next region and uses the object once: otherwise the code overwrites another input or comes back to a detached check. The nodes of the regions are a parameter.
- ConstantFoldingPass.Run: assumes stored shift amounts below 64 and below 2^w.
- InliningPass.InlineStaticCall: the return type and the number of the new region are parameters. Users of the call are iterated over a snapshot, the source mutates the container it iterates. Void callees are excluded, as their returns have no second operand.
- InliningAll.InlineCalls: assumes callees that share no node with the caller, which excludes recursion; a callee copied after a call was inlined into the caller it belongs to would hold empty slots.
- FunctionCopy.Copy: the placeholder arguments that the constructor of the copy creates and then overwrites are not modelled.
- Integer widths other than value types: `size_t` counters and live numbers are unbounded.
