# ContinuityOS: verified core

Dafny models of the algorithms at the centre of ContinuityOS, with proofs of what they promise. Each module follows one
source file or one part of it; loops over updated variables are methods proved against a function, objects with fields are
classes, and the properties are lemmas about those functions or invariants of those classes. Floats are exact reals, hash
functions and signatures are arbitrary functions, and a property that rests on a hash says "or here is a collision".

| modules | part of the program |
|---|---|
| Solver, Ridge, Design (with Vectors) | Gauss-Jordan elimination and the ridge regression |
| Propagation, Containment, Causes, Engine, SinglePoints, Paths, Cycles (with Graph, Text) | the dependency graph engine |
| Crc, CrcCheck, Codec, FrameLayout | the 26-byte telemetry frame |
| Upstream, Clusters, Independence, Attributes, SharedLinks, SharedCount | provider independence |
| PlanRisk, PlanNumbers, Plan, PlanOptimality, PlanTies | the exact plan compiler |
| SplitLines, Evidence, LedgerProblems, LedgerFormat | the hash-linked evidence ledger |
| Merkle, MerkleRoots, Reserve | Merkle inclusion proofs and hash-chain reserve proofs |
| Forecast, Settling, NoisyOr, ForecastDepth | the noisy-OR cascade forecaster |
| State, Operator, Conflicts, Tenants | the state store and operator ingestion under interleaving |
| Streaming | the publish and subscribe bus |
| Limiter | the rate limiter |

Reals holds facts about products and rounding, Sets facts about small sets, Wrappers the option and result types.

Where the code does not do what its text or a reader might expect, the model follows the code:

- The pivot threshold of the solver is absolute, so badly scaled nonsingular systems raise (`Solver.TinyPivotIsRejected`).
  A raise means a column within 1e-12 of a combination of earlier columns, and column k within 2^-k times that makes it
  raise (`Solver.RaiseMeansDependent`, `Solver.DependentRaises`). The ridge fit is safe from this: a strength of at least
  1e-12 per weight never raises (`Design.StrongRidgeRuns`).
- The tail reader of the ledger parses after its first chunk, so once a line of more than 4095 bytes has been written every
  later append raises (`Evidence.LastHashExact`, `Evidence.Ledger.Append`, `LedgerFormat.LongRecordWedges`).
- Verification splits the file with splitlines, which breaks at U+0085, U+2028 and U+2029 too, while the writer leaves them
  as they are. An intact ledger verifies exactly while no line holds one (`Evidence.VerifyExact`, `Evidence.AppendAll`,
  `LedgerFormat.BreakIsReported`).
- An attribute id that is also the id of a shared upstream node is not recorded with its own users, so providers that
  share only that attribute are not linked (`SharedLinks.LinkLostIff`). The count of independent providers is never too low
  for that reason, and too high exactly when some who share something end up unconnected (`SharedCount.CountNeverTooLow`,
  `SharedCount.ClashCountsTooMany`).
- The Merkle tree hashes leaves and inner nodes alike and pairs the last node of an odd level with itself, so the root does
  not fix the leaves: two lists share a root exactly when they spell out alike at the depth of the shallower one, unless the
  hash collides (`MerkleRoots.SameRootIff`, `MerkleRoots.LevelSharesRoot`, `Merkle.OddLevelAmbiguity`).
- A proof that is accepted says nothing about its record index, and a shortened path proves an inner node
  (`MerkleRoots.InnerNodeClimbs`); the claimed digest is the node that the sides of the path spell (`Merkle.AcceptedMeans`).
- The reserve verifier's text says that an accepted proof shows a reserve of at least the minimum. What it shows is that
  the chain was long enough: the capacity counts and the reserve does not enter (`Reserve.ReserveUnseen`).
- Composed keys are ambiguous exactly when a colon can move from one part to the other (`State.ComposeIff`): two assets
  then share one counter, and a fresh sequence of one is refused because of the other (`Tenants.SharedCounterRefuses`).
- A conflict of idempotency keys can be answered after the observation has been appended (`Operator.ConflictAfterAppend`),
  exactly when the rival saved its record after the request's lookup (`Conflicts.ConflictRecordedIff`).
- A limit of zero makes `get_recent_events` return the whole history (`Streaming.RecentIff`).
- The limiter's documentation promises at most max_keys keys; the access order keeps one entry per acceptance, so the bound
  can fail (`Limiter.BoundBroken`), by any amount (`Limiter.AnyNumberHeld`), and for good (`Limiter.KeysNeverFall`);
  `Limiter.BoundKept` says exactly when one check keeps it.
- Three forecast sweeps settle chains that go against the order of the edge list three times, and not four
  (`Settling.SweepsSettle`, `ForecastDepth.FourthEdgeNotSettled`).
- The branch of the plan compiler for "no feasible action set" is never taken (`Plan.SearchOptimal`).

## Model
| member | source | states |
|---|---|---|
| Solver.PivotRow | src/continuityos/analysis.py:111 | the pivot is the first row at or below the diagonal with the largest absolute entry |
| Solver.SwapRows | src/continuityos/analysis.py:114 | the swap keeps the solutions of the augmented rows and every column already reduced |
| Solver.ScaleRow | src/continuityos/analysis.py:115-116 | dividing the pivot row keeps the solutions, keeps earlier columns reduced and makes the pivot 1 |
| Solver.EliminateColumn | src/continuityos/analysis.py:117-124 | clearing the column from every other row keeps the solutions and turns the column into a unit column |
| Solver.ClearRows | src/continuityos/analysis.py:117-124 | the inner loop clears the column from every other row in place |
| Solver.ReduceColumn | src/continuityos/analysis.py:110-124 | one turn of the column loop: either one more unit column, or no entry at or below the diagonal reaches 1e-12 |
| Solver.Solve | src/continuityos/analysis.py:107-125 | a returned vector is the one and only solution and the matrix is nonsingular, so every singular matrix raises; on a raise some column is within 1e-12, row by row, of a combination of the columns before it, and on a return no column k is within 2^-k times 1e-12 of one |
| Solver.RaiseMeansDependent | src/continuityos/analysis.py:110-125 | a raise is a fact about the input: some vector that ends in a one at position k, with zeros after it, has a product below 1e-12 with every row |
| Solver.DependentRaises | src/continuityos/analysis.py:110-125 | the other way: a matrix with such a vector raises when every product is below 2^-k times 1e-12 |
| Solver.ReduceAll | src/continuityos/analysis.py:110-124 | the column loop keeps the solutions and ends with unit columns, exactly when no column lacks a pivot |
| Solver.StuckAtZeroIsSingular | src/continuityos/analysis.py:112-113 | when the candidates of the column that raises are exactly zero, the matrix is singular |
| Solver.TinyPivotIsRejected | src/continuityos/analysis.py:112-113 | the threshold is absolute: on a nonsingular 1x1 matrix with a tiny entry the elimination gives up as well |
| Ridge.TransposeTwice | src/continuityos/analysis.py:93-94 | transposing twice gives the matrix back |
| Ridge.ProductApplies | src/continuityos/analysis.py:97-104 | the product applied to a vector is the right factor applied first and the left factor applied to the outcome |
| Ridge.AddRidge | src/continuityos/analysis.py:162-163 | alpha is added to the diagonal from index 1 on and nowhere else |
| Ridge.SolutionMeetsNormalEquations | src/continuityos/analysis.py:161-168 | a vector solves the system handed to the solver exactly when it meets the gradient condition of the ridge loss |
| Ridge.LossExpansion | src/continuityos/analysis.py:161-168 | the loss at any vector is the loss at the solution plus two squares, one weighted by alpha |
| Ridge.RidgeOptimal | src/continuityos/analysis.py:161-168 | for alpha >= 0 the solution minimises squared error plus alpha times the squared non-intercept weights, and any tie is a solution too |
| Ridge.PositiveAlphaNonsingular | src/continuityos/analysis.py:161-168 | with alpha > 0 and a constant first column the system is never singular |
| Ridge.GramEnergy | src/continuityos/analysis.py:161-168 | the quadratic form of the system matrix is the squared length of the predictions plus alpha times that of the non-intercept weights |
| Ridge.FitWeights | src/continuityos/analysis.py:161-168 | the returned weights are the unique minimiser over all weight vectors, and weights are returned exactly when the elimination of the system runs through |
| Design.ColumnTotals | src/continuityos/analysis.py:141-157 | the columns of the design sum to the number of rows for the constant and to zero for every feature |
| Design.StrongRidgeRuns | src/continuityos/analysis.py:112-168 | a ridge strength of at least 1e-12 times the number of weights never raises, whatever the rows; the default of 0.1 is far above it |
| Design.InterceptIsMean | src/continuityos/analysis.py:141-168 | because training features are centred and the intercept is not penalised, the fitted intercept is the mean target |
| Design.Deviations | src/continuityos/analysis.py:142-147 | the root of the sample variance of every column, with one in place of a root of zero, so never zero |
| Design.StandardisedFeature | src/continuityos/analysis.py:141-157 | with a true square root a standardised feature has the sample variance one, and a constant feature becomes zero |
| Design.Fit | src/continuityos/analysis.py:141-168 | means, deviations, design and weights together: the unique ridge minimiser, with the mean target as intercept, returned for every ridge strength of at least 1e-12 times the number of weights, whatever function stands for the square root |
| Propagation.TurnsBounded | src/continuityos/graph.py:142-162 | the worklist terminates on every graph, cycles included: at most one turn per failed node plus 1e9 per node, because each enqueue spends more than 1e-9 of a budget of 1 |
| Propagation.ImpactSettles | src/continuityos/graph.py:142-162 | when the worklist is empty every edge out of an impacted node satisfies the lower bound up to 1e-9 |
| Propagation.ImpactLowerBound | src/continuityos/graph.py:142-162 | along any k-edge chain the end probability is at least the start times the product of the weights, less k times 1e-9 |
| Containment.ImpactContained | src/continuityos/graph.py:145-162 | every impacted node is reached from a failed node along edges of positive attenuated strength |
| Containment.CertainImpactContained | src/continuityos/graph.py:145-162 | a probability is 1 only where a failed node reaches along edges of attenuated strength 1 |
| Causes.WeightIsCarried | src/continuityos/graph.py:149-157 | an edge carries its strength, or a quarter of it when it is substitutable, names a group, and another member of the group has not failed |
| Causes.DirectImpact | src/continuityos/graph.py:142-162 | how causes combine: for an unfailed node that only failed nodes feed, one less its probability is the product over its edges of one less what each carries, up to 1e-9 an edge |
| Engine.VisitOrder | src/continuityos/graph.py:148 | the edges of a node are visited by target in the reporting analysis, with edges to one target as listed, and as listed in the internal one |
| Engine.TurnLoop | src/continuityos/graph.py:146-162 | the edge loop of one dequeued node is one turn of the reference propagation |
| Engine.Drain | src/continuityos/graph.py:142-162 | the worklist loop computes the reference propagation |
| Engine.AnalyzeWithoutSpof | src/continuityos/graph.py:227-264 | probabilities lie in [0,1], failed nodes keep 1, the settled bound holds, and every recorded path is a real walk from a failed node to its key |
| Engine.Analyze | src/continuityos/graph.py:119-185 | the same for the full analysis, which raises exactly for unknown failed nodes, with the list of single points of failure |
| Engine.EdgesHit | src/continuityos/graph.py:203-222 | the early-exit edge loop either finds a true hit or stays in lockstep with the full turn |
| Engine.CandidateHits | src/continuityos/graph.py:198-224 | the early-exit search answers yes exactly when the full propagation from the candidate hits a critical node |
| Engine.HitPersists | src/continuityos/graph.py:212-221 | a hit seen half way is still a hit at the end, as probabilities only grow |
| Engine.NoOutgoingNoHit | src/continuityos/graph.py:195-196 | a candidate without outgoing edges, which the code skips, is never a single point of failure |
| Engine.SinglePointsFast | src/continuityos/graph.py:187-225 | the sorted result lists exactly the nodes whose full propagation gives another node of criticality >= 0.8 a probability >= 0.7 |
| SinglePoints.FedByCandidate | src/continuityos/graph.py:187-225 | the thresholds in numbers: a node that only the candidate feeds is hit when its criticality is at least 0.8 and its product leaves room for 0.7, and only then, up to 1e-9 an edge |
| SinglePoints.DiamondIsSinglePoint | src/continuityos/graph.py:187-225 | two even chances together make a single point: the source of a diamond hits a critical node with probability at least 0.75 |
| SinglePoints.DiamondTail | src/continuityos/graph.py:240-257 | the worklist in numbers, first in and first out: a node that waits twice is counted at each visit, so the tail of the diamond ends at 0.9375 with its only cause at 0.75 |
| Paths.PushChildren | src/continuityos/graph.py:281-283 | the pushes of one stack item |
| Paths.ExpandKeepsTotal | src/continuityos/graph.py:276-283 | replacing an item by its children neither loses nor repeats a path |
| Paths.ExpandIsLighter | src/continuityos/graph.py:276-283 | the children weigh less than their parent, so the stack loop terminates |
| Paths.CompletionsExact | src/continuityos/graph.py:276-283 | an item yields exactly the simple continuations that avoid failed nodes, once per choice of parallel edges |
| Paths.FindAlternativePaths | src/continuityos/graph.py:266-284 | every path occurs in the result once per choice of parallel edges when it is a simple alternative path and never otherwise; the result is ordered by length |
| Paths.SimpleGraphOnce | src/continuityos/graph.py:266-284 | without parallel edges each simple source-target path avoiding the failed nodes occurs exactly once and nothing else does |
| Cycles.Detector.Reconstruct | src/continuityos/graph.py:313-322 | the parent walk never meets a missing parent and spells a cycle along real edges |
| Cycles.WalkBack | src/continuityos/graph.py:315-321 | the loop along the parent links collects the chain back to the repeated node and never meets a missing parent |
| Cycles.Detector.Visit | src/continuityos/graph.py:311-325 | one neighbour of the node on top of the gray chain |
| Cycles.Detector.Search | src/continuityos/graph.py:328-330 | the loop over all white nodes finishes every node |
| Cycles.Detector.Dfs | src/continuityos/graph.py:308-326 | gray nodes are exactly the parent chain, and the finished nodes are ranked so that every edge not reported falls in rank |
| Cycles.EmptyIffAcyclic | src/continuityos/graph.py:294-332 | a set of real cycles that cuts every closed walk is empty exactly when the graph is acyclic |
| Cycles.DetectCycles | src/continuityos/graph.py:294-332 | every list reported starts and ends at one node and follows edges; every closed walk uses the last edge of a reported list; nothing is reported exactly when the graph is acyclic, self-loops included |
| Crc.ComputeCrc16 | src/continuityos/embedded.py:349-358 | the nested byte and bit loops compute the register run |
| Crc.FeedIsFeedBits | src/continuityos/embedded.py:349-358 | the byte-wise run equals the bit-serial run, least significant bit first |
| Crc.DifferenceRun | src/continuityos/embedded.py:349-358 | two runs differ by the run of the flipped bits |
| Crc.BurstSurvives | src/continuityos/embedded.py:345-358 | an error burst of at most 16 bits never runs to zero |
| Crc.OddCountSurvives | src/continuityos/embedded.py:345-358 | an odd number of flipped bits never runs to zero |
| Crc.TwoFlipsSurvive | src/continuityos/embedded.py:345-358 | two flipped bits within a frame never run to zero |
| Codec.ValidIffZero | src/continuityos/embedded.py:397-406 | a 26-byte frame is valid exactly when the register run over all 26 bytes ends at zero |
| Codec.FlippedFrame | src/continuityos/embedded.py:397-406 | a damaged frame is valid exactly when the run of its flipped bits is zero |
| Codec.ErrorsDetected | src/continuityos/embedded.py:397-406 | every burst of at most 16 bits, odd number of flips or pair of flips is flagged |
| Codec.DecodeEncode | src/continuityos/embedded.py:361-434 | decoding an encoded reading is valid, returns the integers exactly (battery clamped), coordinates within half a millionth and the clamped risk within 1/510 |
| Codec.EncodeDecode | src/continuityos/embedded.py:361-434 | encoding a decoded frame gives it back exactly when its CRC is valid and its battery byte is at most 100 |
| CrcCheck.CheckValue | src/continuityos/embedded.py:347-358 | no data leaves the preset 0xFFFF, and the digits one to nine give the published check value 0x4B37 |
| FrameLayout.PackableMeans | src/continuityos/embedded.py:345-394 | the ranges of all fields in numbers |
| FrameLayout.HeaderBytes | src/continuityos/embedded.py:375-392 | every byte before the checksum, low bytes first and negative numbers in two's complement |
| FrameLayout.FrameBytes | src/continuityos/embedded.py:393-394 | the frame ends in the checksum of the bytes before it, low byte first |
| Upstream.Search.Collect | src/continuityos/independence.py:92-112 | one recursive call with the shared visited set returns the sources into the nodes it is first to visit, and visits them |
| Upstream.GetUpstreamDependencies | src/continuityos/independence.py:92-112 | the result is exactly the set of nodes with a nonempty walk of non-self-loop edges to the node |
| Clusters.Compress | src/continuityos/independence.py:202-206 | linking a node straight to the root of its own cluster keeps the forest and all roots |
| Clusters.Link | src/continuityos/independence.py:208-212 | linking one root under another keeps the forest and merges exactly those two clusters |
| Clusters.UnionFind.Find | src/continuityos/independence.py:202-206 | terminates, answers the root, and path compression changes no root |
| Clusters.UnionFind.Union | src/continuityos/independence.py:208-212 | merges the clusters of the two names and no others |
| Independence.SharedDependencies | src/continuityos/independence.py:136-193 | the recorded dependencies: upstream nodes with several users first, then attribute values whose id is not taken |
| Independence.BuildClusters | src/continuityos/independence.py:200-217 | after the unions two providers have one root only if they are connected, and all providers of one dependency have one root |
| Independence.RootIffConnected | src/continuityos/independence.py:199-220 | two providers have the same root exactly when a chain of shared dependencies joins them |
| Independence.CountIndependent | src/continuityos/independence.py:199-220 | the number of roots is the number of connected components under shared dependencies |
| Independence.AnalyzeCategory | src/continuityos/independence.py:114-243 | the report of a category: declared and independent counts, shared dependencies, and validity against the minimum |
| Attributes.AttributeIdMeans | src/continuityos/independence.py:143-193 | the attribute ids of a provider are exactly key/value for the ten keys, written out, that one of its nodes has |
| Attributes.AgreeingLinked | src/continuityos/independence.py:173-193 | two providers whose nodes agree on one of the ten attributes are linked unless its id is an upstream node of several providers |
| Attributes.AgreeingPairIsOne | src/continuityos/independence.py:173-220 | two providers without edges that agree on one of the ten attributes count as one |
| SharedLinks.AttributeRecordedIff | src/continuityos/independence.py:173-193 | an attribute shared by several providers is recorded with its users exactly when no shared upstream node of that name has other users |
| SharedLinks.LinkedIff | src/continuityos/independence.py:156-193 | on every graph two providers are linked exactly when they share an upstream node, or an attribute whose id is not an upstream node of several providers |
| SharedLinks.LinkLostIff | src/continuityos/independence.py:173-193 | so a link is lost exactly when no upstream node is shared and every shared attribute id is an upstream node of several providers |
| SharedLinks.LinkedIffShareSomething | src/continuityos/independence.py:156-193 | while no id is both a shared upstream node and a shared attribute, sharing something and being linked are the same |
| SharedLinks.ClashLosesLink | src/continuityos/independence.py:173-220 | in a graph with such a clash two providers that share a gateway are not even connected, and three independent providers are counted |
| SharedCount.EverythingLinks | src/continuityos/independence.py:156-193 | the map that hides nothing links two providers exactly when they share an upstream node or an attribute value |
| SharedCount.CountNeverTooLow | src/continuityos/independence.py:136-220 | on every graph the count of the report is at least the number of components under all that is shared, and equal exactly when all who share something are connected by recorded dependencies |
| SharedCount.ClashCountsTooMany | src/continuityos/independence.py:136-220 | in that graph the count is strictly too high |
| PlanRisk.Mitigate | src/continuityos/compiler.py:116-118 | the inner loop scales the risk of exactly the factors that the action names and the assessment has |
| PlanRisk.MitigateAll | src/continuityos/compiler.py:115-118 | the loop over the actions |
| PlanRisk.ScaleWhole | src/continuityos/compiler.py:126-128 | actions without factor reductions scale the whole risk |
| PlanRisk.ProjectedRisk | src/continuityos/compiler.py:103-129 | the loops compute the reference risk |
| PlanRisk.ReduceAllIsKeep | src/continuityos/compiler.py:115-118 | the actions together multiply each factor risk by the product of what each leaves |
| PlanRisk.MoreActionsLessRisk | src/continuityos/compiler.py:103-129 | enlarging a set of actions never raises the projected risk |
| PlanRisk.NoActions | src/continuityos/compiler.py:103-129 | no actions leave the assessed risk, or the weighted factor risk if that is higher |
| PlanNumbers.OneFactorOneAction | src/continuityos/compiler.py:103-129 | one factor x reduced by r leaves min(1, x(1 - min(0.95, r)) + max(0, overall - x)) |
| PlanNumbers.TwoFactorsOneAction | src/continuityos/compiler.py:103-129 | two factors count by their percentages, written out, before and after the reduction of one of them |
| PlanNumbers.WholeAction | src/continuityos/compiler.py:126-129 | an action without reductions leaves 1 - min(0.95, gain) of the risk |
| Plan.Assess | src/continuityos/compiler.py:79-101 | the check with its early returns gives a candidate exactly for a feasible set |
| Plan.BetterTransitive | src/continuityos/compiler.py:131-159 | the preference is transitive |
| Plan.BetterIrreflexive | src/continuityos/compiler.py:131-159 | no candidate is better than itself |
| Plan.BetterTotal | src/continuityos/compiler.py:131-159 | candidates that name different actions always compare |
| Plan.CombinationsExact | src/continuityos/compiler.py:39 | the combinations of size k are exactly the selections of k actions in order |
| Plan.Challenge | src/continuityos/compiler.py:40-46 | one comparison keeps the best so far unbeaten by everything seen |
| Plan.SearchSize | src/continuityos/compiler.py:39-46 | the inner loop covers all subsets of one size |
| Plan.SearchOptimal | src/continuityos/compiler.py:38-61 | the empty set is feasible, so the branch for no feasible set is never taken |
| Plan.Search | src/continuityos/compiler.py:37-46 | the selected set is feasible and no feasible subset beats it |
| Plan.Compile | src/continuityos/compiler.py:29-77 | raises exactly above the action limit; otherwise the plan is that of an optimal set of the sorted actions, and never the plan for no feasible set |
| PlanOptimality.OptimalMeans | src/continuityos/compiler.py:131-159 | if some feasible set meets the target the plan meets it at least cost; otherwise the plan has the greatest feasible continuity |
| PlanOptimality.PlanReports | src/continuityos/compiler.py:63-77 | the objective is met exactly when some feasible set meets it; cost, risk, continuity, approval and rejection agree with the selection |
| PlanOptimality.AllActionsDecide | src/continuityos/compiler.py:29-77 | when all actions together are feasible, the target is met exactly when all of them meet it |
| PlanOptimality.OptimumBeatsAll | src/continuityos/compiler.py:29-77 | when ids identify actions every other feasible set is strictly worse |
| PlanOptimality.OptimumUnique | src/continuityos/compiler.py:29-77 | then the optimum is unique |
| PlanOptimality.OrderIrrelevant | src/continuityos/compiler.py:29-46 | and the plan does not depend on the order of the input |
| PlanOptimality.OptimalForEverySet | src/continuityos/compiler.py:29-77 | the optimum holds against every feasible selection of the actions, in whatever order it is listed |
| PlanTies.TiesDecided | src/continuityos/compiler.py:131-159 | every tie, against every feasible set: higher continuity at one cost, lower cost at one continuity below the target, and with both equal the ids that come first |
| PlanTies.TupleMeans | src/continuityos/compiler.py:138-159 | the order of the id lists is decided at the first position where they differ, and of two ids at their first different character |
| PlanTies.FeasibleMeans | src/continuityos/compiler.py:85-92 | feasible means within the budget, with all prerequisites present and no incompatible pair |
| PlanTies.CostAdds | src/continuityos/compiler.py:86 | costs add |
| PlanTies.ScoreMeans | src/continuityos/compiler.py:93-101 | continuity and risk of a candidate are complements |
| Evidence.Ledger.LastHash | src/continuityos/evidence.py:251-276 | the backwards chunk loop computes the reference walk |
| Evidence.LastHashExact | src/continuityos/evidence.py:251-276 | the walk answers the hash of the last record exactly when that line and its newline fit in 4096 bytes; a longer line raises |
| Evidence.Ledger.Append | src/continuityos/evidence.py:73-104 | an append succeeds exactly when the last line fits, links to the final hash, and otherwise leaves the file alone |
| SplitLines.PiecesCons | src/continuityos/evidence.py:111 | splitlines gives back a written line exactly when nothing in it breaks, and a proper start of it otherwise |
| SplitLines.UnbrokenIff | src/continuityos/evidence.py:111 | in a line without control characters the only breaks are U+0085, U+2028 and U+2029 |
| Evidence.Ledger.Verify | src/continuityos/evidence.py:106-141 | the verify loop reports the reference problems for the pieces of splitlines, one by one |
| Evidence.CleanIffChain | src/continuityos/evidence.py:106-141 | any lines at all, whoever wrote them, verify without problems exactly when every line parses and the parsed records form an intact chain |
| Evidence.CleanFile | src/continuityos/evidence.py:106-141 | the same for any file: no problems exactly when all its lines parse and their records are chained from the zero hash |
| Evidence.VerifyExact | src/continuityos/evidence.py:73-141 | a file of written records verifies exactly when its chain is intact and no written line holds a break of splitlines |
| Evidence.AppendAll | src/continuityos/evidence.py:73-141 | any run of appends only adds records and keeps the chain intact; verification stays empty exactly while no written line holds a break of splitlines |
| LedgerProblems.ProblemsExact | src/continuityos/evidence.py:111-141 | a problem is reported for a line exactly when that is wrong with it: the kind, the line, and the hash that the nearest line before it that parses should have left |
| LedgerProblems.ProblemsInOrder | src/continuityos/evidence.py:111-141 | the problems come in the order of their lines |
| Evidence.FinalHashBinds | src/continuityos/evidence.py:73-141 | two intact chains of records with one final hash agree on all hashed fields, or two of their texts collide or one hashes to the zero hash |
| Evidence.VerifiedFilesBind | src/continuityos/evidence.py:106-141 | the same for any two files that verify, whoever wrote them |
| LedgerFormat.LawsCanBeMet | src/continuityos/evidence.py:73-141 | the laws of the record format on which these proofs rest can be met, with any hash |
| LedgerFormat.LongRecordWedges | src/continuityos/evidence.py:251-276 | every intact ledger in that format has an intact extension whose last hash cannot be read, so that every later append raises |
| LedgerFormat.BreakIsReported | src/continuityos/evidence.py:106-141 | every intact ledger in that format has an intact extension that verification reports |
| Merkle.BuildLevel | src/continuityos/crypto.py:132-138 | one level, with the last node of an odd level paired with itself |
| Merkle.BuildTree | src/continuityos/crypto.py:122-140 | all levels up to a single root; an empty leaf list raises |
| Merkle.SiblingNode | src/continuityos/crypto.py:155-168 | one level of a proof: the sibling and its side, or the node itself at the odd end |
| Merkle.GenerateInclusionProof | src/continuityos/crypto.py:146-176 | the siblings from the leaf level up; an index out of range raises |
| Merkle.VerifyProof | src/continuityos/crypto.py:105-116 | accepts exactly when the path climbs from the leaf to the root |
| Merkle.DepthIsCeilLog | src/continuityos/crypto.py:129-140 | the depth used below is the rounded-up binary logarithm of the number of leaves |
| Merkle.ProofComplete | src/continuityos/crypto.py:146-176 | for every nonempty leaf list and index the generated proof verifies and has that depth |
| Merkle.RootBinds | src/continuityos/crypto.py:129-144 | two equal-length lists of digests with one root are equal, or two inputs hashed for the trees collide |
| Merkle.OddLevelAmbiguity | src/continuityos/crypto.py:133-138 | the equal length is needed: every odd list longer than one and the same list with its last leaf repeated have one root |
| MerkleRoots.SpelledAlike | src/continuityos/crypto.py:122-140 | two lists of any lengths have one root whenever, with odd ends spelled out, the one equals the level of the other at its depth |
| MerkleRoots.SharedRootMeans | src/continuityos/crypto.py:122-140 | and only then, for lists of digests, or two different inputs hashed for the two trees collide |
| MerkleRoots.SameRootIff | src/continuityos/crypto.py:122-140 | so without a collision that is the exact condition for a shared root |
| MerkleRoots.FillDetermines | src/continuityos/crypto.py:132-138 | lists of one length spell out alike only when they are equal |
| MerkleRoots.FillNext | src/continuityos/crypto.py:132-138 | spelling out odd ends commutes with building the level above |
| MerkleRoots.RootOfHalves | src/continuityos/crypto.py:129-144 | the root of two full halves is the hash of the left root followed by the right one; one pair hashes left before right |
| MerkleRoots.LevelSharesRoot | src/continuityos/crypto.py:132-138 | leaves and inner nodes are hashed alike: every level above is a shorter list with the same root |
| MerkleRoots.InnerNodeClimbs | src/continuityos/crypto.py:105-176 | for every tree of more than one leaf a path one step shorter climbs from each node of the level above to the root |
| Merkle.AcceptedMeans | src/continuityos/crypto.py:105-140 | what an accepted proof means, whatever its sides, its sibling sizes and its length up to the depth: the claimed digest is the node that the sides spell at that level, or two hashed inputs collide |
| Merkle.LongPathMeans | src/continuityos/crypto.py:105-140 | a path longer than the depth first hashes its way to the leaf that its last sides spell |
| Merkle.GeneratedSpells | src/continuityos/crypto.py:146-176 | the proof generated for index i spells i |
| Merkle.InclusionSound | src/continuityos/crypto.py:105-176 | an accepted full-length path with the sides of index i starts at leaf i, or two hashed inputs collide |
| Reserve.HashChain | src/continuityos/crypto.py:245-250 | the loop applies the hash the given number of times |
| Reserve.ChainAdds | src/continuityos/crypto.py:245-250 | a steps after b steps are a + b steps |
| Reserve.NewProver | src/continuityos/crypto.py:293-303 | a prover exists exactly for a reserve within its capacity, and commits to the full chain |
| Reserve.ProveMinimum | src/continuityos/crypto.py:317-335 | a proof exists exactly for a minimum that the reserve covers |
| Reserve.VerifyReserve | src/continuityos/crypto.py:272-287 | accepts exactly a minimum within bounds whose chain reaches the commitment |
| Reserve.HonestProofAccepted | src/continuityos/crypto.py:272-335 | every proof computed from the seed, for any minimum up to the capacity, is accepted exactly when its minimum is non-negative and within the verifier bound |
| Reserve.ReserveUnseen | src/continuityos/crypto.py:272-335 | commitment, proofs and acceptance are the same for every reserve within the capacity; only the prover refuses a minimum above its own |
| Reserve.SmallerMinimum | src/continuityos/crypto.py:272-287 | an accepted proof yields accepted proofs for every smaller minimum |
| Forecast.GroupParents | src/continuityos/intelligence.py:128-130 | parents grouped by dependent, dependents in order of first appearance |
| Forecast.Initialise | src/continuityos/intelligence.py:104-121 | rounded baselines, overwritten by the clamped observations of known nodes |
| Forecast.Combine | src/continuityos/intelligence.py:143-151 | the inner loop multiplies the survival chances of the parents in the graph |
| Forecast.Revise | src/continuityos/intelligence.py:135-154 | one dependent is updated unless it is observed |
| Forecast.SweepOnce | src/continuityos/intelligence.py:134-154 | one in-place sweep |
| Forecast.Forecast | src/continuityos/intelligence.py:95-176 | the beliefs are those of three sweeps; an unknown target reads the first node; a graph without nodes raises |
| Forecast.PosteriorInRange | src/continuityos/intelligence.py:153-154 | an updated belief lies between 0.01 and 0.99 |
| Forecast.HighRiskMeans | src/continuityos/intelligence.py:162 | the list of high risk holds exactly the nodes with belief at least 0.5 |
| NoisyOr.SettledBelief | src/continuityos/intelligence.py:104-154 | every settled belief in numbers: the observation, the baseline, or one less the spared baseline times the product over the edges of one less belief of the parent times strength, clamped and rounded |
| NoisyOr.ChildOfObserved | src/continuityos/intelligence.py:132-154 | a child of observed parents has that belief after any positive number of sweeps |
| NoisyOr.OneParent | src/continuityos/intelligence.py:132-162 | a parent observed at 0.9 and an edge of strength 0.6 put a child of no criticality at 0.54, and on the list of high risk |
| Reals.RoundMeans | src/continuityos/intelligence.py:154 | rounding is to the nearest integer, and to the even one of two that are equally near |
| Forecast.SweepsMonotone | src/continuityos/intelligence.py:118-154 | with the same nodes observed, raising the observed levels lowers no belief after any number of sweeps |
| Settling.SweepsSettle | src/continuityos/intelligence.py:128-158 | after k sweeps the noisy-OR equation holds at every node whose upstream chains go against the order of the list at most k times before they reach an observed or parentless node |
| Settling.SolutionUnique | src/continuityos/intelligence.py:132-158 | on those nodes the equations have one solution, even for two orders of the edge list |
| Settling.WithinIsReached | src/continuityos/intelligence.py:128-158 | k edges never go against the order more than k times |
| Settling.ForecastIsFixpoint | src/continuityos/intelligence.py:132-158 | on the nodes that three sweeps reach the forecast equals every noisy-OR fixpoint |
| Settling.OneSweepIsEnough | src/continuityos/intelligence.py:128-158 | a list that names the edges into a node before those out of it is solved by one sweep, whatever its depth, and later sweeps change nothing |
| Settling.SettledUnderBoth | src/continuityos/intelligence.py:128-158 | two orders of the edge list give equal beliefs wherever k sweeps reach under both |
| Settling.EdgeOrderIrrelevant | src/continuityos/intelligence.py:128-158 | within three edges no order of the edge list changes a belief |
| ForecastDepth.WithinChain | src/continuityos/intelligence.py:132-158 | the end of a four-edge chain is within k edges of the observation exactly when k is at least four |
| ForecastDepth.FourthEdgeNotSettled | src/continuityos/intelligence.py:132-158 | three is the exact reach: listed backwards, the end of that chain is not settled by three sweeps |
| ForecastDepth.ReachedChain | src/continuityos/intelligence.py:128-158 | listed backwards, the end of that chain is reached by four sweeps and not by three |
| ForecastDepth.ChainIsForecast | src/continuityos/intelligence.py:95-130 | the chain is what the forecaster is asked about a valid graph whose first node is observed to have failed |
| State.PersistentState.GetIdempotent | src/continuityos/state.py:80-91 | misses, answers the stored response, or reports a conflict of fingerprints |
| State.PersistentState.SaveIdempotent | src/continuityos/state.py:93-101 | stores the response, or reports a conflict and changes nothing |
| State.PersistentState.ClaimSequence | src/continuityos/state.py:103-113 | stores the sequence, or refuses and changes nothing |
| State.ComposeInjective | src/continuityos/state.py:104 | a composed key names one pair when the first part has no colon |
| State.ComposeAmbiguous | src/continuityos/state.py:104 | a colon moved from one part to the other gives the same composed key |
| State.ComposeIff | src/continuityos/state.py:104 | two pairs have one composed key exactly when they are equal or one has moved a part that ends at a colon from its second to its first component |
| Operator.Service.Accept | src/continuityos/service.py:851-890 | the handler run without interruption is one run of the machine, with the same reply, store and ledger |
| Operator.HistoryKeeps | src/continuityos/service.py:875-890 | the invariant of the interleaved machine holds in every run |
| Operator.ClaimsStrictlyIncrease | src/continuityos/state.py:103-113 | in every run the sequences claimed under one composed key strictly increase |
| Operator.ClaimIff | src/continuityos/state.py:103-113 | a claim succeeds exactly when its sequence is above every one claimed under the composed key |
| Tenants.TenantClaimIff | src/continuityos/state.py:103-113 | while no tenant holds a colon, a claim succeeds exactly when its sequence is above every one claimed for the same tenant and asset |
| Tenants.SharedCounterRefuses | src/continuityos/state.py:103-113 | with one composed key for two assets, the first request ever made for the second is refused as a replay unless its sequence is above those of the first |
| Operator.AtMostOnce | src/continuityos/service.py:875-888 | no run puts one tenant, asset and sequence on the ledger twice |
| Operator.FingerprintsFinal | src/continuityos/state.py:93-101 | a stored idempotency key never changes its fingerprint, whatever runs later |
| Operator.ResponsesFinal | src/continuityos/state.py:93-101 | if fingerprints identify the asset and sequence, a stored response is never replaced either |
| Conflicts.RepliesMean | src/continuityos/service.py:875-890 | accepted requests are on the ledger, cached replies repeat an observation that is, unauthorised and replayed requests were never appended, and a request told of a conflict has an accepted rival with its key and another fingerprint and is on the ledger exactly when it claimed |
| Conflicts.ConflictRecordedIff | src/continuityos/service.py:875-890 | a request told of a conflict is on the ledger exactly when no record was stored under its key at its lookup, so that the rival saved in between |
| Conflicts.UninterruptedConflict | src/continuityos/service.py:875-890 | a conflict answered without interruption leaves ledger and store alone |
| Operator.RetryIsCached | src/continuityos/service.py:280-308 | a retry of an accepted request is answered from the store and changes nothing |
| Operator.ConflictAfterAppend | src/continuityos/service.py:878-889 | two requests that reuse one key can both reach the ledger before the second is told of the conflict |
| Streaming.LastAppend | src/continuityos/streaming.py:42 | a deque of bounded length holds the last events appended |
| Streaming.Queue.PutNowait | src/continuityos/streaming.py:52-55 | a full queue refuses the event, any other takes it at the end |
| Streaming.Queue.Get | src/continuityos/streaming.py:95 | the reader takes the front event |
| Streaming.EventBus.Subscribe | src/continuityos/streaming.py:59-64 | a new queue covers the published events from now on |
| Streaming.EventBus.Unsubscribe | src/continuityos/streaming.py:66-70 | the queue is removed and covers the events up to now |
| Streaming.EventBus.Receive | src/continuityos/streaming.py:95 | the event read is the next one published since the subscription |
| Streaming.EventBus.Deliver | src/continuityos/streaming.py:51-55 | every queue with room gets the event; exactly the full ones are listed |
| Streaming.EventBus.Drop | src/continuityos/streaming.py:56-57 | the listed queues are removed and stop before the event |
| Streaming.EventBus.Publish | src/continuityos/streaming.py:46-57 | every queue issued keeps holding a gap-free stretch of the published events, and the history holds the last buffer_size of them |
| Streaming.EventBus.GetRecentEvents | src/continuityos/streaming.py:72-75 | the slice of the history that the limit selects |
| Streaming.Delivered | src/continuityos/streaming.py:40-75 | the i-th event a reader gets is the i-th one published since it subscribed |
| Streaming.RecentIff | src/continuityos/streaming.py:72-75 | the recent events are the last limit events published exactly when the limit is positive and within the buffer or the buffer never overflowed, or nothing was kept; other limits give the whole history |
| Streaming.NegativeLimit | src/continuityos/streaming.py:72-75 | a negative limit drops that many events from the front of the history |
| Limiter.FixedWindowLimiter.Check | src/continuityos/security.py:33-50 | the method computes the reference decision and state |
| Limiter.NoEmptyPop | src/continuityos/security.py:38-46 | with room for one key and positive limits neither deque is ever popped or read when empty |
| Limiter.HistorySafe | src/continuityos/security.py:33-50 | in every run a held key has at most limit live events and its acceptances are a window apart from the limit-th before |
| Limiter.WindowSafety | src/continuityos/security.py:33-50 | any half-open interval of the window length holds at most limit acceptances of a held key |
| Limiter.RejectionJustified | src/continuityos/security.py:42-47 | a rejection means that the window ending now already holds limit acceptances |
| Limiter.RetryInRun | src/continuityos/security.py:42-47 | after a rejection with nothing in between a check passes exactly once the oldest live event leaves the window, and the time asked for is enough by at most one second |
| Limiter.BoundKept | src/continuityos/security.py:38-49 | a check keeps at most max_keys keys exactly when the key is known, there is room, or the front of the access order still has events |
| Limiter.BoundBroken | src/continuityos/security.py:19-49 | the documented bound fails: one key admitted twice leaves a stale entry, and two other keys are then held with max_keys = 1 |
| Limiter.KeysNeverFall | src/continuityos/security.py:33-50 | no check ever lets the number of held keys fall, so a bound once broken stays broken |
| Limiter.AnyNumberHeld | src/continuityos/security.py:19-50 | for every n some run with max_keys = 1 ends up holding n keys |

## Left out
- Floating point: reals are exact, so rounding error in sums and products is not captured; the codec's and the forecaster's `round` are exact half-even roundings of reals.
- Rounding of outputs: the plan's cost, continuity and risk, the analysis figures and the assessment totals are not rounded.
- Solver.Solve: between the two bounds on a raise, 1e-12 and 2^-k times 1e-12, the order in which pivots are met decides.
- Ridge.FitWeights: takes the design as given.
- Design.Fit: the square root is a function handed in, as Dafny's reals have none; only `Design.StandardisedFeature` needs it to be one.
- Regression: sorting and checking rows, the train and test split and the test metrics.
- Engine.Analyze: weighted impacts, their order in the report and provider concentration are left out; they are sums and counts over the proved probabilities.
- Agreement of probabilities between `analyze` and `analyze_without_spof`: they visit edges in different orders, and the accumulation depends on the order.
- Paths.FindAlternativePaths: the order among paths of equal length is not stated.
- Cycles.DetectCycles: which cycles are reported beyond one per back edge is not stated.
- Codec.Encode: the packing error is one error value; float inputs that are not finite do not exist here.
- Independence: provider categories of a whole graph and the text of the reports.
- Plan.Compile: identifiers of assessment and solver in the plan; the request's field bounds are a precondition, as the program's validator enforces them.
- Evidence: file creation, locking, fsync, temporary files, paging, conflict search and anchoring; a locked region is one step. JSON is a pair of functions with parsing inverse to writing; a file that is not UTF-8, on which reading raises, is left out.
- Merkle.AcceptedMeans: speaks of claimed digests of 32 bytes, as leaves are; a claim of another length is not a digest.
- Merkle, Reserve: hexadecimal text, hybrid signatures and sealed envelopes; SHA-256 and SHA3 are arbitrary functions.
- Forecast.Forecast: confidence intervals, influencing parents and the summary sentence.
- Operator.Service.Accept: HTTP, header checks, signature and source checks are one flag of the request, as they read no shared state; a request that crashes, or whose ledger append raises, is one that never runs again.
- State: unreadable or malformed state files, and the generic get and set of values.
- Streaming.EventBus.Publish: the bus lock is one step per method, and a reader that waits on an empty queue is a read without an event; the order of subscribers in the list is not stated.
- Limiter.FixedWindowLimiter.Check: the clock is an argument, and the lock is one step; acceptances before an eviction of the key are not counted afterwards, as the program forgets them.
- Other parts: HTTP routing, command line, user interface, clients, storage back ends and gossip are input and output around these algorithms; threshold and decision tables would add only easy members.
