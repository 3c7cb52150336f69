# Verified model of the collective phase control fabric

The fabric analyses finite transformation networks with exact rational arithmetic, plans against
adversarial outcomes, and records everything in a hash-linked store whose CURRENT pointer moves by
compare-and-set. This project models that logic in Dafny and proves what the analyses promise.

| area | files |
|---|---|
| identifiers, sets, vectors | `Ids`, `StableSort`, `Truths`, `Vectors` |
| exact linear algebra | `Nullspace`, `FluxCoupling`, `Dimension`, `RatioKeys` |
| cuts | `CutSets` |
| contingent planning | `AndOr`, `AndOrStrategies`, `AndOrPruning`, `ConcreteRuns`, `PlannerV4`, `PolicyV4`, `PolicyV4Limits`, `PlannerV3`, `PolicyV3`, `Pareto`, `Dominance`, `DominanceMeaning` |
| generation store | `Ledger`, `GenerationStore`, `StoreProtocol` |
| coordination sessions | `Coordination`, `CoordinationSafety`, `CoordinationBound`, `CoordinationAudit`, `CoordinationChecks`, `CoordinationSchedule`, `CoordinationProgress`, `Playthrough` |
| fixpoints and searches | `SupportCore`, `Formation`, `ResourceAccounting`, `Unfolding`, `Seeds`, `MinimalSets`, `SeedSearch`, `QueueClosure`, `NetworkClosure`, `Confluence`, `InhibitorOrder`, `CriticalPath`, `CriticalTies`, `NegativeDurations` |
| canonical JSON | `Json`, `Unicode`, `CanonicalText`, `Canonical`, `JsonReader`, `Limits` |

Conventions. `Fraction` is `real`. A digest is a function from documents to strings; where a result
needs it, the function is assumed injective (for the full course of a session: also without its fixed
prefix of seven characters, because event names drop it). Signatures, schema checks and the scientific verdict on
verification capacity are boolean inputs. Records are datatypes; a field that the code accepts in
malformed form is an `Option` (a quantity that is not a rational, a layer that is not a list).
Methods follow the loops of the code; the functions beside them say what the loops compute, and the
lemmas prove what that means.

What the proofs show to be different from what the code or its labels suggest:

- `exact_flux_coupling` labels its answer sound and complete. With no coordinate it reports every
  transformation as blocked (`FluxCoupling.BlockedReportExact` gives the exact condition), and its
  ratio keys `anchor|candidate` can denote two pairs when identifiers contain the separator
  (`RatioKeys.RatiosFaithfulWithoutClash` and `RatioKeys.MisreportOnClash` together are exact).
- `bounded_minimal_cut_sets` never tries the empty set, so its cuts are inclusion-minimal iff the
  targets are reachable with nothing removed (`CutSets.MinimalIffTargetsReachable`).
- The v0.4 policy tree is not complete: its visited key leaves resources out. It decides exactly whether
  a strategy exists that never repeats a non-repeatable action at a visited key
  (`PolicyV4Limits.TreeDecidesFreshStrategies`); for which depths and actions this is the same as the
  existence of any strategy is stated by `PolicyV4Limits.ExactIffNothingCut`, and
  `PolicyV4Limits.TreeIsExactWhereOnlyStatesMatter` adds the registries in which only states matter.
  The v0.3 tree is exact as long as its beam does not cut.
- The two later planners prefer opposite qualities: v0.4 the larger lower bound, v0.5 the smaller upper
  bound (`DominanceMeaning.DominanceV4ByBurdens`, `DominanceMeaning.DominanceV5ByBurdens`).
- The critical path is the longest among paths that start at a root. With negative durations, which the
  input admits, it is the longest of all paths exactly when every task has a lead-in from a root
  (`NegativeDurations.LongestIffLeadIns`).
- With inhibitors the queue closures can depend on the order of the queue, exactly when two
  transformations conflict (`InhibitorOrder.FeasibleOrderMattersIff`,
  `InhibitorOrder.VerifiedOrderMattersIff`).
- The byte scanner and the shape check count depth differently; they disagree exactly on values nested
  to the limit with a scalar inside all 64 containers (`Limits.DepthLimitsDifferIff`).
- Resource accounting raises instead of giving a verdict exactly when some flow it needs is not a
  rational although weights and credits are (`ResourceAccounting.RaisesIffFlowUnreadable`).
- `critical_path` raises exactly when an acyclic work graph depends on a task that was never declared
  (`CriticalPath.Compute`; `CriticalPath.RaiseOnUndeclaredTask` is an instance).

Run `dafny verify dfyconfig.toml` to check the whole project.

## Model

| member | source | states |
|---|---|---|
| Nullspace.ExactNullspace | src/collective_phase_control_fabric/structural_v5.py:13-54 | the elimination on an array of rows returns vectors that solve the original matrix, are the identity on the free columns, and generate every solution; rows of unequal length are an error, no rows give no vectors |
| Nullspace.ReduceRows | src/collective_phase_control_fabric/structural_v5.py:24-45 | the column loop ends in pivot form and keeps the solution set of the matrix it started from |
| Nullspace.ClearColumn | src/collective_phase_control_fabric/structural_v5.py:31-41 | swapping, dividing and clearing in place gives exactly the pivoted matrix, whose solution set PivotedKeepsSolutions relates to the old one |
| Nullspace.PivotedKeepsSolutions | src/collective_phase_control_fabric/structural_v5.py:31-41 | one pivot step neither adds nor loses solutions |
| Nullspace.PivotedExtendsForm | src/collective_phase_control_fabric/structural_v5.py:24-45 | one pivot step turns a pivot form on the first columns into one on one column more |
| Nullspace.SolutionIsCombination | src/collective_phase_control_fabric/structural_v5.py:46-54 | every solution is the combination of the basis vectors with its own free entries as coefficients |
| Nullspace.BasisIsIndependent | src/collective_phase_control_fabric/structural_v5.py:46-54 | two combinations of the basis are equal only if their coefficients are |
| Nullspace.NullspaceIsSpan | src/collective_phase_control_fabric/structural_v5.py:13-54 | a vector solves the matrix if and only if it is a combination of the returned basis |
| FluxCoupling.ExactFluxCoupling | src/collective_phase_control_fabric/structural_v5.py:57-113 | with a coordinate: blocked lists exactly the transformations that are zero in every balanced vector, two unblocked ones share a class iff a fixed nonzero ratio relates them in every balanced vector, every recorded key carries such a ratio; without coordinates everything is reported blocked |
| FluxCoupling.CoupledIffProportional | src/collective_phase_control_fabric/structural_v5.py:71-99 | a fixed ratio in every balanced vector is the same as proportional signatures with that ratio |
| FluxCoupling.CommonRatio | src/collective_phase_control_fabric/structural_v5.py:86-100 | the one-pass proportionality test finds the ratio of two signatures, or they are not proportional (or both zero) |
| FluxCoupling.TakeGroup | src/collective_phase_control_fabric/structural_v5.py:81-104 | one anchor round takes exactly the remaining candidates proportional to the anchor and records their ratios |
| FluxCoupling.GroupProportional | src/collective_phase_control_fabric/structural_v5.py:78-104 | the greedy anchor loop partitions the identifiers into their proportionality classes |
| FluxCoupling.GroupingGivesReport | src/collective_phase_control_fabric/structural_v5.py:65-113 | classes of signatures over a basis are the coupling classes of the flux space |
| FluxCoupling.BlockedReportExact | src/collective_phase_control_fabric/structural_v5.py:65-77 | the blocked list is exact if and only if there is a coordinate or there are no transformations |
| Dimension.DimensionIsGreatest | src/collective_phase_control_fabric/structural_v5.py:109 | with a coordinate the reported dimension is the greatest number of linearly independent balanced flux vectors, so it belongs to the network and not to the basis found |
| Dimension.BasesHaveOneSize | src/collective_phase_control_fabric/structural_v5.py:13-54 | any two bases of one nullspace have the same size |
| RatioKeys.RatiosFaithfulWithoutClash | src/collective_phase_control_fabric/structural_v5.py:103 | if no two disjoint pairs of identifiers join to one ratio key, every report finds every coupling's own ratio under its key |
| RatioKeys.MisreportOnClash | src/collective_phase_control_fabric/structural_v5.py:103 | for every identifier set with such a clash there are flows on which the report holds a wrong ratio: the condition is exact |
| RatioKeys.NoSeparatorNoClash | src/collective_phase_control_fabric/structural_v5.py:103 | identifiers without the separator never clash |
| RatioKeys.SeparatorClashExists | src/collective_phase_control_fabric/structural_v5.py:103 | a concrete clash of two disjoint pairs of identifiers |
| CutSets.Closure | src/collective_phase_control_fabric/structural_v5.py:116-128 | the rounds end in the least set of places that contains the initial ones and is closed under the remaining transformations |
| Ids.BelowByFirstDifference | src/collective_phase_control_fabric/structural_v5.py:143 | identifiers are ordered as Python orders strings: by the first character in which they differ, a proper prefix first |
| CutSets.MinimalCutSets | src/collective_phase_control_fabric/structural_v5.py:131-165 | even when the budget runs out every listed set is a nonempty cut without smaller nonempty cuts and within the size bound; the report is complete iff the number of candidates is within the budget, and then every cut within the bound contains a listed one; the operation count is the smaller of that number and the budget |
| CutSets.CombinationsAreSubsets | src/collective_phase_control_fabric/structural_v5.py:145-146 | every enumerated candidate has the size asked for and only known identifiers, without repetition |
| CutSets.SubsetsAreCombinations | src/collective_phase_control_fabric/structural_v5.py:145-146 | every set of identifiers of that size is enumerated |
| CutSets.CutIffContainsListed | src/collective_phase_control_fabric/structural_v5.py:145-155 | within the bound a nonempty set is a cut iff it contains a listed one |
| CutSets.CompleteReportDecidesCuts | src/collective_phase_control_fabric/structural_v5.py:131-165 | a complete report decides every nonempty set of at most the maximum size asked for: it is a cut iff it contains a listed one |
| CutSets.ListedAreTheMinimalCuts | src/collective_phase_control_fabric/structural_v5.py:145-155 | the listed sets are exactly the minimal nonempty cuts within the bound |
| CutSets.MinimalIffTargetsReachable | src/collective_phase_control_fabric/structural_v5.py:139-155 | the listed cuts are inclusion-minimal iff the targets are reachable with nothing removed |
| CutSets.UnreachableTargetMakesSingletonsCuts | src/collective_phase_control_fabric/structural_v5.py:145-155 | with an unreachable target every single transformation is listed although the empty set already cuts |
| PlannerV4.SafeBranch | src/collective_phase_control_fabric/planner_v4.py:88-138 | safe iff the branch projects and the projected state keeps authority, hazards, floors and load; the reasons are exactly those that apply |
| PlannerV4.Examine | src/collective_phase_control_fabric/planner_v4.py:141-199 | an action is accepted iff it is eligible; otherwise the reasons are exactly those that reject it |
| PlannerV4.EligibleActions | src/collective_phase_control_fabric/planner_v4.py:141-207 | the accepted actions by identifier with their four successors, and every rejected action with exactly its reasons |
| PlannerV4.ByIdIsStableSort | src/collective_phase_control_fabric/planner_v4.py:147 | actions are examined in increasing order of identifier, equal identifiers in the order of the registry |
| PolicyV4.BuildTree | src/collective_phase_control_fabric/planner_v4.py:284-338 | the recursive method builds exactly the AND-OR tree of the planner's game, whose meaning the next rows state |
| PolicyV4.StepSimulated | src/collective_phase_control_fabric/planner_v4.py:88-110 | the projected state lies below every concrete outcome: any optional additions and removals, any resource change at or above its lower bound, any load at or below its upper bound |
| PolicyV4.BranchSafeIffAllOutcomesSafe | src/collective_phase_control_fabric/planner_v4.py:88-138 | the branch check passes iff every concrete outcome from the state keeps guards, floors and capacity: the projection is pessimistic and no more than that |
| PolicyV4.ProjectionHappens | src/collective_phase_control_fabric/planner_v4.py:88-110 | the projected state is itself a concrete outcome, so all its bounds are attained |
| PolicyV4.SafetyTransfers | src/collective_phase_control_fabric/planner_v4.py:112-138 | what is safe in the projected state is safe in every concrete state above it |
| PolicyV4.EnabledTransfers | src/collective_phase_control_fabric/planner_v4.py:141-199 | an action eligible in the abstract state is enabled in every concrete state above it |
| PolicyV4.StrongPolicyWins | src/collective_phase_control_fabric/planner_v4.py:284-338 | a strong tree is a policy that reaches all targets within the depth in every concrete run, with floors and guards holding after every action |
| PolicyV4.AdversaryAnswers | src/collective_phase_control_fabric/planner_v4.py:88-110 | every outcome of every action can really happen, so the previous row quantifies over existing runs |
| AndOrPruning.StrongIffFreshStrategyExists | src/collective_phase_control_fabric/planner_v4.py:284-338 | for every game, depth and visited set: strong iff a strategy that may remember what was visited wins every play in which no non-repeatable action leads to an already visited key |
| PolicyV4Limits.TreeDecidesFreshStrategies | src/collective_phase_control_fabric/planner_v4.py:284-338 | the same for every registry, state and action of the planner: this is what its trees decide |
| PolicyV4Limits.ExactIffNothingCut | src/collective_phase_control_fabric/planner_v4.py:310-325 | given the depth and the identifiers that may belong to non-repeatable actions: the trees agree with the existence of an unrestricted strategy for all registries, states and actions iff there is no such identifier or the depth is at most two |
| PolicyV4Limits.TreeIsExactWhereOnlyStatesMatter | src/collective_phase_control_fabric/planner_v4.py:284-338 | in a registry without floors, guards and added load, strong iff some unrestricted strategy wins, at every depth and whether or not actions may repeat |
| AndOrPruning.PruningLosesNothing | src/collective_phase_control_fabric/planner_v4.py:310-325 | in any game whose visited keys determine in how many actions a state can be won, the cut of repeated actions loses no strategy |
| PolicyV4Limits.TreeIsExactWithoutPruning | src/collective_phase_control_fabric/planner_v4.py:284-338 | strong implies that an unrestricted strategy exists; when all actions may repeat, strong iff one exists |
| PolicyV4Limits.PruningLosesStrategies | src/collective_phase_control_fabric/planner_v4.py:310-325 | at every depth of three or more, registries in which a winning strategy exists and the tree is not strong, because the visited key ignores resources |
| AndOr.StrongIsCertified | src/collective_phase_control_fabric/planner_v4.py:284-338 | a tree marked strong is a certificate at every node, whatever had been visited before |
| AndOrStrategies.StrongIffStrategyExists | src/collective_phase_control_fabric/planner_v3.py:210-247 | in a game without visited pruning, strong iff some strategy wins every play within the depth |
| AndOrStrategies.WinnableForces | src/collective_phase_control_fabric/planner_v3.py:210-247 | from a winnable position the best-choice strategy wins every sequence of outcomes |
| PlannerV3.CheckBranch | src/collective_phase_control_fabric/planner_v3.py:46-85 | safe iff units agree, guards survive and floors hold in the projected state; the reasons are exactly those that apply |
| PlannerV3.Filter | src/collective_phase_control_fabric/planner_v3.py:88-172 | accepted are exactly the eligible actions below their retry limit with their four successors, in order; every other one is rejected with exactly the reasons against it |
| PlannerV3.ChoicesInOrder | src/collective_phase_control_fabric/planner_v3.py:228-229 | the tree continues with eligible actions only, in increasing order of identifier, at most as many as the beam admits, and with all of them when the beam does not cut |
| PlannerV3.BuildTree | src/collective_phase_control_fabric/planner_v3.py:210-247 | the recursive method builds exactly the AND-OR tree of the beam-cut game |
| PlannerV3.PolicyTreeIsExact | src/collective_phase_control_fabric/planner_v3.py:210-247 | strong implies a winning strategy over all eligible actions; when the beam never cuts, strong iff such a strategy exists |
| PolicyV3.StepSimulated | src/collective_phase_control_fabric/planner_v3.py:46-61 | where interval units match, the projected state lies below every concrete outcome: all that must and some that may be removed, at least what must be added, resources at or above their lower bounds |
| PolicyV3.BranchSafeIffAllOutcomesSafe | src/collective_phase_control_fabric/planner_v3.py:46-85 | the branch check passes iff units match and every concrete outcome from the state keeps floors and guards |
| PolicyV3.UnitsAfter | src/collective_phase_control_fabric/planner_v3.py:51-60 | a unit already recorded is kept, a missing one is taken from the interval |
| PolicyV3.SafetyTransfers | src/collective_phase_control_fabric/planner_v3.py:64-85 | what is safe in the projected state is safe in every concrete state above it |
| PolicyV3.StrongPolicyWins | src/collective_phase_control_fabric/planner_v3.py:210-247 | a strong tree is a policy that reaches all targets within the depth in every concrete run, with floors and guards holding after every action |
| ConcreteRuns.StrongTreeWins | src/collective_phase_control_fabric/planner_v4.py:284-338 | for any game that is a pessimistic account of a concrete world: the policy read off a strong tree wins every run of that world |
| Dominance.CheckDominanceV4 | src/collective_phase_control_fabric/planner_v4.py:210-273 | the nested loops decide: no worse on every branch and field, better somewhere |
| DominanceMeaning.DominanceV4ByBurdens | src/collective_phase_control_fabric/planner_v4.py:210-273 | dominance on the records: iff on every outcome units agree and bounds are readable, no upper bound of time or cost, debt, load, erosion is larger and no lower bound of quality or a resource and no count of additions smaller, and one of these is strict somewhere |
| Dominance.DominanceV4IsStrictOrder | src/collective_phase_control_fabric/planner_v4.py:226-273 | irreflexive and transitive, units included |
| Dominance.PrimaryOfPlanV4 | src/collective_phase_control_fabric/planner_v4.py:368-423 | the whole selection: overflow iff more nondominated actions than the cap; within it a primary is named iff exactly one action is nondominated, and it then dominates every other one; otherwise two or three nondominated ones are offered in order, none only without eligible actions |
| Dominance.CheckDominanceV5 | src/collective_phase_control_fabric/planner_v5.py:257-298 | the loop with the early exit decides dominance by inclusion and interval bounds |
| DominanceMeaning.DominanceV5ByBurdens | src/collective_phase_control_fabric/planner_v5.py:257-298 | dominance on the records: iff on every outcome units agree, no upper bound of time, cost, quality or load is larger, no single addition is missing and no single debt, rollback or loss of independence is extra, and one of these is strict somewhere |
| Dominance.DominanceV5IsStrictOrder | src/collective_phase_control_fabric/planner_v5.py:267-298 | irreflexive and transitive |
| Dominance.PrimaryOfPlanV5 | src/collective_phase_control_fabric/planner_v5.py:375-404 | a primary is named iff exactly one eligible action is nondominated and all four of its branches reach the targets; it then dominates every other one |
| Pareto.DominatedByNondominated | src/collective_phase_control_fabric/planner_v4.py:368-393 | every dominated action is dominated by a nondominated one |
| Ledger.ValidateHistory | src/collective_phase_control_fabric/generation_v5.py:193-235 | no error iff digests match, events link to their predecessors and identifiers are distinct |
| Ledger.AppendKeepsValid | src/collective_phase_control_fabric/generation_v5.py:94-104 | appending history_event with a fresh identifier keeps a history valid and makes its digest the root |
| Ledger.RootDeterminesHistory | src/collective_phase_control_fabric/generation_v5.py:255-258 | two valid histories with the same root, empty ones included, are equal event by event |
| Ledger.ValidateObjects | src/collective_phase_control_fabric/generation_v5.py:264-297 | no error iff ledger digests are distinct, kinds registered and sources present |
| GenerationStore.Store.Commit | src/collective_phase_control_fabric/generation_v5.py:237-323 | succeeds iff CURRENT is as expected, the payload is acceptable and no other file has its identifier; says what files and CURRENT are after success, refusal and a crash before either write |
| StoreProtocol.RunRecordsRoots | src/collective_phase_control_fabric/generation_v5.py:255-258 | after any interleaving and any crashes every generation that can be loaded has a valid history and records the digest of its last event, or that of the empty history |
| StoreProtocol.RootsIdentifyHistories | src/collective_phase_control_fabric/generation_v5.py:255-258 | two generations of a run that can be loaded record the same root iff they have the same history |
| GenerationStore.Store.VerifyChain | src/collective_phase_control_fabric/generation_v5.py:325-350 | no error iff the chain from CURRENT loads, ends at null and has at most 4096 generations; otherwise the one error names what the walk met |
| GenerationStore.ChainHasNoDuplicates | src/collective_phase_control_fabric/generation_v5.py:325-350 | a chain that ends at null never repeats a generation |
| GenerationStore.LoadIsGenuine | src/collective_phase_control_fabric/generation_v5.py:176-190 | what is loaded under an identifier is exactly the well-formed manifest stored there that has it as its digest |
| GenerationStore.PointerDeterminesChain | src/collective_phase_control_fabric/generation_v5.py:325-350 | with an injective digest two stores with the same CURRENT have the same chain of the same manifests |
| StoreProtocol.ChainIsTheCommits | src/collective_phase_control_fabric/generation_v5.py:237-323 | after any interleaving of committers and any crashes the chain from CURRENT is the list of successful commits, newest first, without duplicates |
| StoreProtocol.RunVerifies | src/collective_phase_control_fabric/generation_v5.py:325-350 | after every run the chain is sound within 4096 iff there were at most 4096 successful commits |
| StoreProtocol.NoCollision | src/collective_phase_control_fabric/generation_v5.py:298-312 | with an injective digest no commit ever meets a different file under its identifier |
| StoreProtocol.StepsAreAtomicCommit | src/collective_phase_control_fabric/generation_v5.py:237-323 | an undisturbed commit that expects CURRENT and meets no other file succeeds: lock, compare, manifest write and pointer move have the effect of the atomic operation |
| StoreProtocol.CompareDecides | src/collective_phase_control_fabric/generation_v5.py:237-297 | a committer goes on iff CURRENT is what it expects and its payload is acceptable, and then names what it expects as predecessor; otherwise it gives up and nothing else changes |
| StoreProtocol.CommitCanBePlayed | src/collective_phase_control_fabric/generation_v5.py:237-323 | an idle committer that finds the lock free can take all four steps of a commit |
| Coordination.ReplaceSession | src/collective_phase_control_fabric/coordination_v5.py:60-124 | succeeds iff CURRENT is the generation read, the payload is acceptable and nothing collides; the new generation withdraws the old entry and appends the new session and event |
| Coordination.CommitProposal | src/collective_phase_control_fabric/coordination_v5.py:222-246 | which check fails first, or the session with the new commitment is committed |
| Coordination.RevealProposal | src/collective_phase_control_fabric/coordination_v5.py:249-284 | which check fails first, or the session with the opening of its own commitment is committed |
| Coordination.Route | src/collective_phase_control_fabric/coordination_v5.py:287-333 | which check fails first, or the session in the next state of the protocol is committed |
| Coordination.Terminate | src/collective_phase_control_fabric/coordination_v5.py:336-352 | which check fails first, or the terminated session is committed with its reason |
| Coordination.CreateSession | src/collective_phase_control_fabric/coordination_v5.py:127-189 | with apply, succeeds iff the commit goes through, and then records the plan and a fresh session |
| CoordinationSafety.CommitRevealSafety | src/collective_phase_control_fabric/coordination_v5.py:222-352 | in every reachable world and for every session value ever recorded: reveal keys are commitment keys are participants, no reveal before all committed, every reveal opens its own commitment, capacity or all_verified only with all commitments and reveals |
| CoordinationSafety.CommitmentBinds | src/collective_phase_control_fabric/coordination_v5.py:249-284 | two openings of one commitment reveal the same proposal and nonce |
| CoordinationSafety.StepKeepsSound | src/collective_phase_control_fabric/coordination_v5.py:60-352 | every command of every user keeps the invariant of all recorded sessions |
| CoordinationBound.SessionRunsAreFinite | src/collective_phase_control_fabric/coordination_v5.py:60-124 | for every run, whatever reasons it uses: the values of a session form a trail of this session with one value per command, the active value at each moment being the one the commands so far lead to; none recurs, each advances the one before, commitments never change after the commit phase; with the command-line reasons n participants allow at most 2n+7 commands |
| CoordinationBound.ClosedCommitmentsStay | src/collective_phase_control_fabric/coordination_v5.py:287-352 | along the values of a session commitments are frozen once the commit phase is over, whatever ends it |
| CoordinationProgress.CommandTakesEffect | src/collective_phase_control_fabric/coordination_v5.py:60-124 | a command that takes a session further and says nothing already said always goes through, and leaves the session active with the new value |
| CoordinationProgress.CourseSucceeds | src/collective_phase_control_fabric/coordination_v5.py:127-352 | in every workspace that has seen neither the plan nor its session: the creation, n commits, two routes, n reveals, two routes and three terminations all succeed one after the other, and the session takes exactly the expected values |
| CoordinationProgress.CourseIntegrates | src/collective_phase_control_fabric/coordination_v5.py:287-333 | after the last route the session of that course is integrated, with capacity and with every commitment and opening |
| CoordinationProgress.AsManyAsAdmitted | src/collective_phase_control_fabric/coordination_v5.py:336-352 | that course has exactly 2n+7 commands on the session, so the bound on the length of a session is attained |
| CoordinationSchedule.CourseAdvances | src/collective_phase_control_fabric/coordination_v5.py:222-352 | each of the 2n+7 commands of the course is accepted by the session value the ones before it led to, and leads to the next value |
| CoordinationChecks.FindChecks | src/collective_phase_control_fabric/coordination_v5.py:34-57 | a session is found iff every active session can be read and exactly one of them has the name |
| CoordinationChecks.CommitChecks | src/collective_phase_control_fabric/coordination_v5.py:228-240 | for every outcome of a commitment exactly when it happens, in the order of the checks |
| CoordinationChecks.RevealChecks | src/collective_phase_control_fabric/coordination_v5.py:255-279 | for every outcome of a reveal exactly when it happens, in the order of the checks |
| CoordinationChecks.RouteChecks | src/collective_phase_control_fabric/coordination_v5.py:298-330 | a route succeeds iff everybody has done what the stage is there for; it goes between the four listed pairs of stages, changing nothing but stage and capacity |
| CoordinationChecks.TerminateChecks | src/collective_phase_control_fabric/coordination_v5.py:346-348 | success can be claimed of integrated sessions only, any other reason ends a session at any stage and is recorded |
| CoordinationAudit.Audit | src/collective_phase_control_fabric/science_v5.py:500-523 | unknown iff no active session; otherwise the reasons are exactly those some active session gives, and satisfied iff there are none |
| CoordinationAudit.ThirdCheckIsImplied | src/collective_phase_control_fabric/science_v5.py:516-522 | in reachable worlds incomplete reveals imply missing capacity, so an active session gives no reason iff it is terminated with capacity |
| CoordinationAudit.ReachableIsObservable | src/collective_phase_control_fabric/science_v5.py:500-511 | in reachable worlds every active session can be read, so the audit never fails |
| SupportCore.FindCore | src/collective_phase_control_fabric/science_v3.py:674-727 | terminates with the greatest self-supporting pair of states and transformations; every recorded round is exactly what the survivors of the earlier rounds had to give up, and there are at most as many rounds as members |
| SupportCore.FindRemoval | src/collective_phase_control_fabric/science_v3.py:687-713 | one round takes exactly the transformations short of domains and then the states left without producer |
| SupportCore.SupportedMeans | src/collective_phase_control_fabric/science_v3.py:691-707 | a transformation stays iff at least the required number of different effective domains stand behind its active supports, and behind its active verifiers |
| SupportCore.CoreIsUnique | src/collective_phase_control_fabric/science_v3.py:674-727 | there is only one greatest self-supporting pair, whatever the order of iteration |
| SupportCore.PerturbedPairs | src/collective_phase_control_fabric/science_v3.py:752-784 | self-supporting in the reduced network iff self-supporting in the original and untouched by the removal |
| SupportCore.PerturbationShrinksCore | src/collective_phase_control_fabric/science_v3.py:752-784 | a perturbation case only shrinks the core and only adds collapsed targets |
| SupportCore.CoreSurvivesIffUntouched | src/collective_phase_control_fabric/science_v3.py:752-784 | the core is unchanged iff nothing in it was removed |
| SupportCore.OnlyCoreMembersMatter | src/collective_phase_control_fabric/science_v3.py:752-784 | what a case removes outside the core has no effect on the core that is left |
| Formation.ValidateFormation | src/collective_phase_control_fabric/science_v3.py:195-281 | for every witness the reported reasons are exactly the specified ones: bindings, layer limit and coverage, and per firing its missing prerequisites, unparsable coordinates and floor violations on the running balances; and there is one prefix record per usable layer, in order, with the states and balances after it |
| Formation.FireLayer | src/collective_phase_control_fabric/science_v3.py:243-270 | within a layer every transformation is judged on strictly prior states and on the balances after the ones fired before it |
| Formation.AcceptedIffSound | src/collective_phase_control_fabric/science_v3.py:195-281 | accepted iff bindings match, the layers cover the transformations once each, every firing has all it requires among the strictly prior states, no inhibitor there, a complete catalyst or none needed, known outputs, and keeps the floors, and the targets are formed |
| Formation.FloorsHoldThroughout | src/collective_phase_control_fabric/science_v3.py:248-264 | in an accepted formation every registered protected coordinate is on or above its floor after every prefix of firings |
| ResourceAccounting.ValidateAccounting | src/collective_phase_control_fabric/science_v3.py:284-343 | the outcome on every input: unknown, bad rationals, the exception, or exactly the specified complaints, with the residual of every known transformation |
| ResourceAccounting.AcceptedIffSound | src/collective_phase_control_fabric/science_v3.py:302-335 | accepted iff all quantities are rational, exactly the registered coordinates are weighted, exactly the floors are protected and positively weighted, network and sources are right, and every transformation is known, supplied by live sources and gains no more weight than it is credited with |
| ResourceAccounting.RaisesIffFlowUnreadable | src/collective_phase_control_fabric/science_v3.py:318-335 | the exception happens iff weights and credits are all rational and some flow of a known transformation on a registered coordinate is not |
| ResourceAccounting.UnreadableFlowRaises | src/collective_phase_control_fabric/science_v3.py:318-335 | a concrete network and contract on which it happens |
| ResourceAccounting.NoUncreditedGain | src/collective_phase_control_fabric/science_v3.py:195-343 | accepted by both checks: after every prefix the weighted balance is at most the initial one plus the boundary credits of what has fired |
| ResourceAccounting.CoveredRunsConserve | src/collective_phase_control_fabric/science_v3.py:318-335 | the same for any run of transformations whose weighted gain is covered by their credit |
| ResourceAccounting.ProtectedCoordinatesAreBounded | src/collective_phase_control_fabric/science_v3.py:195-343 | if every registered coordinate is protected, the weighted headroom of each one stays bounded by what start and credits leave above all floors |
| Unfolding.Unfold | src/collective_phase_control_fabric/science_v4.py:1006-1079 | events are firing sequences ending in their markings with distinct identifiers; conflicts list exactly the several transformations that can fire; a complete search's initial and event markings are exactly the reachable ones; an exhausted one has used its whole budget |
| Unfolding.ContactCheckIsOneSafety | src/collective_phase_control_fabric/science_v4.py:1045-1050 | the extra check on outputs holds iff the token game puts at most one token anywhere, and then sets and tokens agree |
| Unfolding.EnabledMeans | src/collective_phase_control_fabric/science_v4.py:116-130 | place by place what has to be marked, what must not be, and that without exemption every catalyst clause has a marked place |
| Unfolding.ClosedContainsReachable | src/collective_phase_control_fabric/science_v4.py:1040-1066 | a set of markings with the initial one that is closed under firing contains every reachable marking |
| Unfolding.FindChoices | src/collective_phase_control_fabric/science_v4.py:1042-1051 | one expansion finds exactly the transformations that can fire, each once, with their markings |
| SeedSearch.FormationSeeds | src/collective_phase_control_fabric/seed.py:33-117 | terminates on cyclic producers; no seeds iff all targets are available; at most three, an antichain, each making every target derivable; exact iff at most sixteen unresolved states; always the first three minimal combinations of one sufficient list per target, taken in order with three or thirty-two unions kept each time; for one target and acyclic missing states an exact search returns the first three of all minimal leaf seeds |
| SeedSearch.Search.Collect | src/collective_phase_control_fabric/seed.py:50-59 | collects the state and, outside the states in progress, everything backwards from it, and nothing else |
| SeedSearch.Search.Solve | src/collective_phase_control_fabric/seed.py:67-98 | every returned set suffices for the state and so does every memo entry, under whatever stack it was made |
| SeedSearch.UnionsAreGood | src/collective_phase_control_fabric/seed.py:87-93 | combining sets that suffice for some goals with sets that suffice for others gives sets that suffice for both and still cover every leaf seed |
| SeedSearch.AllProducers | src/collective_phase_control_fabric/seed.py:79-97 | without cycles the choices over all producers cover every leaf seed of the state |
| Seeds.LastStep | src/collective_phase_control_fabric/seed.py:33-47 | what is derivable but not given has an eligible producer whose requirements are all derivable |
| Seeds.EligibleMayFire | src/collective_phase_control_fabric/seed.py:12-21 | the producers considered are those that may fire once everything they take or read is there: local, with known version and lifecycle, and with authority wherever they name one |
| MinimalSets.Minimal | src/collective_phase_control_fabric/seed.py:24-30 | exactly the inclusion-minimal candidates, by size and then by sorted members |
| MinimalSets.EarlierMeans | src/collective_phase_control_fabric/seed.py:25 | the order is by size, and among equally large sets by the first difference of their sorted members |
| MinimalSets.MinimalCovers | src/collective_phase_control_fabric/seed.py:24-30 | every candidate contains one that is kept |
| MinimalSets.MinimalIsAntichain | src/collective_phase_control_fabric/seed.py:24-30 | no kept set contains another |
| NetworkClosure.FeasibleClosure | src/collective_phase_control_fabric/network.py:109-139 | the work list ends at the end of a run; every transformation left out is reported with its blockers there, at least one |
| NetworkClosure.VerifiedClosure | src/collective_phase_control_fabric/network.py:183-217 | the same for the evidence-backed rules over the feasible transformations |
| NetworkClosure.BaseBlockersExplain | src/collective_phase_control_fabric/network.py:73-106 | no base blocker iff the record is backed and valid, its effect local, its authority granted or not needed, hazard, lifecycle, version and output contract known to hold, outputs live, inputs available and no inhibitor present |
| NetworkClosure.VerifiedBlockersExplain | src/collective_phase_control_fabric/network.py:142-180 | no blocker iff additionally there is evidence, all of it available and live, no two pieces sharing a digest, source event or lineage, every role is verified, and nothing is flagged |
| NetworkClosure.VerifiedIsWithinFeasible | src/collective_phase_control_fabric/network.py:183-217 | verified states and transformations are among the feasible ones, inhibitors or not |
| NetworkClosure.FeasibleIsLeastFixpoint | src/collective_phase_control_fabric/network.py:109-139 | without inhibitors the result is the least fixpoint and every other stuck run ends there |
| NetworkClosure.VerifiedIsLeastFixpoint | src/collective_phase_control_fabric/network.py:183-217 | the same for the verified closure |
| InhibitorOrder.FeasibleOrderMattersIff | src/collective_phase_control_fabric/network.py:109-139 | for every network: all stuck runs from every admissible start agree on states and transformations iff no two transformations conflict, that is, can be ready together while one makes an inhibitor of the other available |
| InhibitorOrder.VerifiedOrderMattersIff | src/collective_phase_control_fabric/network.py:183-217 | the same for the verified closure over any set of feasible transformations |
| InhibitorOrder.NoInhibitorsNoConflict | src/collective_phase_control_fabric/network.py:93-95 | without inhibitors no two transformations conflict |
| Confluence.OrderIsIrrelevantIff | src/collective_phase_control_fabric/network.py:115-130 | for rules that are lost for good once they are lost: the order of the work list is irrelevant iff no ready rule can take another ready rule away |
| NetworkClosure.InhibitorsMakeOrderMatter | src/collective_phase_control_fabric/network.py:93-95 | two mutually inhibiting transformations: two stuck runs with different ends |
| QueueClosure.WorkList | src/collective_phase_control_fabric/network.py:115-130 | the loop terminates; every rule neither applied nor pending is not ready |
| QueueClosure.OrderDoesNotMatter | src/collective_phase_control_fabric/network.py:115-130 | any two stuck runs of monotone rules agree |
| CriticalPath.Compute | src/collective_phase_control_fabric/metrics.py:48-120 | which verdict on every input, down to the single tasks and dependencies; a computed path is a dependency path from a task without predecessors, its durations sum to the reported duration, no rooted path is longer, and without negative durations no path at all |
| CriticalPath.Relax | src/collective_phase_control_fabric/metrics.py:79-87 | one pass in topological order establishes the longest-path recurrence, or meets a task that was never declared |
| CriticalPath.TraceBack | src/collective_phase_control_fabric/metrics.py:89-94 | the cursor loop ends and follows the chosen predecessors to a root |
| CriticalPath.ReportIsUnique | src/collective_phase_control_fabric/metrics.py:79-94 | path and duration do not depend on the topological order |
| CriticalTies.ReportIsPreferred | src/collective_phase_control_fabric/metrics.py:79-94 | of all rooted paths as long as the reported one, the reported one has the greater identifier where, read from the end, they first differ |
| CriticalPath.RaiseOnUndeclaredTask | src/collective_phase_control_fabric/metrics.py:72-83 | a concrete work graph with a dependency on a task that was never declared, on which the calculation raises |
| NegativeDurations.LongestIffLeadIns | src/collective_phase_control_fabric/metrics.py:79-94 | given the graph and the tasks whose durations may be negative: the reported path is the longest of all paths for all such durations iff every task can be reached from a root through tasks that may not be negative |
| NegativeDurations.LeadInsSuffice | src/collective_phase_control_fabric/metrics.py:79-94 | on the given durations such lead-ins make the reported path the longest |
| NegativeDurations.MissingLeadInMisleads | src/collective_phase_control_fabric/metrics.py:79-94 | for any task without a lead-in there are such durations on which some path is longer than the reported one |
| CriticalPath.NegativeDurationsCanHideALongerPath | src/collective_phase_control_fabric/metrics.py:79-94 | a concrete instance of the previous row |
| Canonical.BytesIdentifyValues | src/collective_phase_control_fabric/canonical.py:51-75 | two encodable values have the same canonical bytes iff they are equal up to the order of object members |
| Canonical.EncodingIsUnique | src/collective_phase_control_fabric/canonical.py:56-73 | a text that begins with an encoding and is then delimited determines the value and the rest |
| Canonical.EquivalentEncodeAlike | src/collective_phase_control_fabric/canonical.py:69-72 | member order never changes the text |
| Canonical.OutcomeIsExact | src/collective_phase_control_fabric/canonical.py:30-75 | refused by the profile iff some float or integer out of range; not encodable iff some string or member name holds a lone surrogate |
| JsonReader.BytesReadBack | src/collective_phase_control_fabric/canonical.py:51-75 | a reader by the rules of RFC 8259 and RFC 3629 reads canonical bytes back as the value itself with its members in canonical order |
| JsonReader.NormalIsEquivalent | src/collective_phase_control_fabric/canonical.py:69-72 | putting the members in canonical order, at any depth, changes nothing but their order |
| JsonReader.ValueReadsBack | src/collective_phase_control_fabric/canonical.py:56-73 | the encoding of a value, followed by a delimiter, is read back as that value and nothing of what follows is taken |
| JsonReader.StringReadsBack | src/collective_phase_control_fabric/canonical.py:65-66 | a quoted string is read back exactly, whatever follows it |
| JsonReader.EscapeIsShortest | src/collective_phase_control_fabric/canonical.py:65-66 | every escape is the shortest spelling of its character, with lower-case digits, as section 3.2.2.2 of RFC 8785 asks |
| JsonReader.TextReadsBack | src/collective_phase_control_fabric/canonical.py:75 | the UTF-8 form of a text without surrogates is read back by the rules of RFC 3629 |
| CanonicalText.QuoteIsUnique | src/collective_phase_control_fabric/canonical.py:65-66 | a quoted string determines the string and what follows |
| CanonicalText.DecimalIsUnique | src/collective_phase_control_fabric/canonical.py:63-64 | a delimited decimal determines the integer and what follows |
| CanonicalText.SortOrders | src/collective_phase_control_fabric/canonical.py:69-72 | member names are strictly ordered |
| CanonicalText.OrderedIsUnique | src/collective_phase_control_fabric/canonical.py:69-72 | a strictly ordered list is determined by its members |
| Unicode.Utf8IsInjective | src/collective_phase_control_fabric/canonical.py:75 | different texts have different UTF-8 bytes |
| Unicode.KeysByCodeUnits | src/collective_phase_control_fabric/canonical.py:70-71 | comparing big-endian UTF-16 bytes is comparing code units, as section 3.2.3 of RFC 8785 requires |
| Unicode.KeysByFirstDifference | src/collective_phase_control_fabric/canonical.py:70-71 | one member name comes before another iff it ends or has the smaller unit where their UTF-16 units first differ |
| Unicode.UnitsReadBack | src/collective_phase_control_fabric/canonical.py:71 | the UTF-16 units are those of RFC 2781: the characters are read back from them |
| Unicode.KeysAreComparable | src/collective_phase_control_fabric/canonical.py:70-71 | different names without lone surrogates are never tied |
| Unicode.SurrogatesCanTie | src/collective_phase_control_fabric/canonical.py:71 | names with lone surrogates can be tied although they differ |
| Limits.LexicalDepth | src/collective_phase_control_fabric/limits.py:52-84 | the byte loop with its early errors computes exactly the scan of the whole input |
| Limits.LexicalDepthIsNesting | src/collective_phase_control_fabric/limits.py:52-84 | on canonical bytes the scan ends balanced and unquoted with exactly the container nesting, or reports the limit iff the nesting exceeds 64 |
| Limits.BytesScanAlike | src/collective_phase_control_fabric/limits.py:60-80 | the scanner reads UTF-8 bytes as it would read characters |
| Limits.ShapeDepth | src/collective_phase_control_fabric/limits.py:87-99 | the measured depth lies between nesting and nesting plus one |
| Limits.ShapeSizes | src/collective_phase_control_fabric/limits.py:87-99 | the measured member and item counts are the least bounds over all nested objects and arrays |
| Limits.ShapeDepthIsExact | src/collective_phase_control_fabric/limits.py:87-99 | the measured depth is the nesting plus one iff a scalar sits in a deepest container, else the nesting |
| Limits.DepthLimitsDifferIff | src/collective_phase_control_fabric/limits.py:102-116 | for all encodable values: the scanner passes and the shape check refuses iff the nesting is exactly 64 with a scalar under 64 containers; what the scanner refuses the shape check refuses too |
| Limits.DepthLimitsDifferAtTheLimit | src/collective_phase_control_fabric/limits.py:102-116 | 64 arrays around a scalar pass the scanner and fail the shape check |

## Left out

- File writes, fsync, temporary files, CAS directories, path and link checks, locks beyond their effect of ordering commits: the store is a map of files and a CURRENT field, with a crash possible before each write.
- SHA-256, Ed25519, base64, dates and JSON Schema: digests are an uninterpreted function, the rest are boolean inputs.
- Parsing of JSON, rationals and integers; only the encoder and the nesting scanner are modelled, and `json.dumps` only for string quoting. The bit-length limit of rationals is part of "does not parse".
- The texts of reasons: they are datatypes carrying the identifiers the texts mention. Results that the code sorts for display are sets or maps where the order carries no information.
- SeedSearch.FormationSeeds: minimality and completeness are claimed for one target and acyclic missing states only; elsewhere the code cuts combinations to three or thirty-two and memoises under a stack, and only sufficiency, the antichain and the count are claimed. Python's recursion limit is not modelled.
- CriticalPath.Compute: the topological order of networkx is a parameter; the recommendation texts and work graphs that are not records of lists are left out.
- NetworkClosure.FeasibleClosure: blockers are computed for the report; inside the loop the equivalent readiness predicate is tested (`NetworkClosure.BaseBlockersExplain`).
- Planning v0.3: the per-branch reports and the dominance relation that reads them; the selections of v0.4 and v0.5 are modelled.
- PolicyV4.BuildTree: the JSON form of nodes; the width of the beam is a natural number.
- Planning v0.5: `_bound_actions` and `_tree` repeat the v0.4 construction; only dominance and selection are modelled.
- Unfolding.Unfold: the order of the reported conflicts, and that the search is breadth-first, are not stated.
- Coordination.ReplaceSession: writes to the content-addressed store made before a refused commit stay, as in the code; garbage left there is not removed. Commands of other components are modelled as changes that leave session entries alone and keep ledger digests.
- Floating-point values never reach the encoder: the profile refuses them, so no number formatting beyond decimal integers is modelled.
- `bounded_one_safe_occurrence_prefix`, organization, rate, siphon and RAF checks, effective independence, acceleration evidence, process execution, adapters, bundles, fixtures and demos.
