# k8s-dencer, modelled and proved

k8s-dencer empties Kubernetes nodes so that an autoscaler can remove them. It plans which nodes to
drain, re-checks each step against the live cluster, evicts the pods one at a time, and keeps a
ledger of what became of the nodes. This project models that core in Dafny and proves what it keeps:
over every sequence of placements, over every plan, and over every run against a cluster that may
answer anything.

| module | models |
|---|---|
| Model | resources, taints, selectors, nodes, pods, budgets, snapshots (`internal/model`) |
| Sums, Sorting | sums, folds and stable sorts over sequences: shared mathematics |
| Matching | label requirements and selectors, read off their fields |
| Packings | what a placement means: rules stated as quantifiers and fresh counts |
| Fingerprints | the key of the spread cache, and when equal keys mean equal selectors |
| Placements | class Placement with its node states and lazily filled spread index, on the heap |
| Planning, Greedy | the greedy packer as functions of the assignment, and the same packer on the heap |
| Runs, PlanSafety, Overcommit, Cordons | legal moves, capacity, conservation, groups that repel themselves; every plan is a legal run; what an overcommitted node accepts, and what becomes of a cordoned one |
| Admission, Policies, Counters | the hard rules and the planner's policies, read off the fields and carried to every move and step of every plan, and what its counts mean |
| PlanOrder, Asking | a plan does not depend on list order; asking before or after removal is the same |
| Rails, Guard | the safety guard, and what an accepted feasibility check guarantees |
| Protocol, Envelopes, Endings, Executor | the executor against a nondeterministic cluster, with two monitors over its trace, and why its runs end as they do |
| Headroom, HeadroomLimits | the capacity ceiling script, when no plan beats it, and why it must ask what it does |
| EventStream | the event-stream printer and its incremental reader |
| Layout, PlanViews | the two views of a plan in the browser, and the planner's plans in them |
| Ledger | the reclamation table, the observer and the planner's cycle over it |

Where the source changes state step by step, so does the model: `Placement`, `SpreadIndex`, `World`,
`Reader`, `Table` and `Publisher` are classes, and each method is proved against a function or
relation on values (`View()`, `Seen(rules, trace)`, `Heard(text)`, `CycleRows`), about which the
lemmas then speak.

How the parts fit together:

- `Placement.Valid()` says that every memoised tally equals a fresh recount; every method keeps it, and
  `CanPlace` answers as the memo-free rules do. So after any interleaving of queries, moves and clones
  the cache cannot be seen.
- `Greedy.MakePlan` computes `PlanFor`, a function of the assignment. `PlanIsLegal` shows that every
  plan is a legal run, and the run lemmas (capacity, conservation, groups kept apart) then hold after
  any prefix of its moves, with whatever options and analysis.
- Every executor method is proved against `Protocol.Seen`, a monitor that rejects any call out of
  place, whatever the cluster answers. The lemmas of Protocol, Envelopes and Endings read the promises off
  an accepted trace.
- What decides a verdict is stated twice: once as the rule the methods are proved against, and once over
  the fields of nodes, pods, budgets and rows, or as the size of a set of pods or nodes. Lemmas named
  `...Exactly` say that the two agree.

Automatic induction is switched off in every lemma, so each inductive proof shows its own recursion.

Three promises of the source fail on some input. The first two come with the exact condition under which they hold:

- `internal/constraints/placement.go:43` says that a node above its ceiling accepts nothing new, because free
  capacity goes negative and every check fails. But `internal/model/resources.go:29` clamps each dimension at
  zero, so such a node still admits pods that ask for nothing where it is over: `FullNodeAccepts` shows one.
  `RefusedExactly` says, after any prefix of any plan, which pods a node that no move has left refuses for want of
  resources; `AcceptsNothingExactly`, that it refuses all of them if and only if it has no pod slot left;
  `RefusedByEveryFullNode`, that a request is refused by whatever node is above its ceiling if and only if it asks
  for something in every dimension; and `SignedExactly`, that free capacity is the signed difference if and only if
  the node is not above its ceiling. (All in module Overcommit.)
- `internal/publish/publish.go:362` says the ledger never overstates. The executor records a drain only after
  workloads have recovered, so a node may be gone, and already charged to something else, before its drain
  is recorded; it is then counted again. `LateDrainCountsTwice` is such a history. A departure is a fact about
  the cluster and the cycles alone (`Ledger.Departs`), and `EachDepartureOnce` says for every history exactly
  when each is counted once; `TimelyDrainsCountOnce` gives conditions the executor and the planner
  can check.
- `hack/capture/headroom.py:22` says that constraints can only take nodes off the script's figure. A plan's steps
  stay within it (`PlannerNeverBeatsHeadroom`) whenever cordoned nodes hold nothing movable, no other node starts
  above its CPU ceiling, and every pod is pinned or movable. None of the three may be dropped: for each there is a
  cluster that fails only that one, where the script says none and a plan drains a node (`CordonedNodeBeats`,
  `OverfullNodeBeats`, `HeldPodBeats`).

Selector fingerprints are compared only for selectors the API server admits: `EqualFingerprintsMatchAlike` says that
equal ones match alike, and `UnadmittedSelectorsCollide` gives two selectors it would refuse, alike in
fingerprint and different in what they match.

The agreement of the browser's two views rests on a guarantee of the snapshot readers, that finished
pods are left out. Under it `ViewsAgreeOnPlans` holds without further conditions; `LoadsAgreeExactly` and
`FinishedPodSplitsTheViews` say what the guarantee is for, on input no reader serves.

## Model

| member | source | states |
|---|---|---|
| `Packings.TalliesPlace` | internal/constraints/spreadindex.go:102-123 | adjusting a tally when a pod arrives gives what a recount of the new assignment gives, for every selector and topology key |
| `Packings.TalliesRemove` | internal/constraints/spreadindex.go:102-123 | the same when a pod leaves, counted by the occupant that was actually there |
| `Packings.WithoutFromTally` | internal/constraints/placement.go:419-443 | a tally less the pod's own contribution is the recount that leaves out the pod's own key |
| `Packings.VerdictFromCounts` | internal/constraints/placement.go:373-409 | comparing the target's count with the minimum over domains decides the spread rule stated over all domains |
| `Packings.TalliesMatchAlike` | internal/constraints/spreadindex.go:65-96 | a tally taken for one selector serves any selector that matches the same labels |
| `Fingerprints.SelectorFingerprint` | internal/constraints/spreadindex.go:133-164 | the string-building loops produce the canonical rendering, whatever order the label map is walked in |
| `Fingerprints.EqualFingerprintsMatchAlike` | internal/constraints/spreadindex.go:133-164 | over admitted selectors, equal fingerprints match exactly the same label maps |
| `Fingerprints.UnadmittedSelectorsCollide` | internal/constraints/spreadindex.go:133-164 | without admission two selectors that match differently can share a fingerprint |
| `Fingerprints.FingerprintIgnoresExpressionOrder` | internal/constraints/spreadindex.go:154-163 | permuting the expressions leaves the fingerprint alone |
| `Fingerprints.FingerprintIgnoresValueOrder` | internal/constraints/spreadindex.go:155-158 | permuting the values inside expressions leaves the fingerprint alone |
| `Placements.SpreadIndex.Clone` | internal/constraints/spreadindex.go:51-61 | every entry is copied into fresh objects with the same counts |
| `Placements.Placement.Clone` | internal/constraints/placement.go:78-94 | the clone means the same, shares no object with the original, and leaves it untouched |
| `Placements.Placement.Place` | internal/constraints/placement.go:129-138 | the assignment changes as stated on values, and every memoised tally still equals a recount |
| `Placements.Placement.Remove` | internal/constraints/placement.go:141-159 | the same for taking a pod out by key |
| `Placements.Placement.SpreadCounts` | internal/constraints/spreadindex.go:65-96 | cached or not, the answer is the tally a recount gives, and the assignment does not change |
| `Placements.Placement.AdjustSpread` | internal/constraints/spreadindex.go:102-123 | each memoised entry the pod counts for moves by delta in the node's domain, and no other changes |
| `Placements.Placement.DomainCounts` | internal/constraints/placement.go:419-443 | the counts without the pod being placed, for every domain |
| `Placements.Placement.ConflictInDomain` | internal/constraints/placement.go:305-330 | finds a conflict exactly when some other matching pod runs in the node's domain |
| `Placements.Placement.FitsPodAntiAffinity` | internal/constraints/placement.go:275-303 | required anti-affinity holds exactly when no term matches a pod of the domain |
| `Placements.Placement.FitsPodAffinity` | internal/constraints/placement.go:332-368 | required affinity holds exactly when each term matches a pod of the domain |
| `Placements.Placement.FitsTopologySpread` | internal/constraints/placement.go:373-409 | the hard spread constraints hold exactly when each does on a recount |
| `Placements.Placement.CanPlace` | internal/constraints/placement.go:168-204 | the nine checks answer the memo-free rule, change no assignment, and leave the cache coherent |
| `Placements.NewPlacementCeiling` | internal/constraints/placement.go:47-74 | the placement built from a snapshot means the assignment the snapshot describes |
| `Matching.SelectorPicks` | internal/model/constraints.go:95-138 | a selector matches exactly the labels that carry its own, an absent one reading as empty, and meet every requirement by its operator |
| `Admission.TaintsBarExactly` | internal/constraints/placement.go:221-241 | taints let a pod on if and only if each NoSchedule or NoExecute taint is covered by a toleration's effect, key, operator and value |
| `Admission.NeighboursExactly` | internal/constraints/placement.go:275-368 | affinity and anti-affinity hold if and only if some, or no, other pod that a term names sits in the node's domain |
| `Admission.WithoutIsOthers` | internal/constraints/placement.go:419-443 | a domain's count without the pod is the number of other pods there that the selector picks |
| `Admission.CanPlaceExactly` | internal/constraints/placement.go:168-204 | the verdict is the nine rules stated over the fields of node, pod and the other pods, a spread rule by the sizes of sets of pods |
| `Admission.MovesAreLawful` | internal/planner/greedy.go:126-177 | every move of every plan takes a movable pod from where it sits to a node that all nine rules allow it on then |
| `Admission.MovesAreWelcome` | internal/planner/greedy.go:185-212 | every move of every plan is of a pod of the snapshot that is running or pending, not terminating, not protected and no daemon, to a ready, uncordoned node of it whose taints it covers, whose labels it asks for and whose affinity it has |
| `Asking.AskBeforeOrAfterRemoval` | internal/constraints/placement.go:168-204 | for a pod on its node, the verdict on any other node is the same before and after it is removed |
| `Greedy.PickFirstFit` | internal/planner/greedy.go:185-212 | the fullest admitting node that is neither the source nor drained, names breaking ties |
| `Greedy.FreeBasisOf` | internal/planner/greedy.go:216-223 | free capacity plus what the occupants take |
| `Greedy.TryDrainNode` | internal/planner/greedy.go:126-177 | the trial on a clone yields the moves the value-level trial yields, and the working placement keeps its meaning |
| `Greedy.MakePlan` | internal/planner/greedy.go:28-121 | the heap planner returns the plan defined on assignments, in steps, targets, destinations and counters |
| `PlanSafety.FirstFitIsFullest` | internal/planner/greedy.go:185-212 | no other node that may receive the pod is fuller than the chosen one, and none as full has a smaller name |
| `Policies.PlanRespects` | internal/planner/greedy.go:134-150 | no step of any plan empties a node that holds, when the step is made, a movable pod in an excluded namespace or one the analyzer says cannot be evicted |
| `Policies.MovesRespect` | internal/planner/planner.go:102-109 | no move of any plan is of a pod in an excluded namespace, or of one whose verdict is that it cannot be moved |
| `Policies.CandidatesExactly` | internal/planner/greedy.go:226-246 | the candidates are the ready nodes old enough that neither an excluded label nor the annotation protects, all of them and no other |
| `Policies.CandidatesInOrder` | internal/planner/planner.go:155-174 | emptier candidates come first, names breaking ties |
| `Policies.PodsInOrder` | internal/planner/planner.go:179-193 | a node's pods are placed by falling CPU, then memory, then key |
| `Policies.DominantIsLargest` | internal/model/resources.go:51-84 | the dominant ratio is the largest share of any dimension that has capacity |
| `Policies.PlanKeepsToCandidates` | internal/planner/greedy.go:54-57 | a plan has at most as many steps as its limit, and drains only nodes that may be drained |
| `Policies.LonePodIsDrained` | internal/planner/greedy.go:81-102 | a candidate reached within the limit, whose only movable pod is not off limits and is admitted on another undrained node, is drained |
| `Counters.PlanCounts` | internal/planner/greedy.go:37-121 | nodesBefore is the number of nodes with an unfinished pod; alreadyReclaimable that of those drained without a step; nodesAfter that of those left alone, less the steps' targets that carried nothing at the start |
| `PlanSafety.CommitIsTrial` | internal/planner/greedy.go:86-95 | replaying an accepted step finds every pod and ends in the trial's assignment |
| `PlanSafety.PlanIsLegal` | internal/planner/greedy.go:51-102 | all moves of any plan form a legal run; targets are distinct, nothing lands on its source or a drained node, and in the end no target holds a movable pod |
| `PlanSafety.PlanStaysSound` | internal/constraints/placement.go:47-74 | after any number of a plan's moves every pod is on exactly one node unchanged, and each node's CPU, memory and slots used are at most the larger of its start and its ceiling |
| `PlanSafety.PlanKeepsGroupsApart` | internal/constraints/placement.go:275-330 | a group that repels itself and starts apart shares no domain of its key after any move of any plan |
| `Runs.FittingStaysWithin` | internal/model/resources.go:29-42 | a pod that fits the clamped remainder keeps use within the larger of basis and former use |
| `Runs.LegalRunSound` | internal/constraints/placement.go:129-159 | conservation, capacity and exact free space hold after every prefix of any legal run |
| `Runs.GroupsStayApart` | internal/constraints/placement.go:445-475 | the same for self-repelling groups over any legal run, for hostname and wider keys |
| `Overcommit.RefusedExactly` | internal/constraints/placement.go:266-273 | after any number of a plan's moves, a node none of them left refuses a pod for want of resources if and only if in some dimension the pod asks for more than zero and, with what is used, exceeds the ceiling; it may then not be placed |
| `Overcommit.AcceptsNothingExactly` | internal/constraints/placement.go:43-46 | such a node refuses every pod if and only if it has no pod slot left |
| `Overcommit.SignedExactly` | internal/constraints/placement.go:43-46 | free capacity there is the signed difference of ceiling and use if and only if no dimension is used beyond its ceiling |
| `Overcommit.RefusedByEveryFullNode` | internal/constraints/placement.go:43-46 | a request is refused by whatever node is above its ceiling if and only if it asks for something in every dimension |
| `Overcommit.FullNodeAccepts` | internal/model/resources.go:29-42 | a node of 1000m with a ceiling of half and 600m in use has no CPU free and admits any pod that requests nothing and is unconstrained |
| `Overcommit.BasisIsScaled` | internal/constraints/placement.go:53-59 | CPU and memory scaled by a ceiling between 0 and 1 and rounded down, pod slots whole; any other ceiling means all |
| `Overcommit.FullnessExactly` | internal/planner/greedy.go:185-223 | on a node not over its ceiling, free and used add up to the ceiling, its fullness is what the tightest dimension has left, and its requested ratio the largest share of the allocatable that is used or kept back |
| `Cordons.PlanAvoidsCordoned` | internal/constraints/placement.go:175-177 | no plan moves a pod onto a cordoned node, and a cordoned node with nothing movable keeps it so and is no step's target |
| `PlanOrder.PlanIgnoresListOrder` | internal/planner/planner.go:161-193 | permuting a snapshot's nodes and pods leaves the plan identical |
| `Rails.CheckEviction` | internal/safety/safety.go:275-292 | refuses exactly when a budget of the pod's namespace that names it by a non-empty selector has no disruption to spare |
| `Rails.MayEvictExactly` | internal/safety/safety.go:275-292 | an eviction may go ahead if and only if every budget of the namespace whose selector says something and picks the pod has a disruption to spare |
| `Guard.CheckNodeFloor` | internal/safety/safety.go:199-219 | passes exactly when enough ready, schedulable nodes remain without the target |
| `Guard.HasHome` | internal/safety/safety.go:257-268 | places the pod on the first admitting node other than the draining one, or reports none |
| `Guard.CheckStepFeasible` | internal/safety/safety.go:229-253 | passes exactly when each movable pod in turn finds a home once the target has been emptied |
| `Guard.CheckStep` | internal/safety/safety.go:136-196 | allows a step exactly when cap, target, floor, window and feasibility all allow it |
| `Guard.StepAllowedExactly` | internal/safety/safety.go:136-219 | a step may begin if and only if the cap leaves it room, its node exists, at least the floor's number of other nodes are ready and uncordoned, a Red one has leave or an open window, and it is feasible |
| `Guard.RemoveAllEmpties` | internal/safety/safety.go:232-238 | removing by the copied list skips no occupant and touches no other node |
| `Guard.GuardIsSound` | internal/safety/safety.go:229-268 | acceptance gives one simultaneous assignment of all the target's movable pods, each admitted with the earlier ones in place, no node used beyond the larger of its allocatable and its start |
| `Protocol.EvictionIsAuthorised` | internal/executor/executor.go:349-412 | in any accepted trace each eviction directly follows its own read, in which the pod exists and no budget blocks, under a cordon of a node it was movable on when the drain opened |
| `Protocol.EvictionHasHeadroom` | internal/executor/executor.go:373-392 | the read directly before an eviction shows the pod, and a disruption to spare in every budget that picks it |
| `Protocol.HealthyCountExactly` | internal/executor/executor.go:725-741 | a workload's healthy count is the number of its pods that are running, not terminating, and ready unless Running is enough |
| `Protocol.DrainedIsVerified` | internal/executor/executor.go:361-422 | when a node is called drained, every pod evicted from it was seen gone, and one read after the last eviction found all affected workloads back at their opening healthy counts at once |
| `Protocol.DrainIsVerified` | internal/executor/executor.go:485-563 | no cordon, no drained node and no good ending follows an accepted eviction until that very drain was verified so |
| `Protocol.CordonsAccountedFor` | internal/executor/executor.go:273-311 | for every node, cordons less uncordons are its drains plus its failed uncordons plus the one in progress |
| `Protocol.CordonIsDrainedOrUndone` | internal/executor/executor.go:290-303 | every node a finished run cordoned was drained, or was uncordoned as the last thing before the run ended |
| `Protocol.UncordonIsLast` | internal/executor/executor.go:645-665 | nothing but a Blocked or Failed ending follows an uncordon, so a run makes at most one and none if it succeeds |
| `Protocol.FinishIsLast` | internal/executor/executor.go:684-693 | a run is finished once and does nothing afterwards |
| `Endings.StatusHasCause` | internal/executor/executor.go:239-270 | whatever the mode: Blocked if and only if the guard refused the step or a budget an eviction, Stopped if and only if the run was asked to stop, and Failed whenever a call broke the step |
| `Protocol.CordonIsCleared` | internal/executor/executor.go:273-296 | each cordon directly follows an accepted step check made on a read taken just before |
| `Protocol.CordonsMatchDrains` | internal/executor/executor.go:305-310 | cordons outnumber completed drains by at most one |
| `Protocol.DryRunTouchesNothing` | internal/executor/executor.go:318-346 | a dry run cordons, uncordons and evicts nothing |
| `Executor.FindPod` | internal/executor/executor.go:714-721 | the first pod with the name, on whatever node |
| `Executor.HealthyByOwner` | internal/executor/executor.go:733-741 | per workload, the number of its pods that are running, not terminating, and ready unless Running is enough |
| `Executor.WaitGone` | internal/executor/executor.go:485-502 | succeeds only once the pod was reported absent; otherwise leaves a state an uncordon may end |
| `Executor.VerifyRecovered` | internal/executor/executor.go:511-563 | succeeds only on a read in which every affected workload has its opening healthy count |
| `Executor.EvictEach` | internal/executor/executor.go:361-412 | every pod of the list was evicted and seen gone or found already gone, or the step ends refused or broken |
| `Executor.Drain` | internal/executor/executor.go:349-422 | completes only with nothing left on the node unsettled and all affected workloads recovered |
| `Executor.PerformStep` | internal/executor/executor.go:273-311 | a step completes, is refused or breaks, by allowed calls throughout, and only completion counts a node as drained |
| `Executor.Perform` | internal/executor/executor.go:220-271 | the nodes drained are the targets of the requested steps in order, and the status says why it ended: succeeded if and only if all were drained, stopped if and only if asked to, blocked if and only if a step was refused, failed if and only if a step broke or was missing; every step's first read directly follows a question not answered by a stop |
| `Executor.PlanOneStep` | internal/executor/converge.go:170-187 | the first step, of the plan for this very snapshot and as the classifier rates it, whose target the run has not drained; none if there is none |
| `Executor.OccupiedNodes` | internal/executor/converge.go:191-199 | the number of distinct nodes holding a movable pod |
| `Executor.Converge` | internal/executor/converge.go:54-166 | whatever the cluster answers the calls keep the envelope and the status has its cause: succeeded only with the envelope used up, or the one rehearsal done, or a last read directly after a drain that counts no fewer occupied nodes than its round's opening read, or one on which every proposed target was visited or the first that was not is rated above the envelope; stopped exactly when asked to; failed exactly when a read or a step did; without consent it fails before any call |
| `Executor.DrainNode` | internal/executor/drain_mode.go:21-90 | a named drain drains that node if it succeeds and none otherwise; it fails if and only if no node is named, the node is missing or something broke, is blocked if and only if refused, and is never stopped |
| `Executor.CordonPassedTheGuard` | internal/safety/safety.go:136-168 | each cordon of any run rests on the whole step check of the read before it: room under the cap, enough other nodes that take pods, leave or a window for Red, a home for every movable pod |
| `Executor.CordonsWithinCap` | internal/safety/safety.go:137-142 | no run of any mode cordons more nodes than MaxNodesPerRun, when positive |
| `Envelopes.CordonsWithinEnvelope` | internal/executor/converge.go:62-77 | a converge run cordons at most the smaller of MaxNodes and fifty |
| `Envelopes.NoSecondVisit` | internal/executor/converge.go:38-39 | no node is cordoned twice |
| `Envelopes.StepsWithinCeiling` | internal/executor/converge.go:102-110 | every step put to the guard is Green, or Yellow under an envelope that says Yellow |
| `Envelopes.RoundsFall` | internal/executor/converge.go:146-160 | every round that another follows was followed first by a read with strictly fewer occupied nodes |
| `Envelopes.PlansAreChosen` | internal/executor/converge.go:82-115 | every planned step is the planner's choice among unvisited targets on the read directly before, itself directly after a question not answered by a stop |
| `Envelopes.OccupiedExactly` | internal/executor/converge.go:191-199 | a node is occupied if and only if it is named by a pod that is free to move |
| `Envelopes.PacedKeepsEnvelope` | internal/executor/converge.go:25-42 | all together, for the calls of any converge run: at most MaxNodes and fifty cordons, no node twice, nothing above the ceiling, every plan the planner's choice on a fresh read after asking, a fall between any two plans |
| `Headroom.NeedOf` | hack/capture/headroom.py:115-125 | the greedy count stops at the first prefix that holds the total |
| `Headroom.NeedIsLeast` | hack/capture/headroom.py:105-127 | no choice of rooms smaller than the greedy count holds the total, and that many do, unless none do |
| `Headroom.Drainable` | hack/capture/headroom.py:68-127 | the verdict is the live nodes less the least number whose rooms hold all movable CPU, zero if none do |
| `Headroom.EachPodCounts` | hack/capture/headroom.py:83-95 | a pod's CPU counts once, as movable or as pinned on its node, if it is unfinished and on a node read |
| `Headroom.RoomIsRounded` | hack/capture/headroom.py:105-111 | a room is what pinned pods leave of the node, times the ceiling, rounded towards zero |
| `Headroom.PlannerNeverBeatsHeadroom` | hack/capture/headroom.py:68-127 | with nothing movable on cordoned nodes, no other node over its CPU ceiling, every pod pinned or movable, and the script reading no pod larger than the planner, a plan has at most as many steps as the script's figure, and counts at most that many uncordoned nodes as drained |
| `HeadroomLimits.CordonedNodeBeats` | hack/capture/headroom.py:83-95 | a cordoned node with a movable pod, all else in order: the script says none, and a plan drains it |
| `HeadroomLimits.OverfullNodeBeats` | hack/capture/headroom.py:109-127 | a node above its ceiling, all else in order: the script says none, and a plan drains another |
| `HeadroomLimits.HeldPodBeats` | hack/capture/headroom.py:53-67 | a pod that may not be disrupted, all else in order: the script says none, and a plan drains its node's movable pod away |
| `EventStream.Serve` | internal/api/rest/events.go:107-135 | whatever list of events and keepalives is written, the whole text is heard as exactly those events, in order, with nothing left over |
| `EventStream.DispatchFrame` | ui/src/api.ts:609-622 | appends exactly what the frame's lines dispatch: last event field, joined data lines, nothing without data |
| `EventStream.Reader.Feed` | ui/src/api.ts:592-606 | after a chunk the reader has heard what tail and chunk contain together and keeps only the unfinished tail |
| `EventStream.ReadEventStream` | ui/src/api.ts:581-607 | what is heard is a function of the whole text, for any way of cutting it into chunks, even inside a blank line |
| `EventStream.FramesResume` | ui/src/api.ts:598-606 | the frames of a text are those of its first part and then those of the kept tail with the rest |
| `EventStream.ServeAndRead` | ui/src/api.ts:581-607 | end to end: however the served text is cut into chunks, the reader dispatches exactly the events |
| `EventStream.PrintedIsHeard` | internal/api/rest/events.go:117-135 | printed events with newline-free type and payload, mixed with keepalives, are heard exactly, in order, with nothing left over |
| `Layout.CountOccupancy` | internal/api/graph/graph.go:196-220 | per node, the number of pods and of pods that cannot move |
| `Layout.PlacementAtStep` | ui/src/layout.ts:203-214 | where each pod lives after the moves of the steps up to the given number |
| `Layout.DetailLayout` | ui/src/layout.ts:248-284 | per node, the CPU and memory of the pods standing there, and emptied exactly when none of them is movable |
| `Layout.DensityLayout` | ui/src/layout.ts:323-378 | per node, the server's CPU and memory adjusted by the moves and floored at zero, and emptied exactly when the adjusted count is at most the pinned count |
| `Layout.CountsAgree` | ui/src/layout.ts:381-396 | after any step of a chained plan the adjusted count is the number of pods standing there |
| `Layout.EmptiedAgree` | ui/src/layout.ts:372-374 | both views call the same nodes emptied |
| `Layout.DensityLoadIsLive` | ui/src/layout.ts:366-371 | the adjusted load is what the unfinished pods standing there request, so it is never negative and the floor is idle |
| `Layout.LoadsDifferByFinished` | ui/src/layout.ts:263-282 | the detail load exceeds the density load by what finished pods on the node request |
| `Layout.CollectPods` | internal/cluster/collector.go:147-155 | the readers' loop keeps every pod that has not finished, and no other |
| `Layout.LoadsAgree` | ui/src/layout.ts:337-371 | on anything a reader serves both views show the same CPU and memory loads after any step of a chained plan |
| `Layout.LoadsAgreeExactly` | ui/src/layout.ts:337-371 | on any pods at all, each load agrees exactly when no finished pod of the node requests any of it |
| `Layout.FinishedPodSplitsTheViews` | internal/cluster/direct.go:79-82 | why the readers drop finished pods: with one of them, which no reader serves, the views would show 100m and nothing |
| `PlanViews.PlanChains` | internal/planner/greedy.go:156-176 | after any step of any plan the moves shown chain over the plan's own snapshot, so the agreements above hold of it |
| `PlanViews.ViewsAgreeOnPlans` | internal/api/graph/graph.go:95-101 | of any plan made from a served snapshot, after any step, both views agree on each node's pod count, on whether it is emptied, and on its loads |
| `PlanViews.TargetsEndEmptied` | ui/src/layout.ts:256-284 | once all steps of a plan are shown, each target is drawn without a movable pod |
| `Ledger.Table.RecordDrain` | internal/store/sqlstore/reclamation.go:17-29 | inserts a pending row unless the key is taken |
| `Ledger.Table.ResolveReclamation` | internal/store/sqlstore/reclamation.go:55-72 | closes the row only while it is pending, touches no other, and reports whether it did |
| `Ledger.Table.ReclamationSummary` | internal/store/sqlstore/reclamation.go:75-145 | each figure is a sum over the rows it is about, external rows count in none of the product's own, and the median is that of its own waits |
| `Ledger.MedianHalves` | internal/store/sqlstore/reclamation.go:147-157 | at most half of the waits are shorter than the median and at most half are longer |
| `Ledger.Resolve` | internal/reclaim/observer.go:48-87 | a transition is made if and only if it is for a pending row of the list, now, and either no node has its name and it is gone, or the node of that name is schedulable and it is returned |
| `Ledger.SettledIsJudged` | internal/publish/publish.go:323-330 | applying a cycle's transitions judges every row once, by its own node's fate |
| `Ledger.CycleJudges` | internal/publish/publish.go:323-330 | a pending row stays as it is through a cycle that finds its node cordoned, is returned by one that finds it in service, and gone by one that finds none |
| `Ledger.WaitingIsCordoned` | internal/reclaim/observer.go:40-47 | after a cycle rows wait only for nodes it found cordoned |
| `Ledger.OutcomesAreSeen` | internal/reclaim/observer.go:48-87 | over any history, a row that is returned was closed by a cycle that found its node in service while the row waited, and a row that is gone by one that found no such node |
| `Ledger.EachRowCounts` | internal/store/sqlstore/reclamation.go:75-145 | a row something else removed changes no figure of the product's own, no other row changes that one figure, and each row changes exactly those it is about |
| `Ledger.Publisher.RecordExternalReclaims` | internal/publish/publish.go:365-423 | one closed external row for each node that left unasked, none on the first cycle, and no other change |
| `Ledger.Publisher.ObserveReclamations` | internal/publish/publish.go:305-351 | a whole cycle adds the external rows and judges every pending one in place |
| `Ledger.OutcomesNeverChange` | internal/store/sqlstore/reclamation.go:49-59 | over any history no record is lost or altered, and an outcome once set stays |
| `Ledger.CycleGones` | internal/publish/publish.go:305-423 | what a cycle adds to a node's gone rows: its waiting rows if absent, and one more if it left unasked |
| `Ledger.CountedOnceExactly` | internal/publish/publish.go:365-423 | a cycle adds one gone row for a departed node and none for any other if and only if it meets the node in good order: known in exactly one way if it was around since the last cycle, in none if it was not |
| `Ledger.EachDepartureOnce` | internal/publish/publish.go:353-423 | over any history of joins, departures, drains, cycles and restarts, at every moment a node has one gone row per departure if and only if every cycle met it in good order |
| `Ledger.TimelyDrainsCountOnce` | internal/executor/executor.go:414-421 | it is enough that each drain is recorded for a node around since the last cycle with none waiting, and that each cycle had seen what leaves undrained |
| `Ledger.LateDrainCountsTwice` | internal/executor/executor.go:414-421 | a node that leaves while its drain is being verified ends with two gone rows, one external and one the product's, for one departure |
| `Ledger.ExternalIffNotDrained` | internal/publish/publish.go:379-408 | the row of a departure met in good order is external exactly when no drain of the node was waiting |

## Left out

- Machine widths: quantities are unbounded integers, so 64-bit overflow of sums and the 32-bit conversion of a skew are not modelled.
- Floating point: the ceiling and the utilisation ratios are exact reals, truncated where the source converts to an integer.
- Ledger.Publisher.ObserveReclamations: its store calls never fail, where the code logs and goes on.
- Ledger.EachDepartureOnce: a cycle is one event, so no drain is recorded between its two reads of the pending rows.
- Uniqueness: node names and pod keys are taken to be unique, requests and (where it matters) allocatable capacity non-negative and selectors admitted, as the API server guarantees; the executor's snapshots are assumed so.
- Reason strings, rationales, plan identifiers, step descriptions, metrics, logs and notifications: no decision depends on them.
- The analyzer and the impact classifier: their verdicts and ratings are arbitrary functions of what they are given, and maintenance windows answer arbitrarily.
- Time: deadlines, polls, cancellation and step timeouts are arbitrary finite choices; the instants of a ledger cycle are parameters.
- The HTTP surface, authentication, informers, JSON, CPU-quantity parsing and the SQL behind the table, whose rows are kept in insertion order.
- Where evicted pods land: the executor makes no claim about the scheduler, and neither does the model.
- Executor.World: only an eviction may be refused by a budget; every other failing call is a plain failure.
- Executor.Perform: the audit events other than Plan and Drained, and the recovery and reclamation records, are not in the trace; a recorded drain appears only as the extra read it costs.
- Slice aliasing: occupant lists are values, so the copy made before removing is modelled and the bug it avoids cannot be.
- Headroom.Drainable: the CPU its app containers ask for is a given figure per pod, and a mirror pod is recognised by its owner rather than its annotation.
- Greedy.MakePlan: sorting is a stable sort by a total order rather than the library's algorithm; any sort gives the same list, as PlanIgnoresListOrder relies on.
- Placements.Placement.CanPlace: only the verdict is modelled, not which reason is reported first.
- Ledger.Table.ReclamationSummary: an instant that does not parse is not modelled; every row has both.
- Layout.DetailLayout: pixel positions, the division of loads by capacity and the sort of the node list are not part of this model.
- Soft spread constraints and preferred affinity: the source ignores them when placing, and so does the model.
- EventStream.Serve: a payload that cannot be marshalled and a failing connection are not modelled; text is already decoded.
- CandidateNodes, drainability explanations, recommendations, pricing and the remaining store operations would add only easy members.
