/**
  What a plan is and how the greedy packer decides it (internal/planner), as functions of the
  assignment: candidates, the order they are tried in, first fit, the trial and the commit.
  Module Greedy computes the same plan on the heap.
 */
module Planning {
  import opened Model
  import opened Sums
  import opened Sorting
  import opened Packings

  datatype Options = Options(
    maxSteps: int,
    excludeNodeLabels: seq<string>,
    excludeNamespaces: seq<string>,
    minNodeAge: int,
    now: Option<int>,
    packCeiling: real)

  /** The analyzer's verdict per pod key; a pod it never saw is absent. */
  type Analysis = map<string, bool>

  datatype Plan = Plan(steps: seq<PlanStep>, nodesBefore: int, nodesAfter: int,
                       alreadyReclaimable: int, packCeiling: real)

  // ----------------------------------------------------------------- used capacity

  ghost function Cpu(): Pod -> int { (p: Pod) => p.Footprint().milliCPU }
  ghost function Mem(): Pod -> int { (p: Pod) => p.Footprint().memoryBytes }
  ghost function Slots(): Pod -> int { (p: Pod) => p.Footprint().pods }

  ghost function Used(occ: seq<Pod>): Resources {
    Resources(Sum(occ, Cpu()), Sum(occ, Mem()), Sum(occ, Slots()))
  }

  ghost function CpuOn(n: string): Pod -> int {
    (p: Pod) => if p.nodeName == n && !p.Finished() then p.Footprint().milliCPU else 0
  }
  ghost function MemOn(n: string): Pod -> int {
    (p: Pod) => if p.nodeName == n && !p.Finished() then p.Footprint().memoryBytes else 0
  }
  ghost function SlotsOn(n: string): Pod -> int {
    (p: Pod) => if p.nodeName == n && !p.Finished() then p.Footprint().pods else 0
  }

  /** Requests of the unfinished pods a snapshot assigns to node n. */
  ghost function RequestedOnNode(pods: seq<Pod>, n: string): Resources {
    Resources(Sum(pods, CpuOn(n)), Sum(pods, MemOn(n)), Sum(pods, SlotsOn(n)))
  }

  ghost function Carrying(pods: seq<Pod>): Node -> int {
    (n: Node) => if RequestedOnNode(pods, n.name).IsZero() then 0 else 1
  }

  /** Nodes carrying anything at all. */
  ghost function OccupiedInSnapshot(snap: Snapshot): int { Sum(snap.nodes, Carrying(snap.pods)) }

  // -------------------------------------------------------------------- candidates

  predicate NodeExcluded(opts: Options, n: Node, now: int) {
    || (exists key | key in opts.excludeNodeLabels :: key in n.labels)
    || (opts.minNodeAge > 0 && n.createdAt.Some? && now - n.createdAt.value < opts.minNodeAge)
  }

  predicate IsCandidate(opts: Options, n: Node, now: int) {
    n.ready && !NodeExcluded(opts, n, now) && !n.DoNotDisrupt()
  }

  function DrainCandidates(nodes: seq<Node>, opts: Options, now: int): seq<Node> {
    if nodes == [] then [] else
      var rest := DrainCandidates(nodes[..|nodes| - 1], opts, now);
      if IsCandidate(opts, nodes[|nodes| - 1], now) then rest + [nodes[|nodes| - 1]] else rest
  }

  lemma {:induction false} CandidateMembers(nodes: seq<Node>, opts: Options, now: int)
    ensures forall c | c in DrainCandidates(nodes, opts, now) :: c in nodes
  {
    if nodes != [] { CandidateMembers(nodes[..|nodes| - 1], opts, now); }
  }

  function RequestedRatio(v: Packing, n: Node): real {
    n.allocatable.Sub(Free(v, n.name)).DominantRatio(n.allocatable)
  }

  /** Emptiest first, names breaking ties. */
  predicate DrainsBefore(v: Packing, a: Node, b: Node) {
    var ra, rb := RequestedRatio(v, a), RequestedRatio(v, b);
    if ra != rb then ra < rb else StringLess(a.name, b.name)
  }

  function DrainOrder(v: Packing): (Node, Node) -> bool { (a, b) => DrainsBefore(v, a, b) }

  function SortNodesForDraining(v: Packing, nodes: seq<Node>): seq<Node> { StableSort(nodes, DrainOrder(v)) }

  // --------------------------------------------------------------------- first fit

  /** Largest first, keys breaking ties. */
  predicate PlacedBefore(a: Pod, b: Pod) {
    if a.requests.milliCPU != b.requests.milliCPU then a.requests.milliCPU > b.requests.milliCPU
    else if a.requests.memoryBytes != b.requests.memoryBytes then a.requests.memoryBytes > b.requests.memoryBytes
    else StringLess(a.Key(), b.Key())
  }

  function SortPodsBySizeDesc(pods: seq<Pod>): seq<Pod> { StableSort(pods, PlacedBefore) }

  ghost function FreeBasis(v: Packing, n: string): Resources { Free(v, n).Add(Used(Occupants(v, n))) }

  /** How full a node is, by its tightest dimension. */
  ghost function Fullness(v: Packing, n: string): real { 1.0 - Free(v, n).DominantRatio(FreeBasis(v, n)) }

  datatype Candidate = Candidate(name: string, used: real)

  /** Fullest first, names breaking ties. */
  predicate PreferredTo(a: Candidate, b: Candidate) {
    if a.used != b.used then a.used > b.used else StringLess(a.name, b.name)
  }

  ghost predicate MayReceive(v: Packing, pod: Pod, source: string, drained: set<string>, n: string) {
    n != source && n !in drained && CanPlace(v, pod, n)
  }

  ghost function FitOptions(v: Packing, pod: Pod, source: string, drained: set<string>,
                            names: seq<string>): seq<Candidate> {
    if names == [] then [] else
      var n := names[|names| - 1];
      var rest := FitOptions(v, pod, source, drained, names[..|names| - 1]);
      if MayReceive(v, pod, source, drained, n) then rest + [Candidate(n, Fullness(v, n))] else rest
  }

  /** The destination: the head of the options by preference, or the empty name. */
  ghost function FirstFit(v: Packing, pod: Pod, source: string, drained: set<string>): string {
    var options := StableSort(FitOptions(v, pod, source, drained, v.order), PreferredTo);
    if options == [] then "" else options[0].name
  }

  // --------------------------------------------------------------- trial and commit

  function MoveOf(p: Pod, source: string, target: string): Move {
    Move(p.namespace, p.name, source, target, p.requests.milliCPU, p.requests.memoryBytes)
  }

  function Relocated(v: Packing, p: Pod, target: string): Packing { Place(Remove(v, p), p, target) }

  datatype Trial = Trial(moves: seq<Move>, packing: Packing)

  /** Moves the pods one after another off source; fails as soon as one has no destination. */
  ghost function Relocate(v: Packing, pods: seq<Pod>, source: string, drained: set<string>,
                          moves: seq<Move>): Option<Trial>
    decreases |pods|
  {
    if pods == [] then Some(Trial(moves, v)) else
      var target := FirstFit(v, pods[0], source, drained);
      if target == "" then None else
        Relocate(Relocated(v, pods[0], target), pods[1..], source, drained, moves + [MoveOf(pods[0], source, target)])
  }

  /** A movable pod policy or the analyzer forbids evicting makes its whole node undrainable. */
  predicate HoldsBack(p: Pod, analysis: Analysis, opts: Options) {
    p.namespace in opts.excludeNamespaces || (p.Key() in analysis && !analysis[p.Key()])
  }

  function MovablePods(occ: seq<Pod>): seq<Pod> {
    if occ == [] then [] else
      var rest := MovablePods(occ[..|occ| - 1]);
      if occ[|occ| - 1].IsMovable() then rest + [occ[|occ| - 1]] else rest
  }

  lemma {:induction false} MovableMembers(occ: seq<Pod>)
    ensures forall p :: p in MovablePods(occ) <==> p in occ && p.IsMovable()
  {
    if occ != [] {
      MovableMembers(occ[..|occ| - 1]);
      assert occ == occ[..|occ| - 1] + [occ[|occ| - 1]];
    }
  }

  ghost function TryDrain(v: Packing, node: string, drained: set<string>, analysis: Analysis,
                          opts: Options): Option<Trial> {
    var pods := MovablePods(Occupants(v, node));
    if pods == [] || (exists p | p in pods :: HoldsBack(p, analysis, opts)) then None
    else Relocate(v, SortPodsBySizeDesc(pods), node, drained, [])
  }

  function IndexOfKey(occ: seq<Pod>, namespace: string, name: string): (i: int)
    ensures -1 <= i < |occ|
    ensures 0 <= i ==> occ[i].namespace == namespace && occ[i].name == name
    ensures forall j | 0 <= j < i :: !(occ[j].namespace == namespace && occ[j].name == name)
    ensures i < 0 ==> forall j | 0 <= j < |occ| :: !(occ[j].namespace == namespace && occ[j].name == name)
  {
    if occ == [] then -1
    else if occ[0].namespace == namespace && occ[0].name == name then 0
    else var r := IndexOfKey(occ[1..], namespace, name); if r < 0 then -1 else r + 1
  }

  function FindPod(v: Packing, node: string, namespace: string, name: string): Option<Pod> {
    var i := IndexOfKey(Occupants(v, node), namespace, name);
    if i < 0 then None else Some(Occupants(v, node)[i])
  }

  /** One committed move; a pod that is no longer found is skipped. */
  function ApplyMove(v: Packing, m: Move): Packing {
    var found := FindPod(v, m.fromNode, m.namespace, m.pod);
    if found.None? then v else Relocated(v, found.value, m.toNode)
  }

  /** A list of moves, committed one after another. */
  ghost function Replay(v: Packing, moves: seq<Move>): Packing { Fold(ApplyMove, v, moves) }

  // ----------------------------------------------------------------------- the plan

  datatype Progress = Progress(work: Packing, drained: set<string>, steps: seq<PlanStep>, reclaimable: int)

  ghost function Consider(st: Progress, node: Node, snap: Snapshot, analysis: Analysis, opts: Options): Progress {
    if IsEmpty(st.work, node.name) then
      st.(drained := st.drained + {node.name},
          reclaimable := st.reclaimable + Carrying(snap.pods)(node))
    else
      var trial := TryDrain(st.work, node.name, st.drained, analysis, opts);
      if trial.None? then st else
        Progress(Replay(st.work, trial.value.moves),
                 st.drained + {node.name},
                 st.steps + [PlanStep(|st.steps| + 1, node.name, trial.value.moves)],
                 st.reclaimable)
  }

  predicate LimitReached(opts: Options, steps: int) { opts.maxSteps > 0 && steps >= opts.maxSteps }

  ghost function RunPlan(st: Progress, candidates: seq<Node>, snap: Snapshot, analysis: Analysis,
                         opts: Options): Progress
    decreases |candidates|
  {
    if candidates == [] || LimitReached(opts, |st.steps|) then st
    else RunPlan(Consider(st, candidates[0], snap, analysis, opts), candidates[1..], snap, analysis, opts)
  }

  function Now(snap: Snapshot, opts: Options): int { if opts.now.Some? then opts.now.value else snap.takenAt }

  ghost function Start(snap: Snapshot, opts: Options): Progress {
    Progress(Packed(snap, opts.packCeiling), {}, [], 0)
  }

  ghost function Candidates(snap: Snapshot, opts: Options): seq<Node> {
    SortNodesForDraining(Packed(snap, opts.packCeiling), DrainCandidates(snap.nodes, opts, Now(snap, opts)))
  }

  /** The state the planning loop ends in. */
  ghost function Outcome(snap: Snapshot, analysis: Analysis, opts: Options): Progress {
    RunPlan(Start(snap, opts), Candidates(snap, opts), snap, analysis, opts)
  }

  ghost function PlanFor(snap: Snapshot, analysis: Analysis, opts: Options): Plan {
    var end := Outcome(snap, analysis, opts);
    Plan(end.steps, OccupiedInSnapshot(snap), OccupiedInSnapshot(snap) - |end.steps| - end.reclaimable,
         end.reclaimable, opts.packCeiling)
  }

  /** Every move of a list of steps, in execution order. */
  function AllMoves(steps: seq<PlanStep>): seq<Move> {
    if steps == [] then [] else AllMoves(steps[..|steps| - 1]) + steps[|steps| - 1].moves
  }
}
