/**
  What a plan may touch and in which order (internal/planner/planner.go, internal/planner/greedy.go): the analyzer's
  verdicts, the excluded namespaces, the rules for candidates, the limit on steps, and the orders, read off the fields.
 */
module Policies {
  import opened Model
  import opened Sums
  import opened Sorting
  import opened Packings
  import opened Planning
  import opened Runs
  import opened PlanSafety
  import opened PlanOrder

  // ---------------------------------------------------------------- pods left alone

  /** A pod no plan may move: its namespace is excluded, or the analyzer says it cannot be evicted. */
  predicate OffLimits(namespace: string, name: string, analysis: Analysis, opts: Options) {
    || (exists i | 0 <= i < |opts.excludeNamespaces| :: opts.excludeNamespaces[i] == namespace)
    || (namespace + "/" + name in analysis && analysis[namespace + "/" + name] == false)
  }

  lemma {:induction false} OffLimitsHoldsBack(p: Pod, analysis: Analysis, opts: Options)
    ensures HoldsBack(p, analysis, opts) <==> OffLimits(p.namespace, p.name, analysis, opts)
  {
  }

  /** The step, planned on this assignment, empties its target of pods that may all be moved, and moves only them. */
  ghost predicate Respects(v: Packing, s: PlanStep, analysis: Analysis, opts: Options) {
    && (forall q | Sits(v, q) && q.nodeName == s.targetNode && q.IsMovable() ::
          !OffLimits(q.namespace, q.name, analysis, opts))
    && (forall m | m in s.moves :: exists q :: IsMoved(v, s, m, q))
  }

  ghost predicate IsMoved(v: Packing, s: PlanStep, m: Move, q: Pod) {
    Sits(v, q) && q.nodeName == s.targetNode && q.IsMovable() && m.namespace == q.namespace && m.pod == q.name
  }

  /** Every move a trial appends is of one of its pods. */
  lemma {:induction false} RelocateNames(v: Packing, pods: seq<Pod>, source: string, drained: set<string>,
                                         moves: seq<Move>)
    requires Relocate(v, pods, source, drained, moves).Some?
    ensures forall m | m in Relocate(v, pods, source, drained, moves).value.moves ::
      m in moves || exists q | q in pods :: m.namespace == q.namespace && m.pod == q.name
    decreases |pods|
  {
    if pods != [] {
      var t := TrialUnfolds(v, pods, source, drained, moves);
      var next := moves + [MoveOf(pods[0], source, t)];
      RelocateNames(Relocated(v, pods[0], t), pods[1..], source, drained, next);
      forall m | m in Relocate(v, pods, source, drained, moves).value.moves
        ensures m in moves || exists q | q in pods :: m.namespace == q.namespace && m.pod == q.name
      {
        if m !in moves { MoveOfOne(pods, moves, next, m, source, t); }
      }
    }
  }

  lemma {:induction false} MoveOfOne(pods: seq<Pod>, moves: seq<Move>, next: seq<Move>, m: Move, source: string,
                                     t: string)
    requires pods != [] && next == moves + [MoveOf(pods[0], source, t)] && m !in moves
    requires m in next || exists q | q in pods[1..] :: m.namespace == q.namespace && m.pod == q.name
    ensures exists q | q in pods :: m.namespace == q.namespace && m.pod == q.name
  {
    if m in next {
      assert pods[0] in pods;
    } else {
      var q :| q in pods[1..] && m.namespace == q.namespace && m.pod == q.name;
      assert q in pods;
    }
  }

  /** An accepted trial respects policy. */
  lemma {:induction false} TrialRespects(v: Packing, n: string, drained: set<string>, analysis: Analysis, opts: Options,
                                         number: int)
    requires Valid(v) && UniqueKeys(v) && TryDrain(v, n, drained, analysis, opts).Some?
    ensures Respects(v, PlanStep(number, n, TryDrain(v, n, drained, analysis, opts).value.moves), analysis, opts)
  {
    var s := PlanStep(number, n, TryDrain(v, n, drained, analysis, opts).value.moves);
    var pods := SortPodsBySizeDesc(MovablePods(Occupants(v, n)));
    DrainPods(v, n);
    RelocateNames(v, pods, n, drained, []);
    forall m | m in s.moves ensures exists q :: IsMoved(v, s, m, q) {
      var q :| q in pods && m.namespace == q.namespace && m.pod == q.name;
      assert IsMoved(v, s, m, q);
    }
    forall q | Sits(v, q) && q.nodeName == n && q.IsMovable() ensures !OffLimits(q.namespace, q.name, analysis, opts) {
      MovableMembers(Occupants(v, n));
      OffLimitsHoldsBack(q, analysis, opts);
    }
  }

  /** Each step respects policy on the assignment the steps before it lead to. */
  ghost predicate AllRespect(v0: Packing, steps: seq<PlanStep>, analysis: Analysis, opts: Options) {
    forall i | 0 <= i < |steps| :: Respects(Replay(v0, AllMoves(steps[..i])), steps[i], analysis, opts)
  }

  lemma {:induction false} RespectExtends(v0: Packing, steps: seq<PlanStep>, s: PlanStep, analysis: Analysis,
                                          opts: Options)
    requires AllRespect(v0, steps, analysis, opts) && Respects(Replay(v0, AllMoves(steps)), s, analysis, opts)
    ensures AllRespect(v0, steps + [s], analysis, opts)
  {
    var all := steps + [s];
    forall i | 0 <= i < |all| ensures Respects(Replay(v0, AllMoves(all[..i])), all[i], analysis, opts) {
      if i < |steps| { assert all[..i] == steps[..i]; } else { assert all[..i] == steps; }
    }
  }

  lemma {:induction false} ConsiderRespects(v0: Packing, st: Progress, node: Node, snap: Snapshot, analysis: Analysis,
                                            opts: Options)
    requires PlanInvariant(v0, st) && AllRespect(v0, st.steps, analysis, opts)
    ensures AllRespect(v0, Consider(st, node, snap, analysis, opts).steps, analysis, opts)
  {
    if !IsEmpty(st.work, node.name) && TryDrain(st.work, node.name, st.drained, analysis, opts).Some? {
      StepRespects(v0, st, node.name, analysis, opts);
    }
  }

  lemma {:induction false} StepRespects(v0: Packing, st: Progress, n: string, analysis: Analysis, opts: Options)
    requires PlanInvariant(v0, st) && AllRespect(v0, st.steps, analysis, opts)
    requires TryDrain(st.work, n, st.drained, analysis, opts).Some?
    ensures AllRespect(v0, st.steps + [PlanStep(|st.steps| + 1, n,
                                                TryDrain(st.work, n, st.drained, analysis, opts).value.moves)],
                       analysis, opts)
  {
    var moves := TryDrain(st.work, n, st.drained, analysis, opts).value.moves;
    TrialRespects(st.work, n, st.drained, analysis, opts, |st.steps| + 1);
    RespectExtends(v0, st.steps, PlanStep(|st.steps| + 1, n, moves), analysis, opts);
  }

  lemma {:induction false} RunRespects(v0: Packing, st: Progress, candidates: seq<Node>, snap: Snapshot,
                                       analysis: Analysis, opts: Options)
    requires PlanInvariant(v0, st) && AllRespect(v0, st.steps, analysis, opts)
    ensures AllRespect(v0, RunPlan(st, candidates, snap, analysis, opts).steps, analysis, opts)
    decreases |candidates|
  {
    if candidates != [] && !LimitReached(opts, |st.steps|) {
      var next := Consider(st, candidates[0], snap, analysis, opts);
      ConsiderKeeps(v0, st, candidates[0], snap, analysis, opts);
      ConsiderRespects(v0, st, candidates[0], snap, analysis, opts);
      RunRespects(v0, next, candidates[1..], snap, analysis, opts);
    }
  }

  /** No step of any plan empties a node that holds a movable pod off limits when the step is made. */
  lemma {:induction false} PlanRespects(snap: Snapshot, analysis: Analysis, opts: Options)
    requires Admissible(snap)
    ensures AllRespect(Packed(snap, opts.packCeiling), PlanFor(snap, analysis, opts).steps, analysis, opts)
  {
    var v0 := Packed(snap, opts.packCeiling);
    PackedSound(snap, opts.packCeiling);
    assert PlanInvariant(v0, Start(snap, opts));
    RunRespects(v0, Start(snap, opts), Candidates(snap, opts), snap, analysis, opts);
  }

  /** No move of any plan is of a pod in an excluded namespace, or of one the analyzer says cannot be evicted. */
  lemma {:induction false} MovesRespect(snap: Snapshot, analysis: Analysis, opts: Options, i: nat, m: Move)
    requires Admissible(snap) && i < |PlanFor(snap, analysis, opts).steps|
    requires m in PlanFor(snap, analysis, opts).steps[i].moves
    ensures m.namespace !in opts.excludeNamespaces
    ensures m.namespace + "/" + m.pod in analysis ==> analysis[m.namespace + "/" + m.pod]
  {
    var steps := PlanFor(snap, analysis, opts).steps;
    PlanRespects(snap, analysis, opts);
    var v := Replay(Packed(snap, opts.packCeiling), AllMoves(steps[..i]));
    assert Respects(v, steps[i], analysis, opts);
    var q :| IsMoved(v, steps[i], m, q);
  }

  // ------------------------------------------------------------------ whom a plan drains

  /** A node that may be drained: ready, old enough, and marked by neither an excluded label nor the annotation. */
  predicate MayBeDrained(opts: Options, n: Node, now: int) {
    && n.ready
    && !("karpenter.sh/do-not-disrupt" in n.annotations && n.annotations["karpenter.sh/do-not-disrupt"] == "true")
    && (forall i | 0 <= i < |opts.excludeNodeLabels| :: opts.excludeNodeLabels[i] !in n.labels)
    && (opts.minNodeAge > 0 && n.createdAt.Some? ==> now >= n.createdAt.value + opts.minNodeAge)
  }

  lemma {:induction false} CandidateExactly(opts: Options, n: Node, now: int)
    ensures IsCandidate(opts, n, now) <==> MayBeDrained(opts, n, now)
  {
  }

  lemma {:induction false} CandidatesListed(nodes: seq<Node>, opts: Options, now: int, n: Node)
    ensures n in DrainCandidates(nodes, opts, now) <==> n in nodes && MayBeDrained(opts, n, now)
  {
    if nodes != [] {
      CandidatesListed(nodes[..|nodes| - 1], opts, now, n);
      CandidateExactly(opts, nodes[|nodes| - 1], now);
      assert nodes == nodes[..|nodes| - 1] + [nodes[|nodes| - 1]];
    }
  }

  /** The candidates are the snapshot's nodes that may be drained, all of them and no other. */
  lemma {:induction false} CandidatesExactly(snap: Snapshot, opts: Options, n: Node)
    ensures n in Candidates(snap, opts) <==> n in snap.nodes && MayBeDrained(opts, n, Now(snap, opts))
  {
    CandidatesListed(snap.nodes, opts, Now(snap, opts), n);
    SortPermutes(DrainCandidates(snap.nodes, opts, Now(snap, opts)), DrainOrder(Packed(snap, opts.packCeiling)));
  }

  /** Emptier nodes come before fuller ones, and equally full ones by name. */
  lemma {:induction false} CandidatesInOrder(snap: Snapshot, opts: Options, i: nat, j: nat)
    requires UniqueNodes(snap.nodes) && i < j < |Candidates(snap, opts)|
    ensures var v, a, b := Packed(snap, opts.packCeiling), Candidates(snap, opts)[i], Candidates(snap, opts)[j];
      && RequestedRatio(v, a) <= RequestedRatio(v, b)
      && (RequestedRatio(v, a) == RequestedRatio(v, b) ==> a == b || StringLess(a.name, b.name))
  {
    var v, found := Packed(snap, opts.packCeiling), DrainCandidates(snap.nodes, opts, Now(snap, opts));
    var d := set c | c in found;
    NodesDiffer(snap, opts);
    DrainOrderTotal(v, d);
    SortSorts(found, DrainOrder(v), d);
    SortPermutes(found, DrainOrder(v));
    var a, b := Candidates(snap, opts)[i], Candidates(snap, opts)[j];
    assert a in found && b in found && !DrainOrder(v)(b, a);
    StringLessTotal(a.name, b.name);
  }

  lemma {:induction false} CandidateTwice(snap: Snapshot, opts: Options, i: nat, j: nat)
    requires UniqueNodes(snap.nodes) && i < j < |Candidates(snap, opts)|
    ensures Candidates(snap, opts)[i].name != Candidates(snap, opts)[j].name
  {
    var found := DrainCandidates(snap.nodes, opts, Now(snap, opts));
    var order := DrainOrder(Packed(snap, opts.packCeiling));
    FoundOnce(snap.nodes, opts, Now(snap, opts));
    SortPermutes(found, order);
    DistinctPermutation(found, StableSort(found, order));
    NodesDiffer(snap, opts);
    assert Candidates(snap, opts)[i] in found && Candidates(snap, opts)[j] in found;
  }

  lemma {:induction false} FoundOnce(nodes: seq<Node>, opts: Options, now: int)
    requires UniqueNodes(nodes)
    ensures Distinct(DrainCandidates(nodes, opts, now))
  {
    if nodes != [] {
      var front, last := nodes[..|nodes| - 1], nodes[|nodes| - 1];
      FoundOnce(front, opts, now);
      CandidateMembers(front, opts, now);
      assert forall n | n in front :: n.name != last.name;
    }
  }

  lemma {:induction false} NodesDiffer(snap: Snapshot, opts: Options)
    requires UniqueNodes(snap.nodes)
    ensures forall x, y | x in DrainCandidates(snap.nodes, opts, Now(snap, opts))
                          && y in DrainCandidates(snap.nodes, opts, Now(snap, opts)) && x != y :: x.name != y.name
  {
    CandidateMembers(snap.nodes, opts, Now(snap, opts));
    forall x, y | x in snap.nodes && y in snap.nodes && x != y ensures x.name != y.name {
      var i :| 0 <= i < |snap.nodes| && snap.nodes[i] == x;
      var j :| 0 <= j < |snap.nodes| && snap.nodes[j] == y;
      assert i < j || j < i;
    }
  }

  /** Larger pods are placed before smaller ones: by CPU, then memory, then key. */
  lemma {:induction false} PodsInOrder(v: Packing, n: string, i: nat, j: nat)
    requires Valid(v) && UniqueKeys(v) && i < j < |SortPodsBySizeDesc(MovablePods(Occupants(v, n)))|
    ensures var a, b := SortPodsBySizeDesc(MovablePods(Occupants(v, n)))[i],
                        SortPodsBySizeDesc(MovablePods(Occupants(v, n)))[j];
      && a.requests.milliCPU >= b.requests.milliCPU
      && (a.requests.milliCPU == b.requests.milliCPU ==> a.requests.memoryBytes >= b.requests.memoryBytes)
      && (a.requests.milliCPU == b.requests.milliCPU && a.requests.memoryBytes == b.requests.memoryBytes ==>
            a == b || StringLess(a.Key(), b.Key()))
  {
    var pods := MovablePods(Occupants(v, n));
    var d := set p | p in pods;
    MovableMembers(Occupants(v, n));
    forall p: Pod, q: Pod | p in d && q in d && p != q ensures p.Key() != q.Key() {
      assert p in v.bins[n].occupants && q in v.bins[n].occupants;
      DistinctKeys(v, p, q);
    }
    PlacementOrderTotal(d);
    SortSorts(pods, PlacedBefore, d);
    SortPermutes(pods, PlacedBefore);
    var a, b := SortPodsBySizeDesc(pods)[i], SortPodsBySizeDesc(pods)[j];
    assert a in pods && b in pods && !PlacedBefore(b, a);
    StringLessTotal(a.Key(), b.Key());
  }

  predicate ShareAtMost(part: int, whole: int, ratio: real) { 0 < whole ==> part as real <= ratio * whole as real }

  predicate ShareIs(part: int, whole: int, ratio: real) { 0 < whole && part as real == ratio * whole as real }

  lemma {:induction false} RatioIsShare(part: int, whole: int)
    ensures 0 < whole ==> Ratio(part, whole) * whole as real == part as real
  {
  }

  /** The dominant ratio of what is not negative is the largest share of any dimension that has capacity; zero
      without. */
  lemma {:induction false} DominantIsLargest(r: Resources, capacity: Resources)
    requires r.NonNegative()
    ensures var d := r.DominantRatio(capacity);
      && 0.0 <= d && ShareAtMost(r.milliCPU, capacity.milliCPU, d)
      && ShareAtMost(r.memoryBytes, capacity.memoryBytes, d) && ShareAtMost(r.pods, capacity.pods, d)
      && (d == 0.0 || ShareIs(r.milliCPU, capacity.milliCPU, d) || ShareIs(r.memoryBytes, capacity.memoryBytes, d)
          || ShareIs(r.pods, capacity.pods, d))
  {
    var d := r.DominantRatio(capacity);
    DominantShare(r.milliCPU, capacity.milliCPU, d);
    DominantShare(r.memoryBytes, capacity.memoryBytes, d);
    DominantShare(r.pods, capacity.pods, d);
  }

  lemma {:induction false} DominantShare(part: int, whole: int, d: real)
    requires 0 <= part && Ratio(part, whole) <= d
    ensures 0.0 <= d && ShareAtMost(part, whole, d) && (Ratio(part, whole) == d ==> d == 0.0 || ShareIs(part, whole, d))
  {
    RatioIsShare(part, whole);
    if 0 < whole { assert Ratio(part, whole) * whole as real <= d * whole as real; }
  }

  // ---------------------------------------------------------------- how far a plan goes

  /** What the loop has decided after the first k candidates. */
  ghost function After(snap: Snapshot, analysis: Analysis, opts: Options, k: nat): Progress
    requires k <= |Candidates(snap, opts)|
  {
    RunPlan(Start(snap, opts), Candidates(snap, opts)[..k], snap, analysis, opts)
  }

  lemma {:induction false} RunSplits(st: Progress, a: seq<Node>, b: seq<Node>, snap: Snapshot, analysis: Analysis,
                                     opts: Options)
    ensures RunPlan(st, a + b, snap, analysis, opts)
         == RunPlan(RunPlan(st, a, snap, analysis, opts), b, snap, analysis, opts)
    decreases |a|
  {
    if a == [] {
      assert a + b == b;
    } else if !LimitReached(opts, |st.steps|) {
      assert (a + b)[0] == a[0] && (a + b)[1..] == a[1..] + b;
      RunSplits(Consider(st, a[0], snap, analysis, opts), a[1..], b, snap, analysis, opts);
    }
  }

  lemma {:induction false} StepsGrow(st: Progress, candidates: seq<Node>, snap: Snapshot, analysis: Analysis,
                                     opts: Options)
    ensures st.steps <= RunPlan(st, candidates, snap, analysis, opts).steps
    decreases |candidates|
  {
    if candidates != [] && !LimitReached(opts, |st.steps|) {
      StepsGrow(Consider(st, candidates[0], snap, analysis, opts), candidates[1..], snap, analysis, opts);
    }
  }

  /** A limit on steps, when there is one, is kept. */
  lemma {:induction false} RunWithinLimit(st: Progress, candidates: seq<Node>, snap: Snapshot, analysis: Analysis,
                                          opts: Options)
    requires opts.maxSteps > 0 ==> |st.steps| <= opts.maxSteps
    ensures opts.maxSteps > 0 ==> |RunPlan(st, candidates, snap, analysis, opts).steps| <= opts.maxSteps
    decreases |candidates|
  {
    if candidates != [] && !LimitReached(opts, |st.steps|) {
      RunWithinLimit(Consider(st, candidates[0], snap, analysis, opts), candidates[1..], snap, analysis, opts);
    }
  }

  lemma {:induction false} TargetsFrom(st: Progress, candidates: seq<Node>, snap: Snapshot, analysis: Analysis,
                                       opts: Options, s: PlanStep)
    requires s in RunPlan(st, candidates, snap, analysis, opts).steps
    ensures s in st.steps || exists c | c in candidates :: c.name == s.targetNode
    decreases |candidates|
  {
    if candidates != [] && !LimitReached(opts, |st.steps|) {
      var next := Consider(st, candidates[0], snap, analysis, opts);
      TargetsFrom(next, candidates[1..], snap, analysis, opts, s);
      assert candidates[0] in candidates && forall c | c in candidates[1..] :: c in candidates;
    }
  }

  /** Every plan keeps to its limit, and drains only nodes that may be drained. */
  lemma {:induction false} PlanKeepsToCandidates(snap: Snapshot, analysis: Analysis, opts: Options, s: PlanStep)
    requires s in PlanFor(snap, analysis, opts).steps
    ensures opts.maxSteps > 0 ==> |PlanFor(snap, analysis, opts).steps| <= opts.maxSteps
    ensures exists n | n in snap.nodes :: n.name == s.targetNode && MayBeDrained(opts, n, Now(snap, opts))
  {
    RunWithinLimit(Start(snap, opts), Candidates(snap, opts), snap, analysis, opts);
    TargetsFrom(Start(snap, opts), Candidates(snap, opts), snap, analysis, opts, s);
    var c :| c in Candidates(snap, opts) && c.name == s.targetNode;
    CandidatesExactly(snap, opts, c);
  }

  // -------------------------------------------------------------- what a plan does not miss

  lemma {:induction false} OneDestination(v: Packing, p: Pod, source: string, drained: set<string>, t: string)
    requires t in v.order && t != source && t !in drained && CanPlace(v, p, t) && "" !in v.order
    ensures FirstFit(v, p, source, drained) != ""
  {
    var options := FitOptions(v, p, source, drained, v.order);
    OptionMembers(v, p, source, drained, v.order);
    SortPermutes(options, PreferredTo);
    assert Candidate(t, Fullness(v, t)) in options;
    var sorted := StableSort(options, PreferredTo);
    assert sorted[0] in options;
  }

  /** The only movable pod on the node, which may be moved, and is admitted on another node that is not drained. */
  ghost predicate LonePod(v: Packing, drained: set<string>, p: Pod, t: string, analysis: Analysis, opts: Options) {
    && Sits(v, p) && p.IsMovable()
    && (forall q | Sits(v, q) && q.nodeName == p.nodeName && q.IsMovable() :: q == p)
    && !OffLimits(p.namespace, p.name, analysis, opts)
    && t != p.nodeName && t !in drained && CanPlace(v, p, t)
  }

  lemma {:induction false} LoneList(v: Packing, p: Pod)
    requires Valid(v) && UniqueKeys(v) && Sits(v, p) && p.IsMovable()
    requires forall q | Sits(v, q) && q.nodeName == p.nodeName && q.IsMovable() :: q == p
    ensures SortPodsBySizeDesc(MovablePods(Occupants(v, p.nodeName))) == [p]
  {
    var pods := SortPodsBySizeDesc(MovablePods(Occupants(v, p.nodeName)));
    DrainPods(v, p.nodeName);
    OnlyMember(pods, p);
  }

  lemma {:induction false} OnlyMember(pods: seq<Pod>, p: Pod)
    requires Distinct(pods) && p in pods && forall q | q in pods :: q == p
    ensures pods == [p]
  {
    assert pods[0] in pods && pods[|pods| - 1] in pods;
    assert pods[0] == p && pods[|pods| - 1] == p;
  }

  lemma {:induction false} LonePodDrains(v: Packing, drained: set<string>, p: Pod, t: string, analysis: Analysis,
                                         opts: Options)
    requires Valid(v) && UniqueKeys(v) && "" !in v.order && LonePod(v, drained, p, t, analysis, opts)
    ensures !IsEmpty(v, p.nodeName) && TryDrain(v, p.nodeName, drained, analysis, opts).Some?
  {
    var source := p.nodeName;
    LoneList(v, p);
    OneDestination(v, p, source, drained, t);
    LoneTrial(v, p, source, drained);
    var pods := MovablePods(Occupants(v, source));
    MovableMembers(Occupants(v, source));
    SortPermutes(pods, PlacedBefore);
    OffLimitsHoldsBack(p, analysis, opts);
    forall q | q in pods ensures q == p { assert q in [p]; }
    assert p in Occupants(v, source);
  }

  lemma {:induction false} LoneTrial(v: Packing, p: Pod, source: string, drained: set<string>)
    requires FirstFit(v, p, source, drained) != ""
    ensures Relocate(v, [p], source, drained, []).Some?
  {
    var u := FirstFit(v, p, source, drained);
    assert [p][1..] == [];
    assert Relocate(Relocated(v, p, u), [p][1..], source, drained, [] + [MoveOf(p, source, u)]).Some?;
  }

  /** A candidate reached within the limit, whose only movable pod is not off limits and is admitted on another node
      not yet drained, is drained by the plan. */
  lemma {:induction false} LonePodIsDrained(snap: Snapshot, analysis: Analysis, opts: Options, k: nat, p: Pod,
                                            t: string)
    requires Admissible(snap) && k < |Candidates(snap, opts)| && forall n | n in snap.nodes :: n.name != ""
    requires var st := After(snap, analysis, opts, k);
      && (opts.maxSteps > 0 ==> |st.steps| < opts.maxSteps)
      && p.nodeName == Candidates(snap, opts)[k].name && LonePod(st.work, st.drained, p, t, analysis, opts)
    ensures exists s | s in PlanFor(snap, analysis, opts).steps :: s.targetNode == p.nodeName
  {
    var cs, st := Candidates(snap, opts), After(snap, analysis, opts, k);
    AfterInvariant(snap, analysis, opts, k);
    LonePodDrains(st.work, st.drained, p, t, analysis, opts);
    DrainedNext(snap, analysis, opts, st, cs[k..]);
    AfterResumes(snap, analysis, opts, k);
  }

  lemma {:induction false} AfterResumes(snap: Snapshot, analysis: Analysis, opts: Options, k: nat)
    requires k <= |Candidates(snap, opts)|
    ensures PlanFor(snap, analysis, opts).steps
         == RunPlan(After(snap, analysis, opts, k), Candidates(snap, opts)[k..], snap, analysis, opts).steps
  {
    var cs := Candidates(snap, opts);
    RunSplits(Start(snap, opts), cs[..k], cs[k..], snap, analysis, opts);
    assert cs[..k] + cs[k..] == cs;
  }

  lemma {:induction false} AfterInvariant(snap: Snapshot, analysis: Analysis, opts: Options, k: nat)
    requires Admissible(snap) && k <= |Candidates(snap, opts)| && forall n | n in snap.nodes :: n.name != ""
    ensures var st := After(snap, analysis, opts, k);
      Valid(st.work) && UniqueKeys(st.work) && "" !in st.work.order
  {
    var v0 := Packed(snap, opts.packCeiling);
    PackedSound(snap, opts.packCeiling);
    assert PlanInvariant(v0, Start(snap, opts));
    RunPlanKeeps(v0, Start(snap, opts), Candidates(snap, opts)[..k], snap, analysis, opts);
    var st := After(snap, analysis, opts, k);
    LegalRunSound(v0, opts.packCeiling, AllMoves(st.steps));
    LoadNodes(Bare(snap, opts.packCeiling), snap.pods);
    forall i | 0 <= i < |NodeNames(snap.nodes)| ensures NodeNames(snap.nodes)[i] != "" {
      assert snap.nodes[i] in snap.nodes;
    }
  }

  lemma {:induction false} DrainedNext(snap: Snapshot, analysis: Analysis, opts: Options, st: Progress,
                                       candidates: seq<Node>)
    requires candidates != [] && (opts.maxSteps > 0 ==> |st.steps| < opts.maxSteps)
    requires !IsEmpty(st.work, candidates[0].name)
    requires TryDrain(st.work, candidates[0].name, st.drained, analysis, opts).Some?
    ensures exists s | s in RunPlan(st, candidates, snap, analysis, opts).steps :: s.targetNode == candidates[0].name
  {
    var next := Consider(st, candidates[0], snap, analysis, opts);
    StepsGrow(next, candidates[1..], snap, analysis, opts);
    var k := |st.steps|;
    assert next.steps[k].targetNode == candidates[0].name;
    assert RunPlan(st, candidates, snap, analysis, opts).steps[k] == next.steps[k];
  }
}
