/**
  The greedy first-fit-decreasing planner as it runs (internal/planner/greedy.go): it mutates a
  working placement, explores each node on a throwaway clone and replays accepted moves.
 */
module Greedy {
  import opened Model
  import opened Sums
  import opened Sorting
  import opened Packings
  import opened Planning
  import opened Placements

  ghost predicate AdmittedPods(pods: seq<Pod>) { forall p | p in pods :: AdmittedPod(p) }

  /** Every pod of the assignment passed API validation. */
  ghost predicate AdmittedPacking(v: Packing) {
    forall n | n in v.bins :: AdmittedPods(v.bins[n].occupants)
  }

  lemma {:induction false} PlaceAdmitted(v: Packing, p: Pod, n: string)
    requires AdmittedPacking(v) && AdmittedPod(p)
    ensures AdmittedPacking(Place(v, p, n))
  {
  }

  lemma {:induction false} RemoveAdmitted(v: Packing, p: Pod)
    requires AdmittedPacking(v)
    ensures AdmittedPacking(Remove(v, p))
  {
  }

  lemma {:induction false} PackedAdmitted(snap: Snapshot, ceiling: real, i: nat)
    requires UniqueNodes(snap.nodes) && AdmittedPods(snap.pods) && i <= |snap.pods|
    ensures AdmittedPacking(Load(Bare(snap, ceiling), snap.pods[..i]))
  {
    if i == 0 {
      BareBinsAt(snap.nodes, ceiling);
    } else {
      PackedAdmitted(snap, ceiling, i - 1);
      assert snap.pods[..i][..i - 1] == snap.pods[..i - 1];
      var pod := snap.pods[i - 1];
      if pod.nodeName != "" { PlaceAdmitted(Load(Bare(snap, ceiling), snap.pods[..i - 1]), pod, pod.nodeName); }
    }
  }

  lemma {:induction false} PackedAdmits(snap: Snapshot, ceiling: real)
    requires UniqueNodes(snap.nodes) && AdmittedPods(snap.pods)
    ensures AdmittedPacking(Packed(snap, ceiling))
  {
    assert snap.pods[..|snap.pods|] == snap.pods;
    PackedAdmitted(snap, ceiling, |snap.pods|);
  }

  method FreeBasisOf(trial: Placement, name: string) returns (basis: Resources)
    ensures basis == FreeBasis(trial.View(), name)
  {
    var free := trial.Free(name);
    var occupants := trial.Occupants(name);
    var used := ZERO;
    for i := 0 to |occupants|
      invariant used == Used(occupants[..i])
    {
      assert occupants[..i + 1][..i] == occupants[..i];
      used := used.Add(occupants[i].requests).Add(ONE_POD);
    }
    assert occupants[..|occupants|] == occupants;
    basis := free.Add(used);
  }

  /** One node as a destination: skipped, refused, or an option with how full it is. */
  method OptionFor(trial: Placement, pod: Pod, source: string, drained: set<string>, name: string)
      returns (option: Option<Candidate>)
    requires trial.Valid() && AdmittedPod(pod)
    modifies trial.spread
    ensures trial.Valid() && trial.View() == old(trial.View()) && fresh(trial.Repr() - old(trial.Repr()))
    ensures option == if MayReceive(trial.View(), pod, source, drained, name)
                      then Some(Candidate(name, Fullness(trial.View(), name)))
                      else None
  {
    if name == source || name in drained { return None; }
    var ok := trial.CanPlace(pod, name);
    if !ok { return None; }
    var free := trial.Free(name);
    var basis := FreeBasisOf(trial, name);
    return Some(Candidate(name, 1.0 - free.DominantRatio(basis)));
  }

  /** Picks a destination, preferring the fullest node that can still take the pod. */
  method PickFirstFit(trial: Placement, pod: Pod, source: string, drained: set<string>) returns (target: string)
    requires trial.Valid() && AdmittedPod(pod)
    modifies trial.spread
    ensures trial.Valid() && trial.View() == old(trial.View()) && fresh(trial.Repr() - old(trial.Repr()))
    ensures target == FirstFit(trial.View(), pod, source, drained)
  {
    var options: seq<Candidate> := [];
    for i := 0 to |trial.nodeOrder|
      invariant trial.Valid() && trial.View() == old(trial.View()) && fresh(trial.Repr() - old(trial.Repr()))
      invariant options == FitOptions(trial.View(), pod, source, drained, trial.nodeOrder[..i])
    {
      assert trial.nodeOrder[..i + 1][..i] == trial.nodeOrder[..i];
      var option := OptionFor(trial, pod, source, drained, trial.nodeOrder[i]);
      if option.Some? { options := options + [option.value]; }
    }
    assert trial.nodeOrder[..|trial.nodeOrder|] == trial.nodeOrder;
    options := StableSort(options, PreferredTo);
    if options == [] { return ""; }
    return options[0].name;
  }

  /** The pods to relocate, or nothing when one of them may not be evicted. */
  method PodsToMove(work: Placement, node: string, analysis: Analysis, opts: Options) returns (pods: seq<Pod>, ok: bool)
    ensures ok <==> !exists p | p in MovablePods(Occupants(work.View(), node)) :: HoldsBack(p, analysis, opts)
    ensures ok ==> pods == MovablePods(Occupants(work.View(), node))
  {
    pods := [];
    var occupants := work.Occupants(node);
    for i := 0 to |occupants|
      invariant pods == MovablePods(occupants[..i])
      invariant forall p | p in pods :: !HoldsBack(p, analysis, opts)
    {
      assert occupants[..i + 1][..i] == occupants[..i];
      var p := occupants[i];
      if !p.IsMovable() { continue; }
      if p.namespace in opts.excludeNamespaces || (p.Key() in analysis && !analysis[p.Key()]) {
        assert p in MovablePods(occupants[..i + 1]);
        MovablePrefix(occupants, i + 1);
        assert p in MovablePods(occupants) && HoldsBack(p, analysis, opts);
        return [], false;
      }
      pods := pods + [p];
    }
    assert occupants[..|occupants|] == occupants;
    ok := true;
  }

  lemma {:induction false} MovablePrefix(occ: seq<Pod>, i: nat)
    requires i <= |occ|
    ensures forall p | p in MovablePods(occ[..i]) :: p in MovablePods(occ)
  {
    if i == |occ| {
      assert occ[..i] == occ;
    } else {
      MovablePrefix(occ[..|occ| - 1], i);
      assert occ[..|occ| - 1][..i] == occ[..i];
    }
  }

  /** Relocates every movable pod off the node on a throwaway copy; the working placement is untouched. */
  method TryDrainNode(work: Placement, node: string, drained: set<string>, analysis: Analysis, opts: Options)
    returns (moves: seq<Move>, ok: bool)
    requires work.Valid() && AdmittedPacking(work.View())
    ensures ok == TryDrain(work.View(), node, drained, analysis, opts).Some?
    ensures ok ==> moves == TryDrain(work.View(), node, drained, analysis, opts).value.moves
  {
    moves := [];
    var pods;
    pods, ok := PodsToMove(work, node, analysis, opts);
    if !ok { return; }
    if |pods| == 0 { return [], false; }
    ghost var movable := pods;
    MovableMembers(Occupants(work.View(), node));
    pods := SortPodsBySizeDesc(pods);
    SortPermutes(movable, PlacedBefore);

    assert forall p | p in pods :: AdmittedPod(p);
    moves, ok := RelocateAll(work, pods, node, drained);
  }

  method RelocateAll(work: Placement, pods: seq<Pod>, node: string, drained: set<string>)
    returns (moves: seq<Move>, ok: bool)
    requires work.Valid() && AdmittedPods(pods)
    ensures ok == Relocate(work.View(), pods, node, drained, []).Some?
    ensures ok ==> moves == Relocate(work.View(), pods, node, drained, []).value.moves
  {
    var trial := work.Clone();
    moves, ok := RelocateOn(trial, pods, node, drained);
  }

  /** The trial loop, on the throwaway copy. */
  method RelocateOn(trial: Placement, pods: seq<Pod>, node: string, drained: set<string>)
    returns (moves: seq<Move>, ok: bool)
    requires trial.Valid() && AdmittedPods(pods)
    modifies trial.Repr()
    ensures ok == Relocate(old(trial.View()), pods, node, drained, []).Some?
    ensures ok ==> moves == Relocate(old(trial.View()), pods, node, drained, []).value.moves
  {
    moves := [];
    ghost var goal := Relocate(trial.View(), pods, node, drained, []);
    for i := 0 to |pods|
      invariant trial.Valid() && fresh(trial.Repr() - old(trial.Repr()))
      invariant goal == Relocate(trial.View(), pods[i..], node, drained, moves)
    {
      assert pods[i] in pods && pods[i..][1..] == pods[i + 1..];
      var target := RelocateOne(trial, pods[i], node, drained);
      if target == "" { return [], false; }
      moves := moves + [MoveOf(pods[i], node, target)];
    }
    ok := true;
  }

  method RelocateOne(trial: Placement, p: Pod, node: string, drained: set<string>) returns (target: string)
    requires trial.Valid() && AdmittedPod(p)
    modifies trial.Repr()
    ensures trial.Valid() && fresh(trial.Repr() - old(trial.Repr()))
    ensures target == FirstFit(old(trial.View()), p, node, drained)
    ensures target != "" ==> trial.View() == Relocated(old(trial.View()), p, target)
  {
    target := PickFirstFit(trial, p, node, drained);
    if target == "" { return; }
    trial.Remove(p);
    trial.Place(p, target);
  }

  method FindPodOn(p: Placement, nodeName: string, namespace: string, name: string) returns (found: Option<Pod>)
    ensures found == FindPod(p.View(), nodeName, namespace, name)
  {
    var occupants := p.Occupants(nodeName);
    for i := 0 to |occupants|
      invariant forall j | 0 <= j < i :: !(occupants[j].namespace == namespace && occupants[j].name == name)
    {
      if occupants[i].namespace == namespace && occupants[i].name == name {
        return Some(occupants[i]);
      }
    }
    return None;
  }

  /** Replays an accepted step on the working placement. */
  method Commit(work: Placement, moves: seq<Move>)
    requires work.Valid() && AdmittedPacking(work.View())
    modifies work.Repr()
    ensures work.Valid() && AdmittedPacking(work.View()) && work.spread.entries == old(work.spread.entries)
    ensures work.View() == Replay(old(work.View()), moves)
  {
    for i := 0 to |moves|
      invariant work.Valid() && AdmittedPacking(work.View()) && work.spread.entries == old(work.spread.entries)
      invariant work.View() == Replay(old(work.View()), moves[..i])
    {
      FoldStep(ApplyMove, old(work.View()), moves, i);
      var m := moves[i];
      var pod := FindPodOn(work, m.fromNode, m.namespace, m.pod);
      if pod.None? { continue; }
      RemoveAdmitted(work.View(), pod.value);
      work.Remove(pod.value);
      PlaceAdmitted(work.View(), pod.value, m.toNode);
      work.Place(pod.value, m.toNode);
    }
    assert moves[..|moves|] == moves;
  }

  method CollectCandidates(snap: Snapshot, opts: Options, now: int) returns (out: seq<Node>)
    ensures out == DrainCandidates(snap.nodes, opts, now)
  {
    out := [];
    for i := 0 to |snap.nodes|
      invariant out == DrainCandidates(snap.nodes[..i], opts, now)
    {
      assert snap.nodes[..i + 1][..i] == snap.nodes[..i];
      var n := snap.nodes[i];
      if !n.ready { continue; }
      if NodeExcluded(opts, n, now) { continue; }
      if n.DoNotDisrupt() { continue; }
      out := out + [n];
    }
    assert snap.nodes[..|snap.nodes|] == snap.nodes;
  }

  method SumRequests(snap: Snapshot, nodeName: string) returns (total: Resources)
    ensures total == RequestedOnNode(snap.pods, nodeName)
  {
    total := ZERO;
    for i := 0 to |snap.pods|
      invariant total == RequestedOnNode(snap.pods[..i], nodeName)
    {
      assert snap.pods[..i + 1][..i] == snap.pods[..i];
      var p := snap.pods[i];
      if p.nodeName != nodeName { continue; }
      if p.Finished() { continue; }
      total := total.Add(p.requests).Add(ONE_POD);
    }
    assert snap.pods[..|snap.pods|] == snap.pods;
  }

  method CountOccupied(snap: Snapshot) returns (n: int)
    ensures n == OccupiedInSnapshot(snap)
  {
    n := 0;
    for i := 0 to |snap.nodes|
      invariant n == Sum(snap.nodes[..i], Carrying(snap.pods))
    {
      assert snap.nodes[..i + 1][..i] == snap.nodes[..i];
      var requested := SumRequests(snap, snap.nodes[i].name);
      if !requested.IsZero() { n := n + 1; }
    }
    assert snap.nodes[..|snap.nodes|] == snap.nodes;
  }

  /** Greedy.Plan */
  method MakePlan(snap: Snapshot, analysis: Analysis, opts: Options) returns (plan: Plan)
    requires UniqueNodes(snap.nodes) && AdmittedPods(snap.pods)
    ensures plan == PlanFor(snap, analysis, opts)
  {
    var now := Now(snap, opts);
    var work := NewPlacementCeiling(snap, opts.packCeiling);
    PackedAdmits(snap, opts.packCeiling);
    var nodesBefore := CountOccupied(snap);

    var candidates := CollectCandidates(snap, opts, now);
    candidates := SortNodesForDraining(work.View(), candidates);

    ghost var start := ProgressOf(work.View(), Tally({}, [], 0));
    assert start == Start(snap, opts) && candidates == Candidates(snap, opts);
    var st := PlanLoop(work, candidates, Tally({}, [], 0), snap, analysis, opts);
    assert ProgressOf(work.View(), st) == Outcome(snap, analysis, opts);
    plan := Plan(st.steps, nodesBefore, nodesBefore - |st.steps| - st.reclaimable, st.reclaimable, opts.packCeiling);
  }

  /** The planning loop's own variables, beside the working placement. */
  datatype Tally = Tally(drained: set<string>, steps: seq<PlanStep>, reclaimable: int)

  ghost function ProgressOf(work: Packing, t: Tally): Progress { Progress(work, t.drained, t.steps, t.reclaimable) }

  method PlanLoop(work: Placement, candidates: seq<Node>, start: Tally, snap: Snapshot, analysis: Analysis,
                  opts: Options)
    returns (st: Tally)
    requires work.Valid() && AdmittedPacking(work.View())
    modifies work.Repr()
    ensures ProgressOf(work.View(), st)
         == RunPlan(ProgressOf(old(work.View()), start), candidates, snap, analysis, opts)
  {
    st := start;
    ghost var goal := RunPlan(ProgressOf(work.View(), start), candidates, snap, analysis, opts);
    var i := 0;
    while i < |candidates|
      invariant 0 <= i <= |candidates|
      invariant work.Valid() && AdmittedPacking(work.View()) && work.spread.entries == old(work.spread.entries)
      invariant goal == RunPlan(ProgressOf(work.View(), st), candidates[i..], snap, analysis, opts)
    {
      if opts.maxSteps > 0 && |st.steps| >= opts.maxSteps { break; }
      assert candidates[i..][1..] == candidates[i + 1..];
      st := ConsiderNode(work, candidates[i], st, snap, analysis, opts);
      i := i + 1;
    }
  }

  /** A node with movable pods: tried on a clone, and committed only if all of them fit. */
  method ConsiderBusy(work: Placement, node: Node, st: Tally, ghost snap: Snapshot, analysis: Analysis, opts: Options)
    returns (next: Tally)
    requires work.Valid() && AdmittedPacking(work.View()) && !IsEmpty(work.View(), node.name)
    modifies work.Repr()
    ensures work.Valid() && AdmittedPacking(work.View()) && work.spread.entries == old(work.spread.entries)
    ensures ProgressOf(work.View(), next) == Consider(ProgressOf(old(work.View()), st), node, snap, analysis, opts)
  {
    var moves, ok := TryDrainNode(work, node.name, st.drained, analysis, opts);
    if !ok { return st; }
    Commit(work, moves);
    return Tally(st.drained + {node.name}, st.steps + [PlanStep(|st.steps| + 1, node.name, moves)], st.reclaimable);
  }

  /** One iteration of the planning loop. */
  method ConsiderNode(work: Placement, node: Node, st: Tally, snap: Snapshot, analysis: Analysis, opts: Options)
    returns (next: Tally)
    requires work.Valid() && AdmittedPacking(work.View())
    modifies work.Repr()
    ensures work.Valid() && AdmittedPacking(work.View()) && work.spread.entries == old(work.spread.entries)
    ensures ProgressOf(work.View(), next) == Consider(ProgressOf(old(work.View()), st), node, snap, analysis, opts)
  {
    var empty := work.IsEmpty(node.name);
    if empty {
      var requested := SumRequests(snap, node.name);
      return Tally(st.drained + {node.name}, st.steps,
                   if requested.IsZero() then st.reclaimable else st.reclaimable + 1);
    }
    next := ConsiderBusy(work, node, st, snap, analysis, opts);
  }
}
