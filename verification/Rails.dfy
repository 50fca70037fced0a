/**
  The last gate before one eviction (internal/safety/safety.go, CheckEviction), and the guard's verdicts.
 */
module Rails {
  import opened Model
  import opened Matching

  datatype Rule =
    | RedRequiresWindow | MaxNodesPerRun | MinReadyNodes | StepFreshness | PDBHeadroom | NodeNotFound

  datatype Verdict = Allowed | Blocked(rule: Rule)

  /** The last gate before one eviction: no budget naming the pod is out of headroom. */
  ghost predicate MayEvict(pod: Pod, live: Snapshot) {
    forall b | b in live.budgets :: !(b.Covers(pod) && b.Blocks())
  }

  /** Every budget of the pod's namespace whose selector says something and picks the pod has a disruption to spare. */
  ghost predicate HasHeadroom(pod: Pod, live: Snapshot) {
    forall b | b in live.budgets && b.namespace == pod.namespace ::
      match b.selector
      case None => true
      case Some(s) => (|s.matchLabels| > 0 || |s.matchExpressions| > 0) && Picks(b.selector, pod.labels) ==>
                        0 < b.disruptionsAllowed
  }

  lemma {:induction false} MayEvictExactly(pod: Pod, live: Snapshot)
    ensures MayEvict(pod, live) <==> HasHeadroom(pod, live)
  {
    forall b | b in live.budgets ensures SelectorMatches(b.selector, pod.labels) <==> Picks(b.selector, pod.labels) {
      SelectorPicks(b.selector, pod.labels);
    }
  }

  method CheckEviction(pod: Pod, live: Snapshot) returns (verdict: Verdict)
    ensures verdict == if MayEvict(pod, live) then Allowed else Blocked(PDBHeadroom)
    ensures verdict.Allowed? <==> HasHeadroom(pod, live)
  {
    MayEvictExactly(pod, live);
    for i := 0 to |live.budgets|
      invariant forall b | b in live.budgets[..i] :: !(b.Covers(pod) && b.Blocks())
    {
      var pdb := live.budgets[i];
      if pdb.namespace != pod.namespace { continue; }
      if IsEmptySelector(pdb.selector) || !SelectorMatches(pdb.selector, pod.labels) { continue; }
      if pdb.Blocks() {
        assert pdb in live.budgets && pdb.Covers(pod);
        return Blocked(PDBHeadroom);
      }
    }
    assert live.budgets[..|live.budgets|] == live.budgets;
    return Allowed;
  }
}
