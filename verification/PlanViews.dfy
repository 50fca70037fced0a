/**
  The planner's plans in the browser's views: every plan chains over the snapshot it was made from, so both
  views agree on it, and each step's target ends up drawn as emptied.
 */
module PlanViews {
  import opened Model
  import opened Sums
  import opened Packings
  import opened Planning
  import opened Runs
  import opened PlanSafety
  import Layout

  /** The pods as the view draws them on the given nodes. */
  ghost function DrawnOn(place: map<string, string>, pods: seq<Pod>, names: set<string>): set<Pod> {
    set p | p in pods && Layout.HostOf(place, p) in names :: p.(nodeName := Layout.HostOf(place, p))
  }

  /** Where the assignment has a pod is where the view draws it. */
  ghost predicate Tracks(v: Packing, place: map<string, string>, pods: seq<Pod>) {
    forall q :: Sits(v, q) <==> q in DrawnOn(place, pods, v.bins.Keys)
  }

  lemma {:induction false} PackedTracks(snap: Snapshot, ceiling: real)
    requires Admissible(snap)
    ensures Tracks(Packed(snap, ceiling), Layout.HomesOf(Layout.Drawn(snap.pods)), Layout.Drawn(snap.pods))
    ensures InStep(Packed(snap, ceiling), [], Layout.Drawn(snap.pods))
  {
    var v, drawn := Packed(snap, ceiling), Layout.Drawn(snap.pods);
    var place := Layout.HomesOf(drawn);
    Layout.DrawnUnique(snap.pods);
    Layout.HomesAreHome(drawn);
    BareValid(snap, ceiling);
    BareFree(snap, ceiling);
    var names := v.bins.Keys;
    forall q ensures Sits(v, q) <==> q in DrawnOn(place, drawn, names) {
      LoadMembers(Bare(snap, ceiling), snap.pods, q);
      assert q.(nodeName := q.nodeName) == q;
      if Sits(v, q) {
        assert q in drawn && Layout.HostOf(place, q) == q.nodeName;
      }
      if q in DrawnOn(place, drawn, names) {
        var p :| p in drawn && Layout.HostOf(place, p) in names && q == p.(nodeName := Layout.HostOf(place, p));
        assert q == p;
      }
    }
  }

  /** A pod moved in the assignment and redrawn by the view. */
  lemma {:induction false} TracksMoved(v: Packing, w: Packing, place: map<string, string>, pods: seq<Pod>, q: Pod,
                                       p: Pod, m: Move)
    requires UniquePods(pods) && Tracks(v, place, pods)
    requires p in pods && q == p.(nodeName := Layout.HostOf(place, p)) && Layout.KeyOf(m) == p.Key()
    requires Moved(v, w, q, m.toNode) && m.toNode in v.bins
    ensures Tracks(w, Layout.Reposition(place, m), pods)
  {
    var place' := Layout.Reposition(place, m);
    var names := v.bins.Keys;
    Layout.UniqueIsDistinct(pods);
    assert forall x | x in pods && x != p :: Layout.HostOf(place', x) == Layout.HostOf(place, x);
    forall r ensures Sits(w, r) <==> r in DrawnOn(place', pods, names) {
      if r == q.(nodeName := m.toNode) {
        assert r == p.(nodeName := Layout.HostOf(place', p));
      } else {
        RestDrawnAlike(place, place', pods, p, m.toNode, names, r);
        assert q == p.(nodeName := q.nodeName) && r.Key() == q.Key() ==> r !in DrawnOn(place, pods, names) || r == q;
      }
    }
  }

  /** Redrawing one pod leaves every other drawing alone. */
  lemma {:induction false} RestDrawnAlike(place: map<string, string>, place': map<string, string>, pods: seq<Pod>,
                                          p: Pod, t: string, names: set<string>, r: Pod)
    requires p in pods && Layout.HostOf(place', p) == t && r != p.(nodeName := t)
    requires forall x | x in pods && x != p :: x.Key() != p.Key() && Layout.HostOf(place', x) == Layout.HostOf(place, x)
    ensures r in DrawnOn(place', pods, names)
       <==> r in DrawnOn(place, pods, names) && r != p.(nodeName := Layout.HostOf(place, p))
  {
  }

  /** The move takes a drawn pod from where the moves before it drew it. */
  ghost predicate TakesDrawn(m: Move, place: map<string, string>, pods: seq<Pod>) {
    exists p | p in pods :: Layout.Carries(m, p) && Layout.HostOf(place, p) == m.fromNode
  }

  /** One move: it carries a drawn pod from where it is drawn, and the drawing keeps up. */
  lemma {:induction false} MoveTracks(v: Packing, m: Move, q: Pod, place: map<string, string>, pods: seq<Pod>)
    requires Valid(v) && UniqueKeys(v) && Relocates(v, m, q) && UniquePods(pods) && Tracks(v, place, pods)
    ensures TakesDrawn(m, place, pods)
    ensures Tracks(ApplyMove(v, m), Layout.Reposition(place, m), pods)
  {
    assert q in DrawnOn(place, pods, v.bins.Keys);
    var p :| p in pods && q == p.(nodeName := Layout.HostOf(place, p));
    assert Layout.Carries(m, p);
    RelocatedMoves(v, q, m.toNode);
    TracksMoved(v, Relocated(v, q, m.toNode), place, pods, q, p, m);
  }

  /** The run and the view have kept in step through every one of the moves. */
  ghost predicate InStep(v0: Packing, moves: seq<Move>, pods: seq<Pod>) {
    && Tracks(Replay(v0, moves), Layout.PlacedAt(pods, moves), pods)
    && (moves != [] ==>
          var front := moves[..|moves| - 1];
          InStep(v0, front, pods) && TakesDrawn(moves[|moves| - 1], Layout.PlacedAt(pods, front), pods))
  }

  lemma {:induction false} InStepOneMore(v0: Packing, moves: seq<Move>, pods: seq<Pod>, q: Pod)
    requires UniquePods(pods) && moves != [] && InStep(v0, moves[..|moves| - 1], pods)
    requires var v := Replay(v0, moves[..|moves| - 1]); Valid(v) && UniqueKeys(v) && Relocates(v, moves[|moves| - 1], q)
    ensures InStep(v0, moves, pods)
  {
    var front := moves[..|moves| - 1];
    MoveTracks(Replay(v0, front), moves[|moves| - 1], q, Layout.PlacedAt(pods, front), pods);
  }

  lemma {:induction false} RunInStep(v0: Packing, ceiling: real, moves: seq<Move>, pods: seq<Pod>)
    requires Sound(v0, v0, ceiling, {}) && LegalRun(v0, moves)
    requires UniquePods(pods) && InStep(v0, [], pods)
    ensures InStep(v0, moves, pods)
  {
    if moves != [] {
      RunInStep(v0, ceiling, moves[..|moves| - 1], pods);
      var q := LastRelocates(v0, ceiling, moves);
      InStepOneMore(v0, moves, pods, q);
    }
  }

  lemma {:induction false} InStepChains(v0: Packing, moves: seq<Move>, pods: seq<Pod>)
    requires InStep(v0, moves, pods)
    ensures Layout.Chains(pods, moves)
  {
    if moves != [] {
      var front := moves[..|moves| - 1];
      InStepChains(v0, front, pods);
      forall i | 0 <= i < |moves| ensures TakesDrawn(moves[i], Layout.PlacedAt(pods, moves[..i]), pods) {
        if i < |front| { assert front[..i] == moves[..i] && front[i] == moves[i]; }
      }
    }
  }

  /** Steps numbered from one, taken up to k, are the first k steps. */
  lemma {:induction false} TakenInOrder(steps: seq<PlanStep>, k: nat, i: nat)
    requires k <= |steps| && i <= |steps| && forall j | 0 <= j < |steps| :: steps[j].sequenceNumber == j + 1
    ensures AllMoves(steps[..if i < k then i else k]) + Layout.Taken(steps[i..], k) == AllMoves(steps[..k])
    decreases |steps| - i
  {
    if i < |steps| {
      TakenInOrder(steps, k, i + 1);
      assert steps[i..][1..] == steps[i + 1..];
      if i < k { assert steps[..i + 1][..i] == steps[..i]; }
    }
  }

  lemma {:induction false} MovesPrefix(steps: seq<PlanStep>, k: nat)
    requires k <= |steps|
    ensures AllMoves(steps[..k]) <= AllMoves(steps)
    decreases |steps|
  {
    if k < |steps| {
      MovesPrefix(steps[..|steps| - 1], k);
      assert steps[..|steps| - 1][..k] == steps[..k];
    } else {
      assert steps[..k] == steps;
    }
  }

  lemma {:induction false} StepsInStep(v0: Packing, ceiling: real, steps: seq<PlanStep>, pods: seq<Pod>, k: nat)
    requires Sound(v0, v0, ceiling, {}) && LegalRun(v0, AllMoves(steps)) && OrderlySteps(steps) && k <= |steps|
    requires UniquePods(pods) && InStep(v0, [], pods)
    ensures Layout.Taken(steps, k) == AllMoves(steps[..k]) && InStep(v0, Layout.Taken(steps, k), pods)
  {
    TakenFirst(steps, k);
    TakenLegal(v0, steps, k);
    RunInStep(v0, ceiling, AllMoves(steps[..k]), pods);
  }

  lemma {:induction false} TakenFirst(steps: seq<PlanStep>, k: nat)
    requires OrderlySteps(steps) && k <= |steps|
    ensures Layout.Taken(steps, k) == AllMoves(steps[..k])
  {
    TakenInOrder(steps, k, 0);
    assert AllMoves(steps[..0]) == [] && steps[0..] == steps;
  }

  lemma {:induction false} TakenLegal(v0: Packing, steps: seq<PlanStep>, k: nat)
    requires LegalRun(v0, AllMoves(steps)) && k <= |steps|
    ensures LegalRun(v0, AllMoves(steps[..k]))
  {
    var moves, taken := AllMoves(steps), AllMoves(steps[..k]);
    MovesPrefix(steps, k);
    LegalPrefix(v0, moves, |taken|);
    assert moves[..|taken|] == taken;
  }

  /** After any step of any plan, the moves shown so far chain over the snapshot the plan was made from. */
  lemma {:induction false} PlanChains(snap: Snapshot, analysis: Analysis, opts: Options, k: nat)
    requires Admissible(snap) && k <= |PlanFor(snap, analysis, opts).steps|
    ensures Layout.Chains(Layout.Drawn(snap.pods), Layout.Taken(PlanFor(snap, analysis, opts).steps, k))
  {
    PlanIsLegal(snap, analysis, opts);
    PackedSound(snap, opts.packCeiling);
    PackedTracks(snap, opts.packCeiling);
    Layout.DrawnUnique(snap.pods);
    var v0, drawn := Packed(snap, opts.packCeiling), Layout.Drawn(snap.pods);
    var steps := PlanFor(snap, analysis, opts).steps;
    StepsInStep(v0, opts.packCeiling, steps, drawn, k);
    InStepChains(v0, Layout.Taken(steps, k), drawn);
  }

  /** Of any plan made from a served snapshot, after any step, the two views agree on each node's pod count, on whether
      it is emptied, and on its CPU and memory loads. */
  lemma {:induction false} ViewsAgreeOnPlans(snap: Snapshot, analysis: Analysis, opts: Options, k: nat,
                                             info: Layout.NodeInfo)
    requires Admissible(snap) && Layout.Served(snap.pods) && Layout.CountedBy(info, snap.pods)
    requires k <= |PlanFor(snap, analysis, opts).steps|
    ensures var drawn, moves := Layout.Drawn(snap.pods), Layout.Taken(PlanFor(snap, analysis, opts).steps, k);
      var place := Layout.PlacedAt(drawn, moves);
      && Layout.DensityCount(info, moves) == Layout.Standing(drawn, place, info.name, Layout.One())
      && (Layout.DensityCount(info, moves) <= info.pinnedCount
         <==> Layout.Standing(drawn, place, info.name, Layout.IfMovable()) == 0)
      && Layout.Clamped(Layout.DensityLoad(info, moves)) == Layout.Standing(drawn, place, info.name, Layout.PodCpu())
      && Layout.Clamped(Layout.DensityMem(info, moves)) == Layout.Standing(drawn, place, info.name, Layout.PodMem())
  {
    var moves := Layout.Taken(PlanFor(snap, analysis, opts).steps, k);
    PlanChains(snap, analysis, opts, k);
    Layout.CountsAgree(snap.pods, info, moves);
    Layout.EmptiedAgree(snap.pods, info, moves);
    Layout.LoadsAgree(snap.pods, info, moves);
  }

  /** Whatever the plan, once all its steps are shown each target is drawn without a movable pod. */
  lemma {:induction false} TargetsEndEmptied(snap: Snapshot, analysis: Analysis, opts: Options, i: nat)
    requires Admissible(snap) && i < |PlanFor(snap, analysis, opts).steps|
    ensures var steps, drawn := PlanFor(snap, analysis, opts).steps, Layout.Drawn(snap.pods);
      Layout.Standing(drawn, Layout.PlacedAt(drawn, Layout.Taken(steps, |steps|)), steps[i].targetNode,
                      Layout.IfMovable()) == 0
  {
    var v0, drawn := Packed(snap, opts.packCeiling), Layout.Drawn(snap.pods);
    var steps := PlanFor(snap, analysis, opts).steps;
    PlanIsLegal(snap, analysis, opts);
    PackedSound(snap, opts.packCeiling);
    PackedTracks(snap, opts.packCeiling);
    Layout.DrawnUnique(snap.pods);
    AllInStep(v0, opts.packCeiling, steps, drawn, i);
  }

  lemma {:induction false} AllInStep(v0: Packing, ceiling: real, steps: seq<PlanStep>, pods: seq<Pod>, i: nat)
    requires Sound(v0, v0, ceiling, {}) && LegalRun(v0, AllMoves(steps)) && OrderlySteps(steps) && i < |steps|
    requires UniquePods(pods) && InStep(v0, [], pods)
    requires DrainedEmpty(Replay(v0, AllMoves(steps)), {steps[i].targetNode})
    ensures Layout.Standing(pods, Layout.PlacedAt(pods, Layout.Taken(steps, |steps|)), steps[i].targetNode,
                            Layout.IfMovable()) == 0
  {
    StepsInStep(v0, ceiling, steps, pods, |steps|);
    assert steps[..|steps|] == steps;
    TargetIsNode(v0, ceiling, steps, i);
    EmptyIsDrawnEmpty(Replay(v0, AllMoves(steps)), Layout.PlacedAt(pods, AllMoves(steps)), pods, steps[i].targetNode);
  }

  /** A step's target is one of the nodes: something was moved off it. */
  lemma {:induction false} TargetIsNode(v0: Packing, ceiling: real, steps: seq<PlanStep>, i: nat)
    requires Sound(v0, v0, ceiling, {}) && LegalRun(v0, AllMoves(steps)) && OrderlySteps(steps) && i < |steps|
    ensures steps[i].targetNode in Replay(v0, AllMoves(steps)).bins
  {
    var moves, j := AllMoves(steps), |AllMoves(steps[..i])|;
    FirstMoveOf(steps, i);
    MovesLeaveNodes(v0, ceiling, moves);
    assert moves[j] in moves && moves[j] in steps[i].moves;
    WholeRunNodes(v0, ceiling, moves);
  }

  lemma {:induction false} LastLeavesNode(v0: Packing, ceiling: real, moves: seq<Move>)
    requires Sound(v0, v0, ceiling, {}) && LegalRun(v0, moves) && moves != []
    ensures moves[|moves| - 1].fromNode in v0.bins
  {
    var q := LastRelocates(v0, ceiling, moves);
  }

  lemma {:induction false} MovesLeaveNodes(v0: Packing, ceiling: real, moves: seq<Move>)
    requires Sound(v0, v0, ceiling, {}) && LegalRun(v0, moves)
    ensures forall m | m in moves :: m.fromNode in v0.bins
  {
    if moves != [] {
      MovesLeaveNodes(v0, ceiling, moves[..|moves| - 1]);
      LastLeavesNode(v0, ceiling, moves);
      FrontOrLast(moves);
    }
  }

  lemma {:induction false} WholeRunNodes(v0: Packing, ceiling: real, moves: seq<Move>)
    requires Sound(v0, v0, ceiling, {}) && LegalRun(v0, moves)
    ensures SameNodes(v0, Replay(v0, moves))
  {
    LegalRunSound(v0, ceiling, moves);
  }

  lemma {:induction false} FirstMoveOf(steps: seq<PlanStep>, i: nat)
    requires i < |steps| && steps[i].moves != []
    ensures var j := |AllMoves(steps[..i])|; j < |AllMoves(steps)| && AllMoves(steps)[j] == steps[i].moves[0]
  {
    MovesPrefix(steps, i + 1);
    assert steps[..i + 1][..i] == steps[..i];
    assert AllMoves(steps[..i + 1]) == AllMoves(steps[..i]) + steps[i].moves;
  }

  lemma {:induction false} EmptyIsDrawnEmpty(v: Packing, place: map<string, string>, pods: seq<Pod>, n: string)
    requires Tracks(v, place, pods) && DrainedEmpty(v, {n}) && n in v.bins
    ensures Layout.Standing(pods, place, n, Layout.IfMovable()) == 0
  {
    var w := Layout.Here(place, n, Layout.IfMovable());
    forall p | p in pods ensures w(p) == 0 {
      if Layout.HostOf(place, p) == n {
        var q := p.(nodeName := n);
        assert q in DrawnOn(place, pods, v.bins.Keys) && q.IsMovable() == p.IsMovable();
      }
    }
    SumZero(pods, w);
  }
}
