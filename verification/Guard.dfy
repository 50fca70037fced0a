/**
  The safety guard (internal/safety/safety.go): the rails checked against fresh state before a
  step and before every eviction, and what an accepted feasibility check guarantees.
 */
module Guard {
  import opened Model
  import opened Sums
  import opened Packings
  import opened Placements
  import opened Planning
  import opened Runs
  import opened PlanSafety
  import opened Greedy
  import opened Rails

  datatype Limits = Limits(maxNodesPerRun: int, minReadyNodes: int, allowRed: bool)

  /** What the API server guarantees of every snapshot it serves. */
  ghost predicate WellFormed(snap: Snapshot) {
    UniqueNodes(snap.nodes) && UniquePods(snap.pods) && NonNegativeRequests(snap.pods) && AdmittedPods(snap.pods)
  }

  // ---------------------------------------------------------------- the node floor

  predicate Schedulable(n: Node) { n.ready && !n.unschedulable }

  ghost function IsSchedulable(): Node -> int { (n: Node) => if Schedulable(n) then 1 else 0 }

  /** Ready, schedulable nodes left once the target leaves the pool. */
  ghost function ReadyWithout(target: Node, nodes: seq<Node>): int {
    Sum(nodes, IsSchedulable()) - if Schedulable(target) then 1 else 0
  }

  method CheckNodeFloor(limits: Limits, target: Node, live: Snapshot) returns (ok: bool)
    ensures ok <==> limits.minReadyNodes <= 0 || ReadyWithout(target, live.nodes) >= limits.minReadyNodes
  {
    if limits.minReadyNodes <= 0 { return true; }
    var ready := 0;
    for i := 0 to |live.nodes|
      invariant ready == Sum(live.nodes[..i], IsSchedulable())
    {
      assert live.nodes[..i + 1][..i] == live.nodes[..i];
      if live.nodes[i].ready && !live.nodes[i].unschedulable { ready := ready + 1; }
    }
    assert live.nodes[..|live.nodes|] == live.nodes;
    if target.ready && !target.unschedulable { ready := ready - 1; }
    return ready >= limits.minReadyNodes;
  }

  method NodeByName(snap: Snapshot, name: string) returns (node: Option<Node>)
    ensures node.Some? ==> node.value in snap.nodes && node.value.name == name
    ensures node.None? ==> forall n | n in snap.nodes :: n.name != name
  {
    for i := 0 to |snap.nodes|
      invariant forall n | n in snap.nodes[..i] :: n.name != name
    {
      if snap.nodes[i].name == name { return Some(snap.nodes[i]); }
    }
    assert snap.nodes[..|snap.nodes|] == snap.nodes;
    return None;
  }

  // ------------------------------------------------------------------- feasibility

  ghost function RemoveAll(v: Packing, pods: seq<Pod>): Packing { Fold(Remove, v, pods) }

  /** The first node, in snapshot order, other than the draining one, that may take the pod. */
  ghost function FirstHome(v: Packing, pod: Pod, draining: string, names: seq<string>): Option<string> {
    if names == [] then None
    else if names[0] != draining && CanPlace(v, pod, names[0]) then Some(names[0])
    else FirstHome(v, pod, draining, names[1..])
  }

  /** One home per movable pod, each chosen with the earlier ones in place; nothing if one has none. */
  ghost function Homes(v: Packing, pods: seq<Pod>, draining: string): Option<seq<string>>
    decreases |pods|
  {
    if pods == [] then Some([])
    else if !pods[0].IsMovable() then Homes(v, pods[1..], draining)
    else
      var home := FirstHome(v, pods[0], draining, v.order);
      if home.None? then None else
        var rest := Homes(Place(v, pods[0], home.value), pods[1..], draining);
        if rest.None? then None else Some([home.value] + rest.value)
  }

  ghost function FeasibleHomes(live: Snapshot, target: string): Option<seq<string>> {
    var v := Packed(live, 0.0);
    Homes(RemoveAll(v, Occupants(v, target)), Occupants(v, target), target)
  }

  /** One node as a home: the pod stays there if it may. */
  method TryHome(placement: Placement, pod: Pod, draining: string, candidate: string) returns (ok: bool)
    requires placement.Valid() && AdmittedPod(pod)
    modifies placement.Repr()
    ensures placement.Valid() && fresh(placement.Repr() - old(placement.Repr()))
    ensures ok == (candidate != draining && CanPlace(old(placement.View()), pod, candidate))
    ensures placement.View() == if ok then Place(old(placement.View()), pod, candidate) else old(placement.View())
  {
    if candidate == draining { return false; }
    ok := placement.CanPlace(pod, candidate);
    if ok { placement.Place(pod, candidate); }
  }

  method HasHome(placement: Placement, pod: Pod, draining: string) returns (ok: bool)
    requires placement.Valid() && AdmittedPod(pod)
    modifies placement.Repr()
    ensures placement.Valid() && fresh(placement.Repr() - old(placement.Repr()))
    ensures var home := FirstHome(old(placement.View()), pod, draining, placement.nodeOrder);
      && ok == home.Some?
      && (ok ==> placement.View() == Place(old(placement.View()), pod, home.value))
  {
    ghost var goal := FirstHome(placement.View(), pod, draining, placement.nodeOrder);
    for i := 0 to |placement.nodeOrder|
      invariant placement.Valid() && placement.View() == old(placement.View())
      invariant fresh(placement.Repr() - old(placement.Repr()))
      invariant goal == FirstHome(placement.View(), pod, draining, placement.nodeOrder[i..])
    {
      assert placement.nodeOrder[i..][1..] == placement.nodeOrder[i + 1..];
      ok := TryHome(placement, pod, draining, placement.nodeOrder[i]);
      if ok { return; }
    }
    ok := false;
  }

  method RemoveEach(placement: Placement, occupants: seq<Pod>)
    requires placement.Valid()
    modifies placement.Repr()
    ensures placement.Valid() && placement.spread.entries == old(placement.spread.entries)
    ensures placement.View() == RemoveAll(old(placement.View()), occupants)
  {
    for i := 0 to |occupants|
      invariant placement.Valid() && placement.spread.entries == old(placement.spread.entries)
      invariant placement.View() == RemoveAll(old(placement.View()), occupants[..i])
    {
      FoldStep(Remove, old(placement.View()), occupants, i);
      placement.Remove(occupants[i]);
    }
    assert occupants[..|occupants|] == occupants;
  }

  method HouseEach(placement: Placement, occupants: seq<Pod>, draining: string) returns (ok: bool)
    requires placement.Valid() && AdmittedPods(occupants)
    modifies placement.Repr()
    ensures ok == Homes(old(placement.View()), occupants, draining).Some?
  {
    ghost var goal := Homes(placement.View(), occupants, draining);
    for i := 0 to |occupants|
      invariant placement.Valid() && fresh(placement.Repr() - old(placement.Repr()))
      invariant goal.Some? == Homes(placement.View(), occupants[i..], draining).Some?
    {
      assert occupants[i..][1..] == occupants[i + 1..] && occupants[i] in occupants;
      if !occupants[i].IsMovable() { continue; }
      var home := HasHome(placement, occupants[i], draining);
      if !home { return false; }
    }
    ok := true;
  }

  /** Re-proves, against live state, that every movable pod on the target can go somewhere else. */
  method CheckStepFeasible(target: string, live: Snapshot) returns (ok: bool)
    requires WellFormed(live)
    ensures ok == FeasibleHomes(live, target).Some?
  {
    var placement := NewPlacementCeiling(live, 0.0);
    placement := placement.Clone();
    ghost var v := placement.View();
    PackedAdmits(live, 0.0);
    var occupants := placement.Occupants(target);
    RemoveEach(placement, occupants);
    ok := HouseEach(placement, occupants, target);
  }

  // ---------------------------------------------------------------- the whole gate

  /** Whether a step may begin; `window` is the maintenance windows' answer for its node, if any are configured. */
  ghost predicate StepAllowed(limits: Limits, window: Option<bool>, step: RatedStep, live: Snapshot,
                              drainedSoFar: int) {
    && (limits.maxNodesPerRun > 0 ==> drainedSoFar < limits.maxNodesPerRun)
    && step.targetNode != ""
    && (exists n | n in live.nodes :: n.name == step.targetNode
          && (limits.minReadyNodes <= 0 || ReadyWithout(n, live.nodes) >= limits.minReadyNodes))
    && (step.impact == Red ==> limits.allowRed || window == Some(true))
    && FeasibleHomes(live, step.targetNode).Some?
  }

  /** The other nodes that take pods. */
  ghost function ReadyOthers(nodes: seq<Node>, target: string): set<Node> {
    set n | n in nodes && n.ready && !n.unschedulable && n.name != target
  }

  ghost function ReadyNodes(nodes: seq<Node>): set<Node> { set n | n in nodes && n.ready && !n.unschedulable }

  lemma {:induction false} ReadyCount(nodes: seq<Node>)
    requires UniqueNodes(nodes)
    ensures Sum(nodes, IsSchedulable()) == |ReadyNodes(nodes)|
  {
    if nodes != [] {
      var front, last := nodes[..|nodes| - 1], nodes[|nodes| - 1];
      ReadyCount(front);
      assert nodes == front + [last] && forall n | n in front :: n.name != last.name;
      ReadyStep(front, last);
    }
  }

  lemma {:induction false} ReadyStep(front: seq<Node>, last: Node)
    requires last !in front
    ensures |ReadyNodes(front + [last])| == |ReadyNodes(front)| + IsSchedulable()(last)
  {
    assert ReadyNodes(front + [last])
        == if last.ready && !last.unschedulable then ReadyNodes(front) + {last} else ReadyNodes(front);
  }

  /** What the node floor counts are the other nodes that take pods. */
  lemma {:induction false} FloorExactly(target: Node, nodes: seq<Node>)
    requires UniqueNodes(nodes) && target in nodes
    ensures ReadyWithout(target, nodes) == |ReadyOthers(nodes, target.name)|
  {
    ReadyCount(nodes);
    UniqueName(nodes, target);
    if target.ready && !target.unschedulable {
      assert ReadyNodes(nodes) == ReadyOthers(nodes, target.name) + {target};
    } else {
      assert ReadyNodes(nodes) == ReadyOthers(nodes, target.name);
    }
  }

  /** A step may begin: the cap leaves it room, its node is there, enough others would stay, a Red one has leave or an
      open window, and every movable pod has a home. */
  ghost predicate MayBegin(limits: Limits, window: Option<bool>, step: RatedStep, live: Snapshot, drainedSoFar: int) {
    && (limits.maxNodesPerRun <= 0 || drainedSoFar < limits.maxNodesPerRun)
    && |step.targetNode| > 0 && (exists n | n in live.nodes :: n.name == step.targetNode)
    && (limits.minReadyNodes <= 0 || limits.minReadyNodes <= |ReadyOthers(live.nodes, step.targetNode)|)
    && (step.impact != Red || limits.allowRed || (window.Some? && window.value))
    && FeasibleHomes(live, step.targetNode).Some?
  }

  lemma {:induction false} StepAllowedExactly(limits: Limits, window: Option<bool>, step: RatedStep, live: Snapshot,
                                              drainedSoFar: int)
    requires UniqueNodes(live.nodes)
    ensures StepAllowed(limits, window, step, live, drainedSoFar)
       <==> MayBegin(limits, window, step, live, drainedSoFar)
  {
    forall n | n in live.nodes && n.name == step.targetNode
      ensures ReadyWithout(n, live.nodes) == |ReadyOthers(live.nodes, step.targetNode)|
    {
      FloorExactly(n, live.nodes);
    }
  }

  method CheckStep(limits: Limits, window: Option<bool>, step: RatedStep, live: Snapshot, drainedSoFar: int)
    returns (verdict: Verdict)
    requires WellFormed(live)
    ensures verdict.Allowed? <==> StepAllowed(limits, window, step, live, drainedSoFar)
    ensures verdict.Allowed? <==> MayBegin(limits, window, step, live, drainedSoFar)
  {
    StepAllowedExactly(limits, window, step, live, drainedSoFar);
    if limits.maxNodesPerRun > 0 && drainedSoFar >= limits.maxNodesPerRun { return Blocked(MaxNodesPerRun); }
    if step.targetNode == "" { return Blocked(StepFreshness); }
    var node := NodeByName(live, step.targetNode);
    if node.None? { return Blocked(NodeNotFound); }
    UniqueName(live.nodes, node.value);
    if step.impact == Red && !limits.allowRed && window != Some(true) { return Blocked(RedRequiresWindow); }
    var floor := CheckNodeFloor(limits, node.value, live);
    if !floor { return Blocked(MinReadyNodes); }
    var feasible := CheckStepFeasible(step.targetNode, live);
    if !feasible { return Blocked(StepFreshness); }
    return Allowed;
  }

  lemma {:induction false} UniqueName(nodes: seq<Node>, node: Node)
    requires UniqueNodes(nodes) && node in nodes
    ensures forall n | n in nodes && n.name == node.name :: n == node
  {
  }

  // ------------------------------------------------------------------- soundness

  /** w is v with the first i occupants of n gone and nothing else changed. */
  ghost predicate Emptied(v: Packing, w: Packing, n: string, i: nat)
    requires n in v.bins && i <= |v.bins[n].occupants|
  {
    && Valid(w) && SameNodes(v, w)
    && w.bins[n].occupants == v.bins[n].occupants[i..]
    && forall m | m in v.bins && m != n :: w.bins[m] == v.bins[m]
  }

  /** Emptying by the copied list leaves nothing behind: no occupant is skipped. */
  lemma {:induction false} RemoveAllEmpties(v: Packing, n: string, i: nat)
    requires Valid(v) && n in v.bins && i <= |v.bins[n].occupants|
    ensures Emptied(v, RemoveAll(v, v.bins[n].occupants[..i]), n, i)
  {
    var occ := v.bins[n].occupants;
    if 0 < i {
      RemoveAllEmpties(v, n, i - 1);
      FoldStep(Remove, v, occ, i - 1);
      EmptiedOneMore(v, RemoveAll(v, occ[..i - 1]), n, i);
    } else {
      assert occ[..0] == [];
    }
  }

  lemma {:induction false} EmptiedOneMore(v: Packing, w: Packing, n: string, i: nat)
    requires n in v.bins && 0 < i <= |v.bins[n].occupants| && Emptied(v, w, n, i - 1)
    ensures Emptied(v, Remove(w, v.bins[n].occupants[i - 1]), n, i)
  {
    var occ := v.bins[n].occupants;
    assert occ[i - 1..][0] == occ[i - 1] && occ[i - 1..][1..] == occ[i..];
    RemoveFirst(w, n);
  }

  lemma {:induction false} RemoveFirst(v: Packing, n: string)
    requires Valid(v) && n in v.bins && v.bins[n].occupants != []
    ensures var w := Remove(v, v.bins[n].occupants[0]);
      && Valid(w) && SameNodes(v, w)
      && w.bins[n].occupants == v.bins[n].occupants[1..]
      && forall m | m in v.bins && m != n :: w.bins[m] == v.bins[m]
  {
    var p := v.bins[n].occupants[0];
    assert p.nodeName == n;
    assert IndexOf(v.bins[n].occupants, p) == 0;
    RemoveValid(v, p);
    RemoveKeepsNodes(v, p);
  }

  lemma {:induction false} FirstHomeAdmits(v: Packing, pod: Pod, draining: string, names: seq<string>)
    ensures var h := FirstHome(v, pod, draining, names);
      h.Some? ==> h.value in names && h.value != draining && CanPlace(v, pod, h.value)
    ensures FirstHome(v, pod, draining, names).None? ==>
      forall n | n in names && n != draining :: !CanPlace(v, pod, n)
  {
    if names != [] { FirstHomeAdmits(v, pod, draining, names[1..]); }
  }

  /** Each pod may join its home with the earlier ones already there; no home is the draining node. */
  ghost predicate AssignmentOk(v: Packing, pods: seq<Pod>, homes: seq<string>, draining: string)
    decreases |pods|
  {
    |pods| == |homes| &&
    (pods != [] ==>
      && homes[0] != draining
      && CanPlace(v, pods[0], homes[0])
      && AssignmentOk(Place(v, pods[0], homes[0]), pods[1..], homes[1..], draining))
  }

  ghost function Assigned(v: Packing, pods: seq<Pod>, homes: seq<string>): Packing
    requires |pods| == |homes|
    decreases |pods|
  {
    if pods == [] then v else Assigned(Place(v, pods[0], homes[0]), pods[1..], homes[1..])
  }

  lemma {:induction false} MovableFront(pods: seq<Pod>)
    requires pods != []
    ensures MovablePods(pods) == (if pods[0].IsMovable() then [pods[0]] else []) + MovablePods(pods[1..])
    decreases |pods|
  {
    if |pods| > 1 {
      MovableFront(pods[..|pods| - 1]);
      assert pods[..|pods| - 1][1..] == pods[1..][..|pods[1..]| - 1];
    }
  }

  lemma {:induction false} HomesAssign(v: Packing, pods: seq<Pod>, draining: string)
    requires Homes(v, pods, draining).Some?
    ensures AssignmentOk(v, MovablePods(pods), Homes(v, pods, draining).value, draining)
    decreases |pods|
  {
    if pods != [] {
      MovableFront(pods);
      if pods[0].IsMovable() {
        FirstHomeAdmits(v, pods[0], draining, v.order);
        HomesAssign(Place(v, pods[0], FirstHome(v, pods[0], draining, v.order).value), pods[1..], draining);
        assert MovablePods(pods)[1..] == MovablePods(pods[1..]);
      } else {
        HomesAssign(v, pods[1..], draining);
        assert MovablePods(pods) == MovablePods(pods[1..]);
      }
    }
  }

  /** What stays true of every node but the draining one while pods are assigned homes. */
  ghost predicate RoomKept(v0: Packing, v: Packing, draining: string) {
    && SameNodes(v0, v)
    && forall n | n in v.bins && n != draining :: RoomAt(v0, v, n)
  }

  ghost predicate RoomAt(v0: Packing, v: Packing, n: string)
    requires n in v.bins
  {
    FreeIsExact(v, n, 0.0) && AtMost(UsedOn(v, n), UsedOn(v0, n), v.bins[n].node.allocatable)
  }

  lemma {:induction false} AtMostChain(a: Resources, b: Resources, c: Resources, basis: Resources)
    requires AtMost(a, b, basis) && AtMost(b, c, basis)
    ensures AtMost(a, c, basis)
  {
  }

  lemma {:induction false} RoomStep(v0: Packing, v: Packing, draining: string, p: Pod, h: string)
    requires RoomKept(v0, v, draining) && p.requests.NonNegative()
    requires h != draining && CanPlace(v, p, h)
    ensures RoomKept(v0, Place(v, p, h), draining)
  {
    RoomPlaced(v0, v, draining, p, h);
  }

  lemma {:induction false} RoomPlaced(v0: Packing, v: Packing, draining: string, p: Pod, h: string)
    requires RoomKept(v0, v, draining) && p.requests.NonNegative()
    requires h in v.bins && h != draining && p.Footprint().Fits(v.bins[h].free)
    ensures RoomKept(v0, Place(v, p, h), draining)
  {
    var w := Place(v, p, h);
    forall n | n in w.bins && n != draining
      ensures RoomAt(v0, w, n)
    {
      assert RoomAt(v0, v, n);
      if n == h { RoomAtHome(v0, v, p, h); } else { assert w.bins[n] == v.bins[n]; }
    }
  }

  lemma {:induction false} RoomAtHome(v0: Packing, v: Packing, p: Pod, h: string)
    requires h in v.bins && RoomAt(v0, v, h) && p.requests.NonNegative() && p.Footprint().Fits(v.bins[h].free)
    ensures RoomAt(v0, Place(v, p, h), h)
  {
    var basis, used, need := v.bins[h].node.allocatable, UsedOn(v, h), p.Footprint();
    UsedPlace(v, p, h);
    FreeAfter(v.bins[h].free, basis, used, need);
    FittingStaysWithin(v.bins[h].free, basis, used, need);
    AtMostChain(used.Add(need), used, UsedOn(v0, h), basis);
  }

  lemma {:induction false} AssignmentKeepsRoom(v0: Packing, v: Packing, pods: seq<Pod>, homes: seq<string>,
                                               draining: string)
    requires AssignmentOk(v, pods, homes, draining) && RoomKept(v0, v, draining) && NonNegativeRequests(pods)
    ensures RoomKept(v0, Assigned(v, pods, homes), draining)
    decreases |pods|
  {
    if pods != [] {
      assert pods[0] in pods && forall p | p in pods[1..] :: p in pods;
      RoomStep(v0, v, draining, pods[0], homes[0]);
      AssignmentKeepsRoom(v0, Place(v, pods[0], homes[0]), pods[1..], homes[1..], draining);
    }
  }

  /** If the guard accepts, all movable pods of the target have homes at once: each admitted by the hard
      rules with the earlier ones in place, on another ready and uncordoned node, the target having been
      emptied completely, and no other node used beyond the larger of its allocatable and its initial use. */
  lemma {:induction false} GuardIsSound(live: Snapshot, target: string)
    requires WellFormed(live) && FeasibleHomes(live, target).Some?
    ensures var v := Packed(live, 0.0);
      var emptied := RemoveAll(v, Occupants(v, target));
      var pods, homes := MovablePods(Occupants(v, target)), FeasibleHomes(live, target).value;
      && Occupants(emptied, target) == []
      && AssignmentOk(emptied, pods, homes, target)
      && (forall p :: p in pods <==> Sits(v, p) && p.nodeName == target && p.IsMovable())
      && RoomKept(v, Assigned(emptied, pods, homes), target)
  {
    var v := Packed(live, 0.0);
    var occ := Occupants(v, target);
    PackedSound(live, 0.0);
    EmptiedTarget(v, target);
    HomesAssign(RemoveAll(v, occ), occ, target);
    TargetsMovables(v, target);
    AssignmentKeepsRoom(v, RemoveAll(v, occ), MovablePods(occ), FeasibleHomes(live, target).value, target);
  }

  lemma {:induction false} EmptiedWhole(v: Packing, target: string)
    requires Valid(v) && target in v.bins
    ensures Emptied(v, RemoveAll(v, v.bins[target].occupants), target, |v.bins[target].occupants|)
  {
    var occ := v.bins[target].occupants;
    assert occ[..|occ|] == occ;
    RemoveAllEmpties(v, target, |occ|);
  }

  lemma {:induction false} StartsWithRoom(v: Packing, target: string)
    requires Sound(v, v, 0.0, {})
    ensures RoomKept(v, v, target)
  {
  }

  lemma {:induction false} EmptiedKeepsRoom(v: Packing, w: Packing, target: string)
    requires target in v.bins && RoomKept(v, v, target) && Emptied(v, w, target, |v.bins[target].occupants|)
    ensures RoomKept(v, w, target) && Occupants(w, target) == []
  {
    forall n | n in w.bins && n != target ensures RoomAt(v, w, n) {
      assert RoomAt(v, v, n) && w.bins[n] == v.bins[n];
    }
  }

  lemma {:induction false} EmptiedTarget(v: Packing, target: string)
    requires Sound(v, v, 0.0, {})
    ensures Occupants(RemoveAll(v, Occupants(v, target)), target) == []
    ensures RoomKept(v, RemoveAll(v, Occupants(v, target)), target)
  {
    StartsWithRoom(v, target);
    if target in v.bins {
      EmptiedWhole(v, target);
      EmptiedKeepsRoom(v, RemoveAll(v, v.bins[target].occupants), target);
    } else {
      assert RemoveAll(v, []) == v;
    }
  }

  lemma {:induction false} TargetsMovables(v: Packing, target: string)
    requires Valid(v) && NonNegativePods(v)
    ensures forall p :: p in MovablePods(Occupants(v, target)) <==> Sits(v, p) && p.nodeName == target && p.IsMovable()
    ensures NonNegativeRequests(MovablePods(Occupants(v, target)))
  {
    var occ := Occupants(v, target);
    MovableMembers(occ);
    forall p | p in occ ensures Sits(v, p) && p.nodeName == target { assert p in v.bins[target].occupants; }
  }
}
