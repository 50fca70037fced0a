/**
  The three counts a plan reports (internal/planner/greedy.go:28-121): how many nodes carry anything now, how many of
  them the plan finds idle, and how many it says are left.
 */
module Counters {
  import opened Model
  import opened Sums
  import opened Packings
  import opened Planning
  import opened Runs
  import opened PlanSafety
  import opened PlanOrder
  import opened Policies

  /** Names of the nodes that hold a pod that has not finished. */
  ghost function Carriers(nodes: seq<Node>, pods: seq<Pod>): set<string> {
    set n | n in nodes && (exists p | p in pods :: p.nodeName == n.name && p.phase != Succeeded && p.phase != Failed) ::
      n.name
  }

  /** A node carries something exactly when some unfinished pod is on it: each takes a slot. */
  lemma {:induction false} CarryingExactly(pods: seq<Pod>, n: Node)
    requires NonNegativeRequests(pods)
    ensures Carrying(pods)(n)
         == if exists p | p in pods :: p.nodeName == n.name && p.phase != Succeeded && p.phase != Failed then 1 else 0
  {
    if p :| p in pods && p.nodeName == n.name && p.phase != Succeeded && p.phase != Failed {
      SlotsCounted(pods, n.name);
      assert SlotsOn(n.name)(p) >= 1;
    } else {
      SumZero(pods, CpuOn(n.name));
      SumZero(pods, MemOn(n.name));
      SumZero(pods, SlotsOn(n.name));
    }
  }

  lemma {:induction false} SlotsCounted(pods: seq<Pod>, n: string)
    requires NonNegativeRequests(pods)
    ensures forall p | p in pods :: SlotsOn(n)(p) <= Sum(pods, SlotsOn(n))
  {
    SumNonNegative(pods, SlotsOn(n));
  }

  lemma {:induction false} OccupiedIsCarriers(nodes: seq<Node>, pods: seq<Pod>)
    requires UniqueNodes(nodes) && NonNegativeRequests(pods)
    ensures Sum(nodes, Carrying(pods)) == |Carriers(nodes, pods)|
  {
    if nodes == [] {
      assert Carriers(nodes, pods) == {};
    } else {
      var front, last := nodes[..|nodes| - 1], nodes[|nodes| - 1];
      OccupiedIsCarriers(front, pods);
      CarryingExactly(pods, last);
      assert nodes == front + [last] && forall n | n in front :: n.name != last.name;
      CarriersStep(front, last, pods);
    }
  }

  lemma {:induction false} CarriersStep(front: seq<Node>, last: Node, pods: seq<Pod>)
    requires NonNegativeRequests(pods) && forall n | n in front :: n.name != last.name
    ensures |Carriers(front + [last], pods)| == |Carriers(front, pods)| + Carrying(pods)(last)
  {
    var was, now := Carriers(front, pods), Carriers(front + [last], pods);
    CarryingExactly(pods, last);
    forall x ensures x in now <==> x in was || (x == last.name && Carrying(pods)(last) == 1) {
      CarrierOrLast(front, last, pods, x);
    }
    NotYet(front, last, pods);
    OneMore(was, now, last.name, Carrying(pods)(last) == 1);
  }

  lemma {:induction false} NotYet(front: seq<Node>, last: Node, pods: seq<Pod>)
    requires forall n | n in front :: n.name != last.name
    ensures last.name !in Carriers(front, pods)
  {
  }

  lemma {:induction false} OneMore(was: set<string>, now: set<string>, x: string, more: bool)
    requires x !in was && forall y :: y in now <==> y in was || (y == x && more)
    ensures |now| == |was| + if more then 1 else 0
  {
    assert now == if more then was + {x} else was;
  }

  lemma {:induction false} CarrierOrLast(front: seq<Node>, last: Node, pods: seq<Pod>, x: string)
    requires NonNegativeRequests(pods)
    ensures x in Carriers(front + [last], pods)
       <==> x in Carriers(front, pods) || (x == last.name && Carrying(pods)(last) == 1)
  {
    CarryingExactly(pods, last);
    assert last in front + [last] && forall n | n in front :: n in front + [last];
    assert forall n | n in front + [last] :: n in front || n == last;
  }

  // ------------------------------------------------------------------ along the plan

  ghost function TargetSet(steps: seq<PlanStep>): set<string> { set s | s in steps :: s.targetNode }

  /** What is counted as idle are the drained carriers that are no step's target; each step has its own target. */
  ghost predicate Tallied(idle: int, drained: set<string>, targets: set<string>, steps: nat, carriers: set<string>) {
    idle == |(drained - targets) * carriers| && targets <= drained && |targets| == steps
  }

  /** The same along the plan, where no node left to try is drained. */
  ghost predicate IdleCounted(st: Progress, rest: seq<Node>, carriers: set<string>) {
    && Tallied(st.reclaimable, st.drained, TargetSet(st.steps), |st.steps|, carriers)
    && forall c | c in rest :: c.name !in st.drained
  }

  ghost predicate NamesDiffer(nodes: seq<Node>) { forall i, j | 0 <= i < j < |nodes| :: nodes[i].name != nodes[j].name }

  lemma {:induction false} IdleNode(idle: int, drained: set<string>, targets: set<string>, steps: nat,
                                    carriers: set<string>, n: string)
    requires Tallied(idle, drained, targets, steps, carriers) && n !in drained
    ensures Tallied(idle + (if n in carriers then 1 else 0), drained + {n}, targets, steps, carriers)
  {
    var was, now := (drained - targets) * carriers, (drained + {n} - targets) * carriers;
    OneMore(was, now, n, n in carriers);
  }

  lemma {:induction false} DrainedNode(idle: int, drained: set<string>, targets: set<string>, steps: nat,
                                       carriers: set<string>, n: string)
    requires Tallied(idle, drained, targets, steps, carriers) && n !in drained
    ensures Tallied(idle, drained + {n}, targets + {n}, steps + 1, carriers)
  {
    assert (drained + {n} - (targets + {n})) * carriers == (drained - targets) * carriers;
  }

  lemma {:induction false} TargetsWith(steps: seq<PlanStep>, s: PlanStep)
    ensures TargetSet(steps + [s]) == TargetSet(steps) + {s.targetNode}
  {
  }

  lemma {:induction false} RestUndrained(st: Progress, candidates: seq<Node>)
    requires candidates != [] && NamesDiffer(candidates) && forall c | c in candidates :: c.name !in st.drained
    ensures candidates[0].name !in st.drained
    ensures forall c | c in candidates[1..] :: c.name !in st.drained + {candidates[0].name}
  {
    assert candidates[0] in candidates && forall c | c in candidates[1..] :: c in candidates;
  }

  /** What trying one node does to the counts: nothing, or it is idle, or it is drained by one more step. */
  ghost predicate Tries(st: Progress, next: Progress, n: string, carries: int) {
    || next == st
    || (next.drained == st.drained + {n} && next.steps == st.steps && next.reclaimable == st.reclaimable + carries)
    || (next.drained == st.drained + {n} && next.reclaimable == st.reclaimable
        && |next.steps| == |st.steps| + 1 && TargetSet(next.steps) == TargetSet(st.steps) + {n})
  }

  lemma {:induction false} ConsiderTries(st: Progress, node: Node, snap: Snapshot, analysis: Analysis, opts: Options)
    ensures Tries(st, Consider(st, node, snap, analysis, opts), node.name, Carrying(snap.pods)(node))
  {
    if !IsEmpty(st.work, node.name) && TryDrain(st.work, node.name, st.drained, analysis, opts).Some? {
      var moves := TryDrain(st.work, node.name, st.drained, analysis, opts).value.moves;
      TargetsWith(st.steps, PlanStep(|st.steps| + 1, node.name, moves));
    }
  }

  lemma {:induction false} TryCounts(st: Progress, next: Progress, candidates: seq<Node>, carriers: set<string>)
    requires candidates != [] && NamesDiffer(candidates) && IdleCounted(st, candidates, carriers)
    requires Tries(st, next, candidates[0].name, if candidates[0].name in carriers then 1 else 0)
    ensures IdleCounted(next, candidates[1..], carriers)
  {
    var n, targets := candidates[0].name, TargetSet(st.steps);
    RestUndrained(st, candidates);
    IdleNode(st.reclaimable, st.drained, targets, |st.steps|, carriers, n);
    DrainedNode(st.reclaimable, st.drained, targets, |st.steps|, carriers, n);
  }

  lemma {:induction false} CarrierNamed(snap: Snapshot, node: Node)
    requires Admissible(snap) && node in snap.nodes
    ensures Carrying(snap.pods)(node) == if node.name in Carriers(snap.nodes, snap.pods) then 1 else 0
  {
    CarryingExactly(snap.pods, node);
  }

  /** These are names of carriers, as far as the candidates go. */
  ghost predicate NamesCarriers(candidates: seq<Node>, pods: seq<Pod>, carriers: set<string>) {
    forall c | c in candidates :: Carrying(pods)(c) == if c.name in carriers then 1 else 0
  }

  lemma {:induction false} Tail(candidates: seq<Node>, pods: seq<Pod>, carriers: set<string>)
    requires candidates != [] && NamesDiffer(candidates) && NamesCarriers(candidates, pods, carriers)
    ensures NamesDiffer(candidates[1..]) && NamesCarriers(candidates[1..], pods, carriers)
    ensures Carrying(pods)(candidates[0]) == if candidates[0].name in carriers then 1 else 0
  {
    assert candidates[0] in candidates && forall c | c in candidates[1..] :: c in candidates;
  }

  lemma {:induction false} RunCounts(st: Progress, candidates: seq<Node>, snap: Snapshot, analysis: Analysis,
                                     opts: Options, carriers: set<string>)
    requires NamesDiffer(candidates) && NamesCarriers(candidates, snap.pods, carriers)
    requires IdleCounted(st, candidates, carriers)
    ensures IdleCounted(RunPlan(st, candidates, snap, analysis, opts), [], carriers)
    decreases |candidates|
  {
    if candidates != [] && !LimitReached(opts, |st.steps|) {
      var next := Consider(st, candidates[0], snap, analysis, opts);
      Tail(candidates, snap.pods, carriers);
      ConsiderTries(st, candidates[0], snap, analysis, opts);
      TryCounts(st, next, candidates, carriers);
      RunCounts(next, candidates[1..], snap, analysis, opts, carriers);
    }
  }

  lemma {:induction false} CandidatesDiffer(snap: Snapshot, opts: Options)
    requires UniqueNodes(snap.nodes)
    ensures NamesDiffer(Candidates(snap, opts)) && forall c | c in Candidates(snap, opts) :: c in snap.nodes
  {
    forall i, j | 0 <= i < j < |Candidates(snap, opts)|
      ensures Candidates(snap, opts)[i].name != Candidates(snap, opts)[j].name
    {
      CandidateTwice(snap, opts, i, j);
    }
    forall c | c in Candidates(snap, opts) ensures c in snap.nodes { CandidatesExactly(snap, opts, c); }
  }

  /** What a plan reports: the nodes that carry something; those of them it empties without a step; and the first less
      the second and one for each step, which is the number of carriers it leaves alone, less the steps' targets that
      carried nothing to begin with. */
  lemma {:induction false} PlanCounts(snap: Snapshot, analysis: Analysis, opts: Options)
    requires Admissible(snap)
    ensures var plan, drained := PlanFor(snap, analysis, opts), Outcome(snap, analysis, opts).drained;
            var carriers, targets := Carriers(snap.nodes, snap.pods), TargetSet(plan.steps);
      && plan.nodesBefore == |carriers|
      && plan.alreadyReclaimable == |(drained - targets) * carriers|
      && plan.nodesAfter == |carriers - drained| - |targets - carriers|
  {
    var end, carriers := Outcome(snap, analysis, opts), Carriers(snap.nodes, snap.pods);
    OccupiedIsCarriers(snap.nodes, snap.pods);
    CandidatesDiffer(snap, opts);
    StartCounted(snap, opts, carriers);
    forall c | c in Candidates(snap, opts)
      ensures Carrying(snap.pods)(c) == if c.name in carriers then 1 else 0
    {
      CarrierNamed(snap, c);
    }
    RunCounts(Start(snap, opts), Candidates(snap, opts), snap, analysis, opts, carriers);
    Partition(carriers, end.drained, TargetSet(end.steps));
  }

  lemma {:induction false} StartCounted(snap: Snapshot, opts: Options, carriers: set<string>)
    ensures IdleCounted(Start(snap, opts), Candidates(snap, opts), carriers)
  {
    assert TargetSet([]) == {};
  }

  lemma {:induction false} Partition(carriers: set<string>, drained: set<string>, targets: set<string>)
    requires targets <= drained
    ensures |carriers| - |targets| - |(drained - targets) * carriers| == |carriers - drained| - |targets - carriers|
  {
    var left, idle, moved := carriers - drained, (drained - targets) * carriers, targets * carriers;
    assert carriers == left + idle + moved && left * idle == {} && (left + idle) * moved == {};
    assert targets == moved + (targets - carriers) && moved * (targets - carriers) == {};
  }
}
