/**
  The envelope a converge run carries (internal/executor/converge.go): a second monitor over the same
  trace that counts rounds, remembers targets and demands a measured fall between rounds.
 */
module Envelopes {
  import opened Model
  import opened Sums
  import opened Protocol

  datatype Envelope = Envelope(maxNodes: int, maxImpact: Impact)

  const MAX_CONVERGE_ROUNDS := 50

  predicate ValidEnvelope(env: Envelope) { env.maxNodes >= 1 && (env.maxImpact == Green || env.maxImpact == Yellow) }

  /** How many rounds an envelope allows. */
  function Rounds(env: Envelope): int {
    if env.maxNodes > MAX_CONVERGE_ROUNDS then MAX_CONVERGE_ROUNDS else env.maxNodes
  }

  function Rank(r: Impact): int {
    match r case Green => 0 case Yellow => 1 case Red => 2 case UnknownImpact => 3
  }

  predicate ExceedsCeiling(rating: Impact, ceiling: Impact) { Rank(rating) > Rank(ceiling) }

  /** Names of the nodes holding at least one movable pod. */
  function OccupiedBy(pods: seq<Pod>): set<string> {
    set p | p in pods && p.nodeName != "" && p.IsMovable() :: p.nodeName
  }

  lemma {:induction false} OccupiedExactly(pods: seq<Pod>, n: string)
    ensures n in OccupiedBy(pods) <==> |n| > 0 && exists p | p in pods :: p.nodeName == n && FreeToMove(p)
  {
    forall p | p in pods ensures p.IsMovable() <==> FreeToMove(p) { MovableExactly(p); }
  }

  function Occupied(snap: Snapshot): nat { |OccupiedBy(snap.pods)| }

  /** Whether a step is the one to take, given a snapshot and the targets planned so far. */
  type Choice = (Snapshot, seq<string>, RatedStep) -> bool

  /** What a converge run is bound to: its envelope, and the planner's choice. */
  datatype Course = Course(env: Envelope, chooses: Choice)

  /** `asked`, `read` and `settling` hold only directly after a run was asked whether to stop and was not, after a read,
      and after a node is called drained; `willing` when that read directly followed such a question. */
  datatype Pace = Pace(targets: seq<string>, due: Option<RatedStep>, read: Option<Snapshot>, before: int,
                       settling: bool, fell: bool, asked: bool, willing: bool)

  const SET_OUT := Pace([], None, None, 0, false, true, false, false)

  predicate MayPlan(course: Course, p: Pace, step: RatedStep) {
    && p.read.Some? && p.willing && p.due.None? && p.fell && course.chooses(p.read.value, p.targets, step)
    && |p.targets| < Rounds(course.env) && step.targetNode !in p.targets
    && !ExceedsCeiling(step.impact, course.env.maxImpact)
  }

  function Mark(course: Course, p: Pace, c: Call): Option<Pace> {
    var idle := p.(read := None, settling := false, asked := false, willing := false);
    match c
    case Read(live) =>
      Some(idle.(read := live, willing := p.asked,
                 fell := if p.settling then live.Some? && Occupied(live.value) < p.before else p.fell))
    case Planned(step) =>
      if MayPlan(course, p, step) then
        Some(idle.(targets := p.targets + [step.targetNode], due := Some(step), before := Occupied(p.read.value),
                   fell := false))
      else None
    case Consulted(step, _, _) => if p.due == Some(step) then Some(idle) else None
    case Cordon(node, _) => if p.due.Some? && p.due.value.targetNode == node then Some(idle.(due := None)) else None
    case Drained(_) => Some(idle.(due := None, settling := true))
    case Asked(stop) => Some(idle.(asked := !stop))
    case _ => Some(idle)
  }

  function Paced(course: Course, trace: seq<Call>): Option<Pace> {
    if trace == [] then Some(SET_OUT) else
      var before := Paced(course, trace[..|trace| - 1]);
      if before.None? then None else Mark(course, before.value, trace[|trace| - 1])
  }

  lemma {:induction false} PacedNext(course: Course, trace: seq<Call>, c: Call)
    requires Paced(course, trace).Some?
    ensures Paced(course, trace + [c]) == Mark(course, Paced(course, trace).value, c)
  {
    assert (trace + [c])[..|trace|] == trace;
  }

  // ------------------------------------------------------------------ consequences

  /** A converge run cordons at most as many nodes as its envelope names, and never more than fifty. */
  lemma {:induction false} CordonsWithinEnvelope(course: Course, trace: seq<Call>)
    requires Paced(course, trace).Some? && ValidEnvelope(course.env)
    ensures var p := Paced(course, trace).value;
      Sum(trace, Cordons()) + (if p.due.Some? then 1 else 0) <= |p.targets| <= Rounds(course.env)
  {
    if trace != [] { CordonsWithinEnvelope(course, trace[..|trace| - 1]); }
  }

  /** What is known of the cordons so far: all of planned targets, the one due not yet cordoned. */
  ghost predicate CordonsKnown(trace: seq<Call>, p: Pace) {
    && (p.due.Some? ==> p.due.value.targetNode in p.targets)
    && forall i | 0 <= i < |trace| && trace[i].Cordon? ::
         trace[i].node in p.targets && (p.due.Some? ==> trace[i].node != p.due.value.targetNode)
  }

  lemma {:induction false} CordonsArePlanned(course: Course, trace: seq<Call>)
    requires Paced(course, trace).Some?
    ensures CordonsKnown(trace, Paced(course, trace).value)
  {
    if trace != [] {
      var front := trace[..|trace| - 1];
      CordonsArePlanned(course, front);
      assert forall i | 0 <= i < |front| :: front[i] == trace[i];
    }
  }

  lemma {:induction false} PacedPrefix(course: Course, trace: seq<Call>, i: nat)
    requires Paced(course, trace).Some? && i < |trace|
    ensures Paced(course, trace[..i]).Some? && Paced(course, trace[..i + 1]).Some?
    ensures Paced(course, trace[..i + 1]) == Mark(course, Paced(course, trace[..i]).value, trace[i])
  {
    var front := trace[..|trace| - 1];
    if i + 1 < |trace| {
      PacedPrefix(course, front, i);
      assert front[..i] == trace[..i] && front[..i + 1] == trace[..i + 1];
    } else {
      assert trace[..i + 1] == trace;
    }
  }

  /** No node is cordoned twice by a converge run. */
  lemma {:induction false} NoSecondVisit(course: Course, trace: seq<Call>, i: nat, j: nat)
    requires Paced(course, trace).Some? && i < j < |trace| && trace[i].Cordon? && trace[j].Cordon?
    ensures trace[i].node != trace[j].node
  {
    PacedPrefix(course, trace, j);
    CordonsArePlanned(course, trace[..j]);
    assert trace[..j][i] == trace[i];
  }

  ghost predicate WithinCeiling(course: Course, step: RatedStep) {
    !ExceedsCeiling(step.impact, course.env.maxImpact)
  }

  lemma {:induction false} DueIsWithinCeiling(course: Course, trace: seq<Call>)
    requires Paced(course, trace).Some?
    ensures var p := Paced(course, trace).value; p.due.Some? ==> WithinCeiling(course, p.due.value)
  {
    if trace != [] { DueIsWithinCeiling(course, trace[..|trace| - 1]); }
  }

  /** Green is within every envelope, Yellow within one that says Yellow, and nothing else is within any. */
  predicate Within(rating: Impact, ceiling: Impact) { rating == Green || (rating == Yellow && ceiling == Yellow) }

  /** No step a converge run puts to the guard is rated above the envelope, so none is Red or unrated. */
  lemma {:induction false} StepsWithinCeiling(course: Course, trace: seq<Call>, i: nat)
    requires Paced(course, trace).Some? && ValidEnvelope(course.env) && i < |trace| && trace[i].Consulted?
    ensures Within(trace[i].step.impact, course.env.maxImpact)
  {
    PacedPrefix(course, trace, i);
    DueIsWithinCeiling(course, trace[..i]);
  }

  /** Read directly after a node was called drained, and showing fewer occupied nodes than `before`. */
  ghost predicate Fall(trace: seq<Call>, i: nat, before: int) {
    exists r | i + 1 < r < |trace| ::
      trace[r - 1].Drained? && trace[r].Read? && trace[r].live.Some? && Occupied(trace[r].live.value) < before
  }

  ghost predicate RoundOpen(trace: seq<Call>, i: nat, p: Pace, before: int) {
    || Fall(trace, i, before)
    || (p.before == before && !p.fell && (p.settling ==> i + 1 < |trace| && trace[|trace| - 1].Drained?))
  }

  lemma {:induction false} RoundGoesOn(course: Course, trace: seq<Call>, i: nat)
    requires Paced(course, trace).Some? && i < |trace| && trace[i].Planned?
    requires Paced(course, trace[..i]).Some? && Paced(course, trace[..i]).value.read.Some?
    ensures RoundOpen(trace, i, Paced(course, trace).value, Occupied(Paced(course, trace[..i]).value.read.value))
  {
    if i + 1 < |trace| {
      var front := trace[..|trace| - 1];
      assert front[..i] == trace[..i] && forall k | 0 <= k < |front| :: front[k] == trace[k];
      RoundGoesOn(course, front, i);
      RoundStep(course, front, i, Paced(course, front).value, Occupied(Paced(course, trace[..i]).value.read.value),
                trace[|trace| - 1]);
      assert front + [trace[|trace| - 1]] == trace;
    }
  }

  lemma {:induction false} RoundStep(course: Course, trace: seq<Call>, i: nat, p: Pace, before: int, c: Call)
    requires RoundOpen(trace, i, p, before) && i < |trace| && Mark(course, p, c).Some?
    ensures RoundOpen(trace + [c], i, Mark(course, p, c).value, before)
  {
    var next := trace + [c];
    assert next[|trace|] == c && next[|trace| - 1] == trace[|trace| - 1];
    if Fall(trace, i, before) {
      var r :| i + 1 < r < |trace| && trace[r - 1].Drained? && trace[r].Read? && trace[r].live.Some?
        && Occupied(trace[r].live.value) < before;
      assert next[r] == trace[r] && next[r - 1] == trace[r - 1];
      assert Fall(next, i, before);
    } else if c.Read? && p.settling && c.live.Some? && Occupied(c.live.value) < before {
      assert next[|trace| - 1].Drained?;
      assert Fall(next, i, before);
    }
  }

  /** What the calls just before are, by what the pace remembers. */
  ghost predicate JustNow(trace: seq<Call>, p: Pace) {
    && (p.read.Some? ==> trace != [] && trace[|trace| - 1] == Read(p.read))
    && (p.asked ==> trace != [] && trace[|trace| - 1] == Asked(false))
    && (p.settling ==> trace != [] && trace[|trace| - 1].Drained?)
    && (p.willing ==> |trace| >= 2 && trace[|trace| - 1].Read? && trace[|trace| - 2] == Asked(false))
  }

  lemma {:induction false} ReadIsLast(course: Course, trace: seq<Call>)
    requires Paced(course, trace).Some?
    ensures JustNow(trace, Paced(course, trace).value)
  {
    if trace != [] {
      var front := trace[..|trace| - 1];
      ReadIsLast(course, front);
      assert forall i | 0 <= i < |front| :: front[i] == trace[i];
    }
  }

  /** Every round that another round follows freed a node: between the two plans a node was called drained and the
      very next read counted fewer occupied nodes than the read the earlier plan was made on. */
  lemma {:induction false} RoundsFall(course: Course, trace: seq<Call>, i: nat, j: nat)
    requires Paced(course, trace).Some? && i < j < |trace| && trace[i].Planned? && trace[j].Planned?
    ensures 0 < i && trace[i - 1].Read? && trace[i - 1].live.Some?
    ensures Fall(trace[..j], i, Occupied(trace[i - 1].live.value))
  {
    PacedPrefix(course, trace, i);
    ReadIsLast(course, trace[..i]);
    PacedPrefix(course, trace, j);
    assert trace[..j][..i] == trace[..i];
    RoundGoesOn(course, trace[..j], i);
  }

  /** The targets planned so far, in order. */
  function TargetsOf(trace: seq<Call>): seq<string> {
    if trace == [] then [] else
      var rest, last := TargetsOf(trace[..|trace| - 1]), trace[|trace| - 1];
      if last.Planned? then rest + [last.step.targetNode] else rest
  }

  lemma {:induction false} TargetsKnown(course: Course, trace: seq<Call>)
    requires Paced(course, trace).Some?
    ensures Paced(course, trace).value.targets == TargetsOf(trace)
  {
    if trace != [] { TargetsKnown(course, trace[..|trace| - 1]); }
  }

  /** The plan at i was made after the run was asked and did not stop, on the read directly before it, and is the
      planner's choice among the targets not planned yet. */
  ghost predicate WellPlanned(course: Course, trace: seq<Call>, i: nat) requires i < |trace| && trace[i].Planned? {
    && 2 <= i && trace[i - 2] == Asked(false) && trace[i - 1].Read? && trace[i - 1].live.Some?
    && course.chooses(trace[i - 1].live.value, TargetsOf(trace[..i]), trace[i].step)
  }

  lemma {:induction false} PlansAreChosen(course: Course, trace: seq<Call>, i: nat)
    requires Paced(course, trace).Some? && i < |trace| && trace[i].Planned?
    ensures WellPlanned(course, trace, i)
  {
    PacedPrefix(course, trace, i);
    ReadIsLast(course, trace[..i]);
    TargetsKnown(course, trace[..i]);
  }

  /** Call i is the last plan made. */
  predicate LastPlan(trace: seq<Call>, i: nat) {
    i < |trace| && trace[i].Planned? && forall j | i < j < |trace| :: !trace[j].Planned?
  }

  lemma {:induction false} OpeningRead(course: Course, trace: seq<Call>) returns (i: nat)
    requires Paced(course, trace).Some? && Paced(course, trace).value.targets != []
    ensures LastPlan(trace, i) && 0 < i && trace[i - 1].Read? && trace[i - 1].live.Some?
    ensures Occupied(trace[i - 1].live.value) == Paced(course, trace).value.before
  {
    var front, c := trace[..|trace| - 1], trace[|trace| - 1];
    if c.Planned? {
      i := |front|;
      ReadIsLast(course, front);
    } else {
      i := OpeningRead(course, front);
    }
  }

  /** Call r is the read directly after a node was called drained, and it counts no fewer occupied nodes than the read
      its round was planned on. */
  ghost predicate FreedNothing(trace: seq<Call>, r: nat) {
    && 0 < r < |trace| && trace[r - 1].Drained? && trace[r].Read? && trace[r].live.Some?
    && exists i | 0 < i < r :: LastPlan(trace, i) && trace[i - 1].Read? && trace[i - 1].live.Some?
         && Occupied(trace[r].live.value) >= Occupied(trace[i - 1].live.value)
  }

  lemma {:induction false} NoFallSeen(course: Course, trace: seq<Call>, after: Snapshot, status: Status)
    requires Paced(course, trace).Some? && Paced(course, trace).value.settling
    requires Paced(course, trace).value.targets != [] && Occupied(after) >= Paced(course, trace).value.before
    ensures FreedNothing(trace + [Read(Some(after)), Finish(status)], |trace|)
  {
    var next := trace + [Read(Some(after)), Finish(status)];
    var i := OpeningRead(course, trace);
    ReadIsLast(course, trace);
    assert next[|trace| - 1] == trace[|trace| - 1] && next[i] == trace[i] && next[i - 1] == trace[i - 1];
    assert LastPlan(next, i);
  }

  /** All that an envelope promises of a run's calls: few enough cordons, no node twice, nothing rated Red or
      unrated put to the guard, every plan the planner's choice on a fresh read after asking, and a measured fall
      between any two plans. */
  ghost predicate KeepsEnvelope(course: Course, trace: seq<Call>) {
    && Sum(trace, Cordons()) <= course.env.maxNodes && Sum(trace, Cordons()) <= 50
    && (forall i, j | 0 <= i < j < |trace| && trace[i].Cordon? && trace[j].Cordon? :: trace[i].node != trace[j].node)
    && (forall i | 0 <= i < |trace| && trace[i].Consulted? :: Within(trace[i].step.impact, course.env.maxImpact))
    && (forall i | 0 <= i < |trace| && trace[i].Planned? :: WellPlanned(course, trace, i))
    && (forall i, j | 0 <= i < j < |trace| && trace[i].Planned? && trace[j].Planned? ::
          0 < i && trace[i - 1].Read? && trace[i - 1].live.Some?
          && Fall(trace[..j], i, Occupied(trace[i - 1].live.value)))
  }

  lemma {:induction false} PacedKeepsEnvelope(course: Course, trace: seq<Call>)
    requires Paced(course, trace).Some? && ValidEnvelope(course.env)
    ensures KeepsEnvelope(course, trace)
  {
    CordonsWithinEnvelope(course, trace);
    forall i, j | 0 <= i < j < |trace| && trace[i].Cordon? && trace[j].Cordon? ensures trace[i].node != trace[j].node {
      NoSecondVisit(course, trace, i, j);
    }
    forall i | 0 <= i < |trace| && trace[i].Consulted?
      ensures Within(trace[i].step.impact, course.env.maxImpact)
    {
      StepsWithinCeiling(course, trace, i);
    }
    forall i | 0 <= i < |trace| && trace[i].Planned? ensures WellPlanned(course, trace, i) {
      PlansAreChosen(course, trace, i);
    }
    forall i, j | 0 <= i < j < |trace| && trace[i].Planned? && trace[j].Planned?
      ensures 0 < i && trace[i - 1].Read? && trace[i - 1].live.Some?
      ensures Fall(trace[..j], i, Occupied(trace[i - 1].live.value))
    {
      RoundsFall(course, trace, i, j);
    }
  }
}
