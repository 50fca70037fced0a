/**
  The executor (internal/executor): performing plan steps, the converge loop and guarded drains against a
  cluster that may answer anything at any time, or fail. Every run is proved to keep to module Protocol's
  monitor to its end, and every converge run to its envelope as well.
 */
module Executor {
  import opened Model
  import opened Sums
  import opened Planning
  import opened Greedy
  import opened Rails
  import opened Guard
  import opened Protocol
  import opened Envelopes
  import opened Endings

  // -------------------------------------------------------------------- the outside

  /** What a snapshot of a real cluster looks like. */
  type LiveSnapshot = s: Snapshot | WellFormed(s) ghost witness Snapshot(0, [], [], [])

  /** The API server and the run's own record. Answers are arbitrary; calls are written down. */
  class World {
    ghost const rules: Rules
    ghost const course: Course
    ghost var trace: seq<Call>

    ghost constructor (rules: Rules, course: Course)
      ensures this.rules == rules && this.course == course && trace == []
    {
      this.rules, this.course, trace := rules, course, [];
    }

    ghost function Watching(): Option<Watch> reads this { Seen(rules, trace) }

    ghost function Pacing(): Option<Pace> reads this { Paced(course, trace) }

    /** The trace grew by one call, and both monitors have seen it. */
    ghost predicate Follows(was: seq<Call>, c: Call)
      reads this
    {
      && trace == was + [c]
      && (Seen(rules, was).Some? ==> Watching() == Observe(rules, Seen(rules, was).value, c))
      && (Paced(course, was).Some? ==> Pacing() == Mark(course, Paced(course, was).value, c))
    }

    ghost method Log(c: Call)
      modifies this
      ensures Follows(old(trace), c)
    {
      if Seen(rules, trace).Some? { SeenNext(rules, trace, c); }
      if Paced(course, trace).Some? { PacedNext(course, trace, c); }
      trace := trace + [c];
    }

    method ReadCluster() returns (live: Option<LiveSnapshot>)
      modifies this
      ensures Follows(old(trace), Read(live))
    {
      live := *;
      Log(Read(live));
    }

    method CordonNode(node: string) returns (ok: bool)
      modifies this
      ensures Follows(old(trace), Cordon(node, ok))
    {
      ok := *;
      Log(Cordon(node, ok));
    }

    method UncordonNode(node: string) returns (ok: bool)
      modifies this
      ensures Follows(old(trace), Uncordon(node, ok))
    {
      ok := *;
      Log(Uncordon(node, ok));
    }

    method EvictPod(namespace: string, pod: string) returns (reply: Reply)
      modifies this
      ensures Follows(old(trace), Evict(namespace, pod, reply))
    {
      reply := *;
      Log(Evict(namespace, pod, reply));
    }

    method PodPresent(namespace: string, pod: string) returns (answer: Option<bool>)
      modifies this
      ensures Follows(old(trace), Present(namespace, pod, answer))
    {
      answer := *;
      Log(Present(namespace, pod, answer));
    }

    /** Whether an operator asked this run to stop; a failed read counts as no. */
    method StopRequested() returns (stop: bool)
      modifies this
      ensures Follows(old(trace), Asked(stop))
    {
      stop := *;
      Log(Asked(stop));
    }
  }

  // ------------------------------------------------------------------------ settings

  /** The classifier: how it rates the k-th step of a list planned on a snapshot. */
  type Classifier = (Snapshot, seq<PlanStep>, nat) -> Impact

  /** tracksDrains: whether drained nodes are recorded for reclamation, which costs one more read; analyze and rate:
      the analyzer's verdicts and the classifier's ratings. */
  datatype Settings = Settings(limits: Limits, hasWindows: bool, runningIsHealthy: bool, tracksDrains: bool,
                               planner: Options, analyze: Snapshot -> Analysis, rate: Classifier)

  ghost function Gate(limits: Limits): StepGate {
    (step: RatedStep, window: Option<bool>, live: Snapshot, drained: int) =>
      StepAllowed(limits, window, step, live, drained)
  }

  ghost function RulesOf(cfg: Settings, dryRun: bool): Rules { Rules(Gate(cfg.limits), dryRun, cfg.runningIsHealthy) }

  /** The steps the planner proposes on a snapshot, and the k-th of them rated. */
  ghost function Proposed(cfg: Settings, live: Snapshot): seq<PlanStep> {
    PlanFor(live, cfg.analyze(live), cfg.planner).steps
  }

  function Rated(s: PlanStep, rating: Impact): RatedStep { RatedStep(s.sequenceNumber, s.targetNode, s.moves, rating) }

  /** Step k is the first proposed whose target is not among these. */
  ghost predicate IsNext(cfg: Settings, live: Snapshot, targets: set<string>, k: nat) {
    && k < |Proposed(cfg, live)| && Proposed(cfg, live)[k].targetNode !in targets
    && forall j | 0 <= j < k :: Proposed(cfg, live)[j].targetNode in targets
  }

  /** The step to take next, as the planner proposes and the classifier rates it. */
  ghost predicate IsChoice(cfg: Settings, live: Snapshot, targets: set<string>, step: RatedStep) {
    exists k: nat :: IsNext(cfg, live, targets, k)
      && step == Rated(Proposed(cfg, live)[k], cfg.rate(live, Proposed(cfg, live), k))
  }

  ghost function Chooser(cfg: Settings): Choice {
    (live: Snapshot, targets: seq<string>, step: RatedStep) => IsChoice(cfg, live, (set t | t in targets), step)
  }

  /** Nothing is left that this envelope lets be taken: every target proposed was planned before, or the first that was
      not is rated above the ceiling. */
  ghost predicate Exhausted(cfg: Settings, ceiling: Impact, live: Snapshot, targets: set<string>) {
    forall k: nat | IsNext(cfg, live, targets, k) :: !Within(cfg.rate(live, Proposed(cfg, live), k), ceiling)
  }

  datatype StepEnd = Completed | Turned | Broke

  // ------------------------------------------------------------------------- searches

  method FindPod(live: Snapshot, namespace: string, name: string) returns (pod: Option<Pod>)
    ensures pod == Find(live.pods, namespace, name)
  {
    for i := 0 to |live.pods|
      invariant Find(live.pods, namespace, name) == Find(live.pods[i..], namespace, name)
    {
      assert live.pods[i..][1..] == live.pods[i + 1..];
      if live.pods[i].namespace == namespace && live.pods[i].name == name { return Some(live.pods[i]); }
    }
    pod := None;
  }

  method MovablePodsOn(live: Snapshot, node: string) returns (out: seq<Pod>)
    ensures out == MovableOn(live.pods, node)
  {
    out := [];
    for i := 0 to |live.pods|
      invariant out == MovableOn(live.pods[..i], node)
    {
      assert live.pods[..i + 1][..i] == live.pods[..i];
      if live.pods[i].nodeName == node && live.pods[i].IsMovable() { out := out + [live.pods[i]]; }
    }
    assert live.pods[..|live.pods|] == live.pods;
  }

  /** The tally of healthy pods per workload; an absent entry reads as zero. */
  ghost predicate TalliesHealth(rules: Rules, counts: map<string, nat>, pods: seq<Pod>) {
    forall k | k != "" :: CountAt(counts, k) == HealthyCount(rules, pods, k)
  }

  function CountAt(counts: map<string, nat>, k: string): nat { if k in counts then counts[k] else 0 }

  method HealthyByOwner(ghost rules: Rules, live: Snapshot, runningIsHealthy: bool) returns (counts: map<string, nat>)
    requires rules.runningIsHealthy == runningIsHealthy
    ensures TalliesHealth(rules, counts, live.pods)
  {
    counts := map[];
    for i := 0 to |live.pods|
      invariant TalliesHealth(rules, counts, live.pods[..i])
    {
      var p := live.pods[i];
      var k := OwnerKey(p);
      ghost var was := counts;
      if k != "" && Healthy(p, runningIsHealthy) {
        counts := counts[k := CountAt(counts, k) + 1];
      }
      HealthTallied(rules, was, counts, live.pods, i);
    }
    assert live.pods[..|live.pods|] == live.pods;
  }

  lemma {:induction false} HealthTallied(rules: Rules, was: map<string, nat>, counts: map<string, nat>, pods: seq<Pod>,
                                         i: nat)
    requires i < |pods| && TalliesHealth(rules, was, pods[..i])
    requires var k := OwnerKey(pods[i]);
      counts == if k != "" && Healthy(pods[i], rules.runningIsHealthy) then was[k := CountAt(was, k) + 1] else was
    ensures TalliesHealth(rules, counts, pods[..i + 1])
  {
    assert pods[..i + 1][..i] == pods[..i];
    forall k | k != "" ensures CountAt(counts, k) == HealthyCount(rules, pods[..i + 1], k) {
      assert CountAt(was, k) == HealthyCount(rules, pods[..i], k);
      assert HealthyCount(rules, pods[..i + 1], k) == HealthyCount(rules, pods[..i], k) + HealthyOf(rules, k)(pods[i]);
    }
  }

  // -------------------------------------------------------------------- waiting

  ghost predicate Extends(was: seq<Call>, now: seq<Call>) {
    |was| <= |now| && forall k | 0 <= k < |was| :: now[k] == was[k]
  }

  /** Only work under a cordon was added. */
  ghost predicate OnlyWork(was: seq<Call>, now: seq<Call>) {
    Extends(was, now) && forall k | |was| <= k < |now| :: UnderCordon(now[k])
  }

  /** The monitor lets an uncordon of this node end the step. */
  ghost predicate Undoable(w: Watch, node: string, refused: bool) {
    AfterUncordon(w, node) == Some(w.(phase := Ending(refused), latest := None))
  }

  /** The pace a converge run had is untouched by work under a cordon. */
  ghost predicate Steady(p: Option<Pace>, q: Option<Pace>) {
    p.Some? && !p.value.settling ==>
      q.Some? && q.value == p.value.(read := q.value.read, asked := q.value.asked, willing := q.value.willing)
  }

  method WaitGone(world: World, pod: Pod) returns (gone: bool)
    requires world.Watching().Some? && world.Watching().value.phase.Draining?
    requires world.Watching().value.phase.awaiting == Some(pod)
    modifies world
    ensures world.Watching().Some? && Steady(old(world.Pacing()), world.Pacing())
    ensures OnlyWork(old(world.trace), world.trace)
    ensures var w0, w := old(world.Watching().value), world.Watching().value;
      if gone then w == w0.(phase := w0.phase.(awaiting := None))
      else Undoable(w, w0.phase.node, false) && w.drained == w0.drained
  {
    var polls: nat := *;
    while true
      invariant world.Watching() == old(world.Watching())
      invariant Steady(old(world.Pacing()), world.Pacing()) && OnlyWork(old(world.trace), world.trace)
      decreases polls
    {
      var present := world.PodPresent(pod.namespace, pod.name);
      if present.None? { return false; }
      if !present.value { return true; }
      var cancelled: bool := *;
      if polls == 0 || cancelled { return false; }
      polls := polls - 1;
    }
  }

  /** Whether every affected workload has the healthy pods it started with; Go visits them in any order. */
  method NoneLags(ghost rules: Rules, ghost opening: Snapshot, ghost live: Snapshot, before: map<string, nat>,
                  now: map<string, nat>, affected: set<string>)
    returns (ok: bool)
    requires TalliesHealth(rules, before, opening.pods) && TalliesHealth(rules, now, live.pods) && "" !in affected
    ensures ok <==> Recovered(rules, opening, live, affected)
  {
    var todo := affected;
    ok := true;
    while todo != {}
      invariant todo <= affected
      invariant ok <==> forall k | k in affected - todo ::
          HealthyCount(rules, live.pods, k) >= HealthyCount(rules, opening.pods, k)
      decreases |todo|
    {
      var owner :| owner in todo;
      if CountAt(now, owner) < CountAt(before, owner) { ok := false; }
      todo := todo - {owner};
    }
  }

  method VerifyRecovered(world: World, cfg: Settings, ghost opening: Snapshot, before: map<string, nat>,
                         affected: set<string>)
    returns (ok: bool)
    requires world.Watching().Some? && world.Watching().value.phase.Draining?
    requires var ph := world.Watching().value.phase;
      ph.opening == opening && ph.left == [] && ph.awaiting.None? && ph.owed == affected && !ph.recovered
    requires "" !in affected && TalliesHealth(world.rules, before, opening.pods)
    requires world.rules.runningIsHealthy == cfg.runningIsHealthy
    modifies world
    ensures world.Watching().Some? && Steady(old(world.Pacing()), world.Pacing())
    ensures OnlyWork(old(world.trace), world.trace)
    ensures var w0, w := old(world.Watching().value), world.Watching().value;
      && w.drained == w0.drained
      && if ok then w.phase.Draining? && w.phase.node == w0.phase.node && Settled(w.phase)
         else Undoable(w, w0.phase.node, false)
  {
    if affected == {} { return true; }
    var polls: nat := *;
    while true
      invariant world.Watching().Some? && Steady(old(world.Pacing()), world.Pacing())
      invariant OnlyWork(old(world.trace), world.trace)
      invariant var w0, w := old(world.Watching().value), world.Watching().value;
        && w.drained == w0.drained && w.phase == w0.phase
      decreases polls
    {
      var live := world.ReadCluster();
      if live.None? { return false; }
      var now := HealthyByOwner(world.rules, live.value, cfg.runningIsHealthy);
      var whole := NoneLags(world.rules, opening, live.value, before, now, affected);
      if whole { return true; }
      var cancelled: bool := *;
      if polls == 0 || cancelled { return false; }
      polls := polls - 1;
    }
  }

  // ------------------------------------------------------------------------ one step

  /** The eviction of a pod the read just taken lets go, and the wait for it to be gone. */
  method EvictFound(world: World, pod: Pod, affected: set<string>, ghost opening: Snapshot, ghost node: string,
                    ghost left: seq<Pod>)
    returns (end: StepEnd, affected': set<string>)
    requires left != [] && left[0] == pod && "" !in affected
    requires world.Watching().Some? && world.Watching().value.latest.Some?
      && world.Watching().value.phase == Draining(node, opening, left, affected, None, false)
    modifies world
    ensures world.Watching().Some? && Steady(old(world.Pacing()), world.Pacing())
    ensures OnlyWork(old(world.trace), world.trace)
    ensures "" !in affected' && world.Watching().value.drained == old(world.Watching().value.drained)
    ensures var w := world.Watching().value;
      match end
      case Completed => w.phase == Draining(node, opening, left[1..], affected', None, false)
      case Turned => Undoable(w, node, true)
      case Broke => Undoable(w, node, false)
  {
    affected' := affected;
    var reply := world.EvictPod(pod.namespace, pod.name);
    if reply == Refused { return Turned, affected'; }
    if reply == Errored { return Broke, affected'; }
    if OwnerKey(pod) != "" { affected' := affected' + {OwnerKey(pod)}; }
    var gone := WaitGone(world, pod);
    end := if gone then Completed else Broke;
  }

  /** One pod of a drain, on a fresh read: evicted and seen gone, or found gone already. */
  method EvictNext(world: World, pod: Pod, affected: set<string>, ghost opening: Snapshot, ghost node: string,
                   ghost left: seq<Pod>)
    returns (end: StepEnd, affected': set<string>)
    requires left != [] && left[0] == pod && "" !in affected
    requires world.Watching().Some?
      && world.Watching().value.phase == Draining(node, opening, left, affected, None, false)
    modifies world
    ensures world.Watching().Some? && Steady(old(world.Pacing()), world.Pacing())
    ensures OnlyWork(old(world.trace), world.trace)
    ensures "" !in affected' && world.Watching().value.drained == old(world.Watching().value.drained)
    ensures var w := world.Watching().value;
      match end
      case Completed => w.phase == Draining(node, opening, left[1..], affected', None, false)
      case Turned => Undoable(w, node, true)
      case Broke => Undoable(w, node, false)
  {
    affected' := affected;
    var live := world.ReadCluster();
    if live.None? { return Broke, affected'; }
    var current := FindPod(live.value, pod.namespace, pod.name);
    if current.None? { return Completed, affected'; }
    var verdict := CheckEviction(current.value, live.value);
    if verdict.Blocked? { return Turned, affected'; }
    end, affected' := EvictFound(world, pod, affected, opening, node, left);
  }

  /** Evicts every movable pod on the cordoned node, one at a time, each on a fresh read. */
  method EvictEach(world: World, pods: seq<Pod>, ghost opening: Snapshot, ghost node: string)
    returns (end: StepEnd, affected: set<string>)
    requires world.Watching().Some? && world.Watching().value.phase == Draining(node, opening, pods, {}, None, false)
    modifies world
    ensures world.Watching().Some? && Steady(old(world.Pacing()), world.Pacing())
    ensures OnlyWork(old(world.trace), world.trace)
    ensures "" !in affected && world.Watching().value.drained == old(world.Watching().value.drained)
    ensures var w := world.Watching().value;
      match end
      case Completed => w.phase == Draining(node, opening, [], affected, None, false)
      case Turned => Undoable(w, node, true)
      case Broke => Undoable(w, node, false)
  {
    affected := {};
    for i := 0 to |pods|
      invariant world.Watching().Some? && Steady(old(world.Pacing()), world.Pacing())
      invariant OnlyWork(old(world.trace), world.trace)
      invariant "" !in affected && world.Watching().value.drained == old(world.Watching().value.drained)
      invariant world.Watching().value.phase == Draining(node, opening, pods[i..], affected, None, false)
    {
      assert pods[i..][0] == pods[i] && pods[i..][1..] == pods[i + 1..];
      end, affected := EvictNext(world, pods[i], affected, opening, node, pods[i..]);
      if end != Completed { return; }
    }
    end := Completed;
  }

  /** The work under a cordon: evict, wait, verify. */
  method Drain(world: World, cfg: Settings, node: string) returns (end: StepEnd)
    requires world.Watching().Some? && world.Watching().value.phase == Opening(node)
    requires world.rules.runningIsHealthy == cfg.runningIsHealthy
    modifies world
    ensures world.Watching().Some? && Steady(old(world.Pacing()), world.Pacing())
    ensures OnlyWork(old(world.trace), world.trace)
    ensures world.Watching().value.drained == old(world.Watching().value.drained)
    ensures var w := world.Watching().value;
      match end
      case Completed => w.phase.Draining? && w.phase.node == node && Settled(w.phase)
      case Turned => Undoable(w, node, true)
      case Broke => Undoable(w, node, false)
  {
    var live := world.ReadCluster();
    if live.None? { return Broke; }
    var before := HealthyByOwner(world.rules, live.value, cfg.runningIsHealthy);
    var pods := MovablePodsOn(live.value, node);
    var affected;
    end, affected := EvictEach(world, pods, live.value, node);
    if end != Completed { return; }
    end := Confirm(world, cfg, live.value, before, affected, node);
  }

  /** The end of a drain: every affected workload is whole again, and the drain is recorded if anyone keeps record. */
  method Confirm(world: World, cfg: Settings, ghost opening: Snapshot, before: map<string, nat>, affected: set<string>,
                 ghost node: string)
    returns (end: StepEnd)
    requires world.Watching().Some?
      && world.Watching().value.phase == Draining(node, opening, [], affected, None, false)
    requires "" !in affected && TalliesHealth(world.rules, before, opening.pods)
    requires world.rules.runningIsHealthy == cfg.runningIsHealthy
    modifies world
    ensures world.Watching().Some? && Steady(old(world.Pacing()), world.Pacing())
    ensures OnlyWork(old(world.trace), world.trace)
    ensures world.Watching().value.drained == old(world.Watching().value.drained)
    ensures var w := world.Watching().value;
      match end
      case Completed => w.phase.Draining? && w.phase.node == node && Settled(w.phase)
      case Turned => false
      case Broke => Undoable(w, node, false)
  {
    var ok := VerifyRecovered(world, cfg, opening, before, affected);
    if !ok { return Broke; }
    if cfg.tracksDrains { var _ := world.ReadCluster(); }
    end := Completed;
  }

  /** The eviction checks of a dry run, all on the one read. */
  method Rehearse(live: Snapshot, node: string) returns (refused: bool)
    ensures refused <==> !AllEvictable(MovableOn(live.pods, node), live)
  {
    var pods := MovablePodsOn(live, node);
    for i := 0 to |pods|
      invariant forall p | p in pods[..i] :: MayEvict(p, live)
    {
      var verdict := CheckEviction(pods[i], live);
      if verdict.Blocked? {
        assert pods[i] in pods;
        return true;
      }
    }
    assert pods[..|pods|] == pods;
    refused := false;
  }

  /** The run is between steps, with this many nodes drained. */
  ghost predicate Between(w: Option<Watch>, drained: seq<string>) {
    w.Some? && w.value.phase.Idle? && w.value.cleared.None? && w.value.drained == drained
  }

  /** How a step leaves the run. */
  ghost predicate StepEnds(end: StepEnd, w: Option<Watch>, drained: seq<string>, node: string) {
    match end
    case Completed => Between(w, drained + [node])
    case Turned => w.Some? && w.value.phase == Ending(true) && w.value.drained == drained
    case Broke => w.Some? && w.value.phase == Ending(false) && w.value.drained == drained
  }

  /** What a step does to a converge run's pace: the step it was due for is no longer due. */
  ghost predicate PaceEnds(end: StepEnd, p: Option<Pace>, q: Option<Pace>, step: RatedStep) {
    p.Some? && !p.value.settling && p.value.due == Some(step) ==>
      && q.Some? && q.value.targets == p.value.targets
      && (end.Completed? ==> q.value.due.None? && q.value.settling && q.value.before == p.value.before)
  }

  ghost predicate PaceKept(p: Option<Pace>, q: Option<Pace>, step: RatedStep) {
    p.Some? && p.value.due == Some(step) ==>
        q == Some(p.value.(read := None, settling := false, asked := false, willing := false))
  }

  /** The calls one step adds: a read, the consultation made on it, and after that no other consultation, no question
      and no plan, and no read but under a cordon. */
  ghost predicate StepCalls(was: seq<Call>, now: seq<Call>) {
    && Extends(was, now) && |was| < |now| && now[|was|].Read? && (|was| + 1 < |now| ==> now[|was| + 1].Consulted?)
    && forall k | |was| + 1 < k < |now| ::
         && !now[k].Consulted? && !now[k].Asked? && !now[k].Planned? && !now[k].Finish?
         && (now[k].Read? ==> now[k - 1].Cordon? || UnderCordon(now[k - 1]))
  }

  /** Cordoning and draining adds a cordon, work under it, and at most one call more. */
  ghost predicate DrainCalls(was: seq<Call>, now: seq<Call>) {
    && Extends(was, now) && |was| < |now| && now[|was|].Cordon?
    && (forall k | |was| < k < |now| - 1 :: UnderCordon(now[k]))
    && (now[|now| - 1].Cordon? || now[|now| - 1].Uncordon? || now[|now| - 1].Drained?)
  }

  /** The gate: the guard's verdict on a step, against a read taken just now. */
  method ConsultGuard(world: World, cfg: Settings, dryRun: bool, step: RatedStep, live: LiveSnapshot, soFar: nat)
      returns (allowed: bool)
    requires world.rules == RulesOf(cfg, dryRun)
    requires world.Watching().Some? && Between(world.Watching(), world.Watching().value.drained)
    requires |world.Watching().value.drained| == soFar
    requires world.Watching().value.latest == Some(live)
    modifies world
    ensures world.Watching().Some? && PaceKept(old(world.Pacing()), world.Pacing(), step)
    ensures |world.trace| == |old(world.trace)| + 1 && Extends(old(world.trace), world.trace)
    ensures world.trace[|old(world.trace)|].Consulted?
    ensures var w0, w := old(world.Watching().value), world.Watching().value;
      if !allowed || (dryRun && !AllEvictable(MovableOn(live.pods, step.targetNode), live))
      then w.phase == Ending(true) && w.drained == w0.drained
      else w == w0.(cleared := Some(step))
  {
    var open: bool := *;
    var window := if cfg.hasWindows then Some(open) else None;
    var verdict := CheckStep(cfg.limits, window, step, live, soFar);
    allowed := verdict.Allowed?;
    world.Log(Consulted(step, window, allowed));
  }

  method CordonAndDrain(world: World, cfg: Settings, step: RatedStep) returns (end: StepEnd)
    requires world.rules.runningIsHealthy == cfg.runningIsHealthy && !world.rules.dryRun
    requires world.Watching().Some? && world.Watching().value.phase.Idle?
      && world.Watching().value.cleared == Some(step)
    modifies world
    ensures StepEnds(end, world.Watching(), old(world.Watching().value.drained), step.targetNode)
    ensures PaceEnds(end, old(world.Pacing()), world.Pacing(), step)
    ensures DrainCalls(old(world.trace), world.trace)
  {
    var ok := world.CordonNode(step.targetNode);
    if !ok { return Broke; }
    end := Drain(world, cfg, step.targetNode);
    if end != Completed {
      var _ := world.UncordonNode(step.targetNode);
      return;
    }
    world.Log(Drained(step.targetNode));
  }

  /** A dry run's step, once the guard has let it through: the eviction checks, and nothing touched. */
  method RehearseStep(world: World, step: RatedStep, live: Snapshot) returns (end: StepEnd)
    requires world.rules.dryRun && world.Watching().Some?
    requires var w := world.Watching().value;
      if AllEvictable(MovableOn(live.pods, step.targetNode), live) then w.phase.Idle? && w.cleared == Some(step)
      else w.phase == Ending(true)
    modifies world
    ensures StepEnds(end, world.Watching(), old(world.Watching().value.drained), step.targetNode)
    ensures PaceEnds(end, old(world.Pacing()), world.Pacing(), step)
    ensures world.trace == old(world.trace) || world.trace == old(world.trace) + [Drained(step.targetNode)]
  {
    var refused := Rehearse(live, step.targetNode);
    if refused { return Turned; }
    world.Log(Drained(step.targetNode));
    end := Completed;
  }

  method PerformStep(world: World, cfg: Settings, dryRun: bool, step: RatedStep, soFar: nat) returns (end: StepEnd)
    requires world.rules == RulesOf(cfg, dryRun)
    requires world.Watching().Some? && Between(world.Watching(), world.Watching().value.drained)
    requires |world.Watching().value.drained| == soFar
    modifies world
    ensures StepEnds(end, world.Watching(), old(world.Watching().value.drained), step.targetNode)
    ensures PaceEnds(end, old(world.Pacing()), world.Pacing(), step)
    ensures StepCalls(old(world.trace), world.trace)
  {
    ghost var was := world.trace;
    var live := world.ReadCluster();
    if live.None? { return Broke; }
    var allowed := ConsultGuard(world, cfg, dryRun, step, live.value, soFar);
    ghost var judged := world.trace;
    if !allowed { return Turned; }
    if dryRun { end := RehearseStep(world, step, live.value); } else { end := CordonAndDrain(world, cfg, step); }
    StepJoined(was, live, judged, world.trace, step.targetNode);
  }

  lemma {:induction false} StepJoined(was: seq<Call>, live: Option<Snapshot>, judged: seq<Call>, now: seq<Call>,
                                      node: string)
    requires Extends(was + [Read(live)], judged) && |judged| == |was| + 2 && judged[|was| + 1].Consulted?
    requires now == judged || now == judged + [Drained(node)] || DrainCalls(judged, now)
    ensures StepCalls(was, now)
  {
    assert (was + [Read(live)])[|was|] == Read(live) && forall k | 0 <= k < |was| :: (was + [Read(live)])[k] == was[k];
    assert judged[|was|] == Read(live);
  }

  // ------------------------------------------------------------------------ whole runs

  /** The run has been closed with this status, having drained these nodes, by calls the monitor allows throughout. */
  ghost predicate RunClosed(world: World, status: Status, drained: seq<string>)
    reads world
  {
    world.Watching().Some? && world.Watching().value.phase == Closed(status)
    && world.Watching().value.drained == drained
  }

  method Close(world: World, status: Status)
    requires world.Watching().Some? && AfterFinish(world.Watching().value, status).Some?
    modifies world
    ensures world.trace == old(world.trace) + [Finish(status)]
    ensures RunClosed(world, status, old(world.Watching().value.drained))
    ensures old(world.Pacing()).Some? ==> world.Pacing().Some?
  {
    world.Log(Finish(status));
  }

  /** Closes a run that cannot begin. */
  method CloseUnstarted(world: World)
    requires world.trace == []
    modifies world
    ensures world.trace == [Finish(RunFailed)] && RunClosed(world, RunFailed, [])
    ensures ClosedForCause(world.rules, world.trace, RunFailed) && !StopAsked(world.trace)
  {
    Close(world, RunFailed);
    StatusHasCause(world.rules, world.trace, RunFailed);
  }

  function StatusOf(end: StepEnd): Status {
    match end case Completed => RunSucceeded case Turned => RunBlocked case Broke => RunFailed
  }

  method FindStep(plan: seq<RatedStep>, number: int) returns (step: Option<RatedStep>)
    ensures step == StepNumbered(plan, number)
  {
    for i := 0 to |plan|
      invariant StepNumbered(plan, number) == StepNumbered(plan[i..], number)
    {
      assert plan[i..][1..] == plan[i + 1..];
      if plan[i].sequenceNumber == number { return Some(plan[i]); }
    }
    step := None;
  }

  /** The first step of the plan with this number. */
  function StepNumbered(plan: seq<RatedStep>, number: int): (step: Option<RatedStep>)
    ensures step.None? ==> forall s | s in plan :: s.sequenceNumber != number
    ensures step.Some? ==> exists k | 0 <= k < |plan| ::
      plan[k] == step.value && step.value.sequenceNumber == number
      && forall j | 0 <= j < k :: plan[j].sequenceNumber != number
  {
    if plan == [] then None
    else if plan[0].sequenceNumber == number then Some(plan[0])
    else StepNumbered(plan[1..], number)
  }

  /** Node k drained is the target of the k-th requested step. */
  ghost predicate AsRequested(plan: seq<RatedStep>, steps: seq<int>, drained: seq<string>) {
    && |drained| <= |steps|
    && forall k | 0 <= k < |drained| ::
         StepNumbered(plan, steps[k]).Some? && StepNumbered(plan, steps[k]).value.targetNode == drained[k]
  }

  /** Every read but those under a cordon directly follows a question that was not answered by a stop, and so does the
      read each consultation was made on. */
  ghost predicate AsksFirst(trace: seq<Call>) {
    && (forall i | 0 <= i < |trace| && trace[i].Read? ::
          0 < i && (trace[i - 1] == Asked(false) || trace[i - 1].Cordon? || UnderCordon(trace[i - 1])))
    && (forall i | 0 <= i < |trace| && trace[i].Consulted? ::
          2 <= i && trace[i - 1].Read? && trace[i - 2] == Asked(false))
  }

  lemma {:induction false} StepAsksFirst(was: seq<Call>, now: seq<Call>)
    requires AsksFirst(was) && was != [] && was[|was| - 1] == Asked(false) && StepCalls(was, now)
    ensures AsksFirst(now)
  {
  }

  /** The step asked for next is not in the plan. */
  ghost predicate StepMissing(plan: seq<RatedStep>, steps: seq<int>, drained: seq<string>) {
    |drained| < |steps| && forall s | s in plan :: s.sequenceNumber != steps[|drained|]
  }

  /** A run of approved plan steps; `plan` is what the store had under the run's plan, if it could be loaded. */
  method Perform(world: World, cfg: Settings, dryRun: bool, plan: Option<seq<RatedStep>>, steps: seq<int>)
    returns (status: Status, ghost drained: seq<string>)
    requires world.trace == [] && world.rules == RulesOf(cfg, dryRun)
    modifies world
    ensures RunClosed(world, status, drained) && ClosedForCause(world.rules, world.trace, status)
    ensures plan.None? ==> status == RunFailed && drained == []
    ensures plan.Some? ==>
      && AsRequested(plan.value, steps, drained) && (status == RunSucceeded <==> |drained| == |steps|)
      && (status == RunFailed <==>
            StepBroke(world.rules, world.trace)
            || (StepMissing(plan.value, steps, drained) && !StopAsked(world.trace)))
    ensures AsksFirst(world.trace)
  {
    drained := [];
    if plan.None? {
      CloseUnstarted(world);
      return RunFailed, drained;
    }
    status, drained := PerformSteps(world, cfg, dryRun, plan.value, steps);
    StatusHasCause(world.rules, world.trace, status);
  }

  /** Closes a run whose every step asked first. */
  method CloseAsking(world: World, status: Status)
    requires world.Watching().Some? && AfterFinish(world.Watching().value, status).Some? && AsksFirst(world.trace)
    requires status == RunFailed ==>
      world.Watching().value.phase == Ending(false) || world.Watching().value.phase == Idle
    modifies world
    ensures AsksFirst(world.trace) && RunClosed(world, status, old(world.Watching().value.drained))
    ensures status == RunFailed && old(world.Watching().value.phase) == Ending(false) ==>
      StepBroke(world.rules, world.trace)
  {
    if world.Watching().value.phase == Ending(false) { GivenUpBroke(world.rules, world.trace, Finish(status)); }
    Close(world, status);
  }

  /** One step of a run, which it closes unless the step completes. */
  method AttemptStep(world: World, cfg: Settings, dryRun: bool, step: RatedStep, soFar: nat, ghost drained: seq<string>)
    returns (over: Option<Status>)
    requires world.rules == RulesOf(cfg, dryRun) && Between(world.Watching(), drained) && |drained| == soFar
    requires AsksFirst(world.trace) && world.trace != [] && world.trace[|world.trace| - 1] == Asked(false)
    modifies world
    ensures AsksFirst(world.trace)
    ensures over.None? ==> Between(world.Watching(), drained + [step.targetNode])
    ensures over.Some? ==>
        RunClosed(world, over.value, drained) && (over.value == RunBlocked || over.value == RunFailed)
    ensures over == Some(RunFailed) ==> StepBroke(world.rules, world.trace)
  {
    ghost var was := world.trace;
    var end := PerformStep(world, cfg, dryRun, step, soFar);
    StepAsksFirst(was, world.trace);
    if end == Completed { return None; }
    CloseAsking(world, StatusOf(end));
    over := Some(StatusOf(end));
  }

  /** How a run of requested steps closes short of its last step. */
  ghost predicate ClosedShort(world: World, plan: seq<RatedStep>, steps: seq<int>, status: Status, drained: seq<string>)
    reads world
  {
    && RunClosed(world, status, drained) && status != RunSucceeded
    && (status == RunFailed ==> StepBroke(world.rules, world.trace) || StepMissing(plan, steps, drained))
    && (status == RunBlocked ==> !StepMissing(plan, steps, drained))
  }

  /** The next requested step: asked for, looked up, attempted. */
  method TakeStep(world: World, cfg: Settings, dryRun: bool, plan: seq<RatedStep>, steps: seq<int>, i: nat,
                  ghost drained: seq<string>)
    returns (over: Option<Status>, ghost target: string)
    requires world.rules == RulesOf(cfg, dryRun) && Between(world.Watching(), drained) && |drained| == i < |steps|
    requires AsksFirst(world.trace)
    modifies world
    ensures AsksFirst(world.trace)
    ensures over.Some? ==> ClosedShort(world, plan, steps, over.value, drained)
    ensures over.None? ==>
      && Between(world.Watching(), drained + [target])
      && StepNumbered(plan, steps[i]).Some? && StepNumbered(plan, steps[i]).value.targetNode == target
  {
    target := "";
    over := AskToStop(world, drained);
    if over.Some? { return; }
    var step := FindStep(plan, steps[i]);
    if step.None? {
      CloseAsking(world, RunFailed);
      return Some(RunFailed), target;
    }
    assert step.value in plan && !StepMissing(plan, steps, drained);
    over := AttemptStep(world, cfg, dryRun, step.value, i, drained);
    target := step.value.targetNode;
  }

  /** Between steps: closes the run if it was asked to stop. */
  method AskToStop(world: World, ghost drained: seq<string>) returns (over: Option<Status>)
    requires Between(world.Watching(), drained) && AsksFirst(world.trace)
    modifies world
    ensures AsksFirst(world.trace)
    ensures over.None? ==> Between(world.Watching(), drained) && world.trace == old(world.trace) + [Asked(false)]
    ensures over.Some? ==> over == Some(RunStopped) && RunClosed(world, RunStopped, drained)
  {
    var stop := world.StopRequested();
    over := None;
    if stop {
      CloseAsking(world, RunStopped);
      over := Some(RunStopped);
    }
  }

  method PerformSteps(world: World, cfg: Settings, dryRun: bool, plan: seq<RatedStep>, steps: seq<int>)
    returns (status: Status, ghost drained: seq<string>)
    requires world.trace == [] && world.rules == RulesOf(cfg, dryRun)
    modifies world
    ensures RunClosed(world, status, drained) && AsRequested(plan, steps, drained)
    ensures status == RunSucceeded <==> |drained| == |steps|
    ensures status != RunSucceeded ==> ClosedShort(world, plan, steps, status, drained)
    ensures AsksFirst(world.trace)
  {
    drained := [];
    for i := 0 to |steps|
      invariant Between(world.Watching(), drained) && |drained| == i
      invariant AsRequested(plan, steps, drained) && AsksFirst(world.trace)
    {
      var over;
      ghost var target;
      over, target := TakeStep(world, cfg, dryRun, plan, steps, i, drained);
      if over.Some? { return over.value, drained; }
      drained := drained + [target];
    }
    CloseAsking(world, RunSucceeded);
    status := RunSucceeded;
  }

  /** The first read of a guarded drain answered, and has no such node. */
  ghost predicate NodeMissing(trace: seq<Call>, node: string) {
    |trace| >= 1 && trace[0].Read? && trace[0].live.Some? && forall n | n in trace[0].live.value.nodes :: n.name != node
  }

  /** A guarded drain of one node the operator named. */
  method DrainNode(world: World, cfg: Settings, dryRun: bool, node: string)
    returns (status: Status, ghost drained: seq<string>)
    requires world.trace == [] && world.rules == RulesOf(cfg, dryRun)
    modifies world
    ensures RunClosed(world, status, drained) && ClosedForCause(world.rules, world.trace, status)
    ensures drained == if status == RunSucceeded then [node] else []
    ensures status == RunFailed <==> node == "" || NodeMissing(world.trace, node) || StepBroke(world.rules, world.trace)
    ensures !StopAsked(world.trace)
  {
    drained := [];
    if node == "" {
      CloseUnstarted(world);
      return RunFailed, drained;
    }
    status, drained := DrainNamed(world, cfg, dryRun, node);
    StatusHasCause(world.rules, world.trace, status);
  }

  method DrainNamed(world: World, cfg: Settings, dryRun: bool, node: string)
    returns (status: Status, ghost drained: seq<string>)
    requires world.trace == [] && world.rules == RulesOf(cfg, dryRun) && node != ""
    modifies world
    ensures RunClosed(world, status, drained) && status != RunStopped
    ensures drained == if status == RunSucceeded then [node] else []
    ensures status == RunFailed <== NodeMissing(world.trace, node)
    ensures status == RunFailed ==> NodeMissing(world.trace, node) || StepBroke(world.rules, world.trace)
  {
    drained := [];
    var live := world.ReadCluster();
    if live.None? {
      CloseHalted(world, RunFailed);
      return RunFailed, drained;
    }
    var found := NodeByName(live.value, node);
    if found.None? {
      Close(world, RunFailed);
      return RunFailed, drained;
    }
    assert found.value in live.value.nodes;
    var pods := MovablePodsOn(live.value, node);
    var planned := PlanStep(1, node, seq(|pods|, i requires 0 <= i < |pods| => MoveOf(pods[i], node, "")));
    var step := Rated(planned, cfg.rate(live.value, [planned], 0));
    world.Log(Planned(step));
    ghost var was := world.trace;
    var end := PerformStep(world, cfg, dryRun, step, 0);
    assert world.trace[0] == was[0];
    CloseHalted(world, StatusOf(end));
    status, drained := StatusOf(end), if end.Completed? then [node] else [];
  }

  /** The first step of a plan made now whose target this run has not drained, with the classifier's rating. */
  method PlanOneStep(cfg: Settings, live: LiveSnapshot, skip: set<string>) returns (step: Option<RatedStep>)
    ensures step.None? ==> forall s | s in Proposed(cfg, live) :: s.targetNode in skip
    ensures step.Some? ==> IsChoice(cfg, live, skip, step.value) && step.value.targetNode !in skip
  {
    var plan := MakePlan(live, cfg.analyze(live), cfg.planner);
    for i := 0 to |plan.steps|
      invariant forall j | 0 <= j < i :: plan.steps[j].targetNode in skip
    {
      if plan.steps[i].targetNode !in skip {
        assert IsNext(cfg, live, skip, i);
        return Some(Rated(plan.steps[i], cfg.rate(live, plan.steps, i)));
      }
    }
    step := None;
  }

  method OccupiedNodes(live: Snapshot) returns (count: nat)
    ensures count == Occupied(live)
  {
    var occupied := {};
    for i := 0 to |live.pods|
      invariant occupied == OccupiedBy(live.pods[..i])
    {
      var p := live.pods[i];
      assert live.pods[..i + 1] == live.pods[..i] + [p];
      if p.nodeName != "" && p.IsMovable() { occupied := occupied + {p.nodeName}; }
    }
    assert live.pods[..|live.pods|] == live.pods;
    count := |occupied|;
  }

  /** The converge run between rounds: the targets planned are the nodes drained, and nothing is due. */
  ghost predicate BetweenRounds(world: World, drained: seq<string>, round: nat)
    reads world
  {
    && Between(world.Watching(), drained) && |drained| == round
    && world.Pacing().Some? && world.Pacing().value.due.None? && world.Pacing().value.fell
    && !world.Pacing().value.settling && world.Pacing().value.targets == drained
  }

  /** What a planned, executed step leaves behind: another round may only be planned once a read shows fewer occupied
      nodes. */
  ghost predicate Settling(world: World, drained: seq<string>, round: nat, before: int)
    reads world
  {
    && Between(world.Watching(), drained) && |drained| == round
    && world.Pacing().Some? && world.Pacing().value.due.None? && world.Pacing().value.settling
    && world.Pacing().value.before == before && world.Pacing().value.targets == drained
  }

  /** The run has a course, and its calls are those it is bound to. */
  ghost predicate OnCourse(world: World, cfg: Settings, dryRun: bool, env: Envelope)
    reads world
  {
    world.rules == RulesOf(cfg, dryRun) && world.course == Course(env, Chooser(cfg))
  }

  method ExecuteRound(world: World, cfg: Settings, dryRun: bool, env: Envelope, step: RatedStep, soFar: nat,
                      ghost before: int, ghost drained: seq<string>)
    returns (end: StepEnd)
    requires OnCourse(world, cfg, dryRun, env) && BetweenRounds(world, drained, soFar)
    requires MayPlan(world.course, world.Pacing().value, step) && Occupied(world.Pacing().value.read.value) == before
    modifies world
    ensures end == Completed ==> Settling(world, drained + [step.targetNode], soFar + 1, before)
    ensures StepEnds(end, world.Watching(), drained, step.targetNode) && world.Pacing().Some?
  {
    world.Log(Planned(step));
    end := PerformStep(world, cfg, dryRun, step, soFar);
  }

  method NextStep(cfg: Settings, live: LiveSnapshot, skip: set<string>, ceiling: Impact)
    returns (step: Option<RatedStep>)
    requires ceiling == Green || ceiling == Yellow
    ensures step.Some? ==>
      IsChoice(cfg, live, skip, step.value) && step.value.targetNode !in skip
      && !ExceedsCeiling(step.value.impact, ceiling)
    ensures step.None? ==> Exhausted(cfg, ceiling, live, skip)
  {
    step := PlanOneStep(cfg, live, skip);
    if step.Some? && ExceedsCeiling(step.value.impact, ceiling) { return None; }
  }

  /** The last read before the run closed found nothing left to take. */
  ghost predicate NothingLeft(cfg: Settings, ceiling: Impact, trace: seq<Call>, drained: seq<string>) {
    && |trace| >= 2 && trace[|trace| - 2].Read? && trace[|trace| - 2].live.Some?
    && Exhausted(cfg, ceiling, trace[|trace| - 2].live.value, set t | t in drained)
  }

  /** The last read before the run closed found that the last round had freed nothing. */
  ghost predicate Churned(trace: seq<Call>) { |trace| >= 2 && FreedNothing(trace, |trace| - 2) }

  /** A converge run closes for one of these reasons: it drained all its envelope allows, or rehearsed its one round;
      nothing was left to take; or its last round freed nothing. It fails only if a step or a read did. */
  ghost predicate ConvergedFor(cfg: Settings, env: Envelope, dryRun: bool, trace: seq<Call>, status: Status,
                               drained: seq<string>)
  {
    && (status == RunSucceeded ==>
          || |drained| == (if dryRun then 1 else if env.maxNodes < 50 then env.maxNodes else 50)
          || NothingLeft(cfg, env.maxImpact, trace, drained)
          || (!dryRun && Churned(trace)))
    && (status == RunFailed ==> StepBroke(RulesOf(cfg, dryRun), trace))
  }

  /** The head of a round: a stop, a failed read, nothing worth doing within the envelope, or a step to take. */
  method Observing(world: World, cfg: Settings, dryRun: bool, env: Envelope, visited: set<string>, ghost round: nat,
                   ghost drained: seq<string>)
    returns (halt: Option<Status>, step: Option<RatedStep>, occBefore: nat)
    requires OnCourse(world, cfg, dryRun, env) && ValidEnvelope(env) && round < Rounds(env)
    requires BetweenRounds(world, drained, round) && visited == set t | t in drained
    modifies world
    ensures world.Watching().Some? && world.Watching().value.drained == drained && world.Pacing().Some?
    ensures halt.Some? ==> AfterFinish(world.Watching().value, halt.value).Some?
    ensures halt == Some(RunFailed) ==> world.Watching().value.phase == Ending(false)
    ensures halt == Some(RunSucceeded) ==>
        NothingLeft(cfg, env.maxImpact, world.trace + [Finish(RunSucceeded)], drained)
    ensures halt.None? ==>
      && step.Some? && BetweenRounds(world, drained, round)
      && MayPlan(world.course, world.Pacing().value, step.value)
      && Occupied(world.Pacing().value.read.value) == occBefore
  {
    step, occBefore := None, 0;
    var stop := world.StopRequested();
    if stop { return Some(RunStopped), step, occBefore; }
    var live := world.ReadCluster();
    if live.None? { return Some(RunFailed), step, occBefore; }
    occBefore := OccupiedNodes(live.value);
    step := NextStep(cfg, live.value, visited, env.maxImpact);
    halt := if step.None? then Some(RunSucceeded) else None;
  }

  /** One round; `over` is the run's status when it ends here. */
  method Round(world: World, cfg: Settings, dryRun: bool, env: Envelope, visited: set<string>, soFar: nat,
               ghost drained: seq<string>)
    returns (over: Option<Status>, visited': set<string>, ghost drained': seq<string>)
    requires OnCourse(world, cfg, dryRun, env) && ValidEnvelope(env) && soFar < Rounds(env) && (dryRun ==> soFar == 0)
    requires BetweenRounds(world, drained, soFar) && visited == set t | t in drained
    modifies world
    ensures over.Some? ==>
      && RunClosed(world, over.value, drained') && world.Pacing().Some? && |drained'| <= soFar + 1
      && ConvergedFor(cfg, env, dryRun, world.trace, over.value, drained')
    ensures over.None? ==>
      BetweenRounds(world, drained', soFar + 1) && visited' == (set t | t in drained') && !dryRun
  {
    visited', drained' := visited, drained;
    var halt, step, occBefore := Observing(world, cfg, dryRun, env, visited, soFar, drained);
    if halt.Some? {
      CloseHalted(world, halt.value);
      return halt, visited', drained';
    }
    over, visited', drained' := TakeRound(world, cfg, dryRun, env, step.value, visited, soFar, occBefore, drained);
  }

  /** The rest of a round, once there is a step to take. */
  method TakeRound(world: World, cfg: Settings, dryRun: bool, env: Envelope, step: RatedStep, visited: set<string>,
                   soFar: nat, occBefore: nat, ghost drained: seq<string>)
    returns (over: Option<Status>, visited': set<string>, ghost drained': seq<string>)
    requires OnCourse(world, cfg, dryRun, env) && (dryRun ==> soFar == 0)
    requires BetweenRounds(world, drained, soFar) && visited == set t | t in drained
    requires MayPlan(world.course, world.Pacing().value, step)
    requires Occupied(world.Pacing().value.read.value) == occBefore
    modifies world
    ensures over.Some? ==>
      && RunClosed(world, over.value, drained') && world.Pacing().Some? && |drained'| <= soFar + 1
      && ConvergedFor(cfg, env, dryRun, world.trace, over.value, drained')
    ensures over.None? ==>
      BetweenRounds(world, drained', soFar + 1) && visited' == (set t | t in drained') && !dryRun
  {
    visited', drained' := visited, drained;
    var end := ExecuteRound(world, cfg, dryRun, env, step, soFar, occBefore, drained);
    if end != Completed {
      CloseHalted(world, StatusOf(end));
      return Some(StatusOf(end)), visited', drained';
    }
    visited', drained' := visited + {step.targetNode}, drained + [step.targetNode];
    if dryRun {
      Close(world, RunSucceeded);
      return Some(RunSucceeded), visited', drained';
    }
    over := Settle(world, occBefore, soFar + 1, drained');
  }

  /** Closes a run; if it is given up, some step or read broke. */
  method CloseHalted(world: World, status: Status)
    requires world.Watching().Some? && AfterFinish(world.Watching().value, status).Some?
    requires status == RunFailed ==> world.Watching().value.phase == Ending(false)
    modifies world
    ensures world.trace == old(world.trace) + [Finish(status)]
    ensures RunClosed(world, status, old(world.Watching().value.drained))
    ensures old(world.Pacing()).Some? ==> world.Pacing().Some?
    ensures status == RunFailed ==> StepBroke(world.rules, world.trace)
  {
    if status == RunFailed { GivenUpBroke(world.rules, world.trace, Finish(status)); }
    Close(world, status);
  }

  /** The monotonic rail: goes on only if a fresh read shows fewer occupied nodes than before the round. */
  method Settle(world: World, occBefore: nat, ghost round: nat, ghost drained: seq<string>)
    returns (over: Option<Status>)
    requires Settling(world, drained, round, occBefore) && drained != []
    modifies world
    ensures over.Some? ==>
      && RunClosed(world, over.value, drained) && world.Pacing().Some?
      && (over.value == RunSucceeded ==> Churned(world.trace))
      && (over.value == RunFailed ==> StepBroke(world.rules, world.trace))
    ensures over.None? ==> BetweenRounds(world, drained, round)
  {
    ghost var was := world.trace;
    var after := world.ReadCluster();
    if after.None? {
      CloseHalted(world, RunFailed);
      return Some(RunFailed);
    }
    var occAfter := OccupiedNodes(after.value);
    if occAfter >= occBefore {
      NoFallSeen(world.course, was, after.value, RunSucceeded);
      Close(world, RunSucceeded);
      assert world.trace == was + [Read(after), Finish(RunSucceeded)];
      return Some(RunSucceeded);
    }
    over := None;
  }

  /** The operator named at least one node, and Green or Yellow. */
  predicate Consented(envelope: Option<Envelope>) {
    match envelope
    case None => false
    case Some(env) => 0 < env.maxNodes && (env.maxImpact == Green || env.maxImpact == Yellow)
  }

  /** The closed loop: observe, plan one step, execute it, settle, measure, again. */
  method Converge(world: World, cfg: Settings, dryRun: bool, envelope: Option<Envelope>)
    returns (status: Status, ghost drained: seq<string>)
    requires world.trace == [] && world.rules == RulesOf(cfg, dryRun)
    requires envelope.Some? ==> world.course == Course(envelope.value, Chooser(cfg))
    modifies world
    ensures RunClosed(world, status, drained) && ClosedForCause(world.rules, world.trace, status)
    ensures !Consented(envelope) ==> status == RunFailed && world.trace == [Finish(RunFailed)]
    ensures Consented(envelope) ==>
      && KeepsEnvelope(world.course, world.trace)
      && ConvergedFor(cfg, envelope.value, dryRun, world.trace, status, drained)
    ensures dryRun ==> |drained| <= 1
  {
    drained := [];
    if envelope.None? || !ValidEnvelope(envelope.value) {
      CloseUnstarted(world);
      return RunFailed, drained;
    }
    status, drained := RunRounds(world, cfg, dryRun, envelope.value);
  }

  method RunRounds(world: World, cfg: Settings, dryRun: bool, env: Envelope)
    returns (status: Status, ghost drained: seq<string>)
    requires world.trace == [] && OnCourse(world, cfg, dryRun, env) && ValidEnvelope(env)
    modifies world
    ensures RunClosed(world, status, drained) && (dryRun ==> |drained| <= 1)
    ensures ConvergedFor(cfg, env, dryRun, world.trace, status, drained)
    ensures KeepsEnvelope(world.course, world.trace) && ClosedForCause(world.rules, world.trace, status)
  {
    status, drained := LoopRounds(world, cfg, dryRun, env);
    PacedKeepsEnvelope(world.course, world.trace);
    StatusHasCause(world.rules, world.trace, status);
  }

  method LoopRounds(world: World, cfg: Settings, dryRun: bool, env: Envelope)
    returns (status: Status, ghost drained: seq<string>)
    requires world.trace == [] && OnCourse(world, cfg, dryRun, env) && ValidEnvelope(env)
    modifies world
    ensures RunClosed(world, status, drained) && world.Pacing().Some? && (dryRun ==> |drained| <= 1)
    ensures ConvergedFor(cfg, env, dryRun, world.trace, status, drained)
  {
    drained := [];
    var visited, soFar := {}, 0;
    for round := 0 to Rounds(env)
      invariant BetweenRounds(world, drained, round) && soFar == round && visited == set t | t in drained
      invariant dryRun ==> round == 0
    {
      var over;
      over, visited, drained := Round(world, cfg, dryRun, env, visited, soFar, drained);
      if over.Some? { return over.value, drained; }
      soFar := soFar + 1;
    }
    Close(world, RunSucceeded);
    status := RunSucceeded;
  }

  // ---------------------------------------------------------- what the guard adds

  /** Each cordon rests on the whole step check: cap, target, floor, window for Red, and a home for every pod. */
  lemma {:induction false} CordonPassedTheGuard(cfg: Settings, dryRun: bool, trace: seq<Call>, i: nat)
    requires Seen(RulesOf(cfg, dryRun), trace).Some? && i < |trace| && trace[i].Cordon?
    ensures 2 <= i && trace[i - 1].Consulted? && trace[i - 2].Read? && trace[i - 2].live.Some?
    ensures trace[i - 1].step.targetNode == trace[i].node
    ensures StepAllowed(cfg.limits, trace[i - 1].window, trace[i - 1].step, trace[i - 2].live.value,
                        Sum(trace[..i], Drains()))
    ensures UniqueNodes(trace[i - 2].live.value.nodes) ==>
      MayBegin(cfg.limits, trace[i - 1].window, trace[i - 1].step, trace[i - 2].live.value, Sum(trace[..i], Drains()))
  {
    CordonIsCleared(RulesOf(cfg, dryRun), trace, i);
    var live := trace[i - 2].live.value;
    if UniqueNodes(live.nodes) {
      StepAllowedExactly(cfg.limits, trace[i - 1].window, trace[i - 1].step, live, Sum(trace[..i], Drains()));
    }
  }

  /** No run of any mode cordons more nodes than its cap. */
  lemma {:induction false} CordonsWithinCap(cfg: Settings, dryRun: bool, trace: seq<Call>)
    requires Seen(RulesOf(cfg, dryRun), trace).Some? && cfg.limits.maxNodesPerRun > 0
    ensures Sum(trace, Cordons()) <= cfg.limits.maxNodesPerRun
  {
    if trace != [] {
      var front, last := trace[..|trace| - 1], |trace| - 1;
      CordonsWithinCap(cfg, dryRun, front);
      if trace[last].Cordon? {
        CordonPassedTheGuard(cfg, dryRun, trace, last);
        CordonsMatchDrains(RulesOf(cfg, dryRun), front);
      }
    }
  }
}
