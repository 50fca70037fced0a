/**
  Why runs end as they do (internal/executor/executor.go): every status an accepted trace closes with is
  tied to the calls in it that turned a step away, broke one, or answered that the run should stop.
 */
module Endings {
  import opened Model
  import opened Rails
  import opened Protocol

  // ------------------------------------------------------------------ what a call did

  /** The call turned the step away: the guard refused it, or a budget refused one of its evictions. */
  ghost predicate Refuses(rules: Rules, w: Watch, c: Call) {
    match c
    case Consulted(step, _, allowed) =>
      !allowed || (rules.dryRun && w.latest.Some? && exists p | p in w.latest.value.pods ::
        p.nodeName == step.targetNode && p.IsMovable() && !MayEvict(p, w.latest.value))
    case Evict(_, _, reply) => reply == Refused
    case Read(live) =>
      w.phase.Draining? && w.phase.awaiting.None? && w.phase.left != [] && live.Some?
      && var current := Find(live.value.pods, w.phase.left[0].namespace, w.phase.left[0].name);
         current.Some? && !MayEvict(current.value, live.value)
    case _ => false
  }

  /** The call broke the step: it failed, or it undid a cordon after waiting in vain. */
  predicate Breaks(w: Watch, c: Call) {
    match c
    case Read(live) => live.None? && (w.phase.Draining? ==> !Settled(w.phase))
    case Cordon(_, ok) => !ok
    case Evict(_, _, reply) => reply == Errored
    case Present(_, _, answer) => answer.None?
    case Uncordon(_, _) => w.phase.Draining?
    case _ => false
  }

  /** Some call of the trace turned a step away. */
  ghost predicate StepRefused(rules: Rules, trace: seq<Call>) {
    exists i | 0 <= i < |trace| ::
      Seen(rules, trace[..i]).Some? && Refuses(rules, Seen(rules, trace[..i]).value, trace[i])
  }

  /** Some call of the trace broke a step. */
  ghost predicate StepBroke(rules: Rules, trace: seq<Call>) {
    exists i | 0 <= i < |trace| :: Seen(rules, trace[..i]).Some? && Breaks(Seen(rules, trace[..i]).value, trace[i])
  }

  predicate StopAsked(trace: seq<Call>) { Asked(true) in trace }

  lemma {:induction false} OneMoreCall(rules: Rules, trace: seq<Call>, c: Call)
    requires Seen(rules, trace).Some?
    ensures StepRefused(rules, trace + [c])
       <==> StepRefused(rules, trace) || Refuses(rules, Seen(rules, trace).value, c)
    ensures StepBroke(rules, trace + [c]) <==> StepBroke(rules, trace) || Breaks(Seen(rules, trace).value, c)
    ensures StopAsked(trace + [c]) <==> StopAsked(trace) || c == Asked(true)
  {
    var next := trace + [c];
    assert next[..|trace|] == trace && next[|trace|] == c;
    assert forall i | 0 <= i < |trace| :: next[i] == trace[i] && next[..i] == trace[..i];
  }

  // ---------------------------------------------------------------- what the run knows

  /** The run has been turned away. */
  predicate TurnedAway(ph: Phase) {
    (ph.Broken? && ph.refused) || (ph.Ending? && ph.refused) || (ph.Closed? && ph.status.RunBlocked?)
  }

  predicate GivenUp(ph: Phase) { (ph.Broken? && !ph.refused) || (ph.Ending? && !ph.refused) }

  predicate Halted(ph: Phase) { ph.Stopping? || (ph.Closed? && ph.status.RunStopped?) }

  /** Each ending has its cause, and each cause its ending. */
  ghost predicate CausesKnown(rules: Rules, trace: seq<Call>, ph: Phase) {
    && (StepRefused(rules, trace) <==> TurnedAway(ph))
    && (StopAsked(trace) <==> Halted(ph))
    && (StepBroke(rules, trace) ==> GivenUp(ph) || (ph.Closed? && ph.status.RunFailed?))
    && (GivenUp(ph) ==> StepBroke(rules, trace))
  }

  lemma {:induction false} CauseStep(rules: Rules, w: Watch, c: Call)
    requires Observe(rules, w, c).Some?
    ensures var ph := Observe(rules, w, c).value.phase;
      && (TurnedAway(ph) <==> TurnedAway(w.phase) || Refuses(rules, w, c))
      && (Halted(ph) <==> Halted(w.phase) || c == Asked(true))
  {
  }

  lemma {:induction false} BreakStep(rules: Rules, w: Watch, c: Call)
    requires Observe(rules, w, c).Some?
    ensures var ph := Observe(rules, w, c).value.phase;
      && (Breaks(w, c) ==> GivenUp(ph))
      && (GivenUp(ph) ==> GivenUp(w.phase) || Breaks(w, c))
      && (GivenUp(w.phase) ==> GivenUp(ph) || (ph.Closed? && ph.status.RunFailed?))
  {
  }

  lemma {:induction false} NothingAfterClosing(rules: Rules, w: Watch, c: Call)
    requires w.phase.Closed?
    ensures Observe(rules, w, c).None?
  {
  }

  lemma {:induction false} EndingsHaveCauses(rules: Rules, trace: seq<Call>)
    requires Seen(rules, trace).Some?
    ensures CausesKnown(rules, trace, Seen(rules, trace).value.phase)
  {
    if trace != [] {
      var front, c := trace[..|trace| - 1], trace[|trace| - 1];
      var w := Seen(rules, front).value;
      EndingsHaveCauses(rules, front);
      assert front + [c] == trace;
      OneMoreCall(rules, front, c);
      CauseStep(rules, w, c);
      BreakStep(rules, w, c);
      if w.phase.Closed? { NothingAfterClosing(rules, w, c); }
    }
  }

  /** What a closed run's status says: Blocked if and only if a step was refused, Stopped if and only if the run was
      asked to stop, and Failed whenever a step broke. */
  ghost predicate ClosedForCause(rules: Rules, trace: seq<Call>, status: Status) {
    && (status == RunBlocked <==> StepRefused(rules, trace))
    && (status == RunStopped <==> StopAsked(trace))
    && (StepBroke(rules, trace) ==> status == RunFailed)
  }

  lemma {:induction false} StatusHasCause(rules: Rules, trace: seq<Call>, status: Status)
    requires Seen(rules, trace).Some? && Seen(rules, trace).value.phase == Closed(status)
    ensures ClosedForCause(rules, trace, status)
  {
    EndingsHaveCauses(rules, trace);
  }

  /** A run that closes Failed while it is given up had a step break. */
  lemma {:induction false} GivenUpBroke(rules: Rules, trace: seq<Call>, c: Call)
    requires Seen(rules, trace).Some? && Seen(rules, trace).value.phase == Ending(false)
    ensures StepBroke(rules, trace + [c])
  {
    EndingsHaveCauses(rules, trace);
    OneMoreCall(rules, trace, c);
  }
}
