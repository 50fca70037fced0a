/**
  The executor's conversation with the outside (internal/executor): every call it makes to the API server
  and every line it writes to its own run, and a monitor that says which call may follow which. Module
  Executor proves that every run is accepted by the monitor, whatever the cluster answers; the
  lemmas here say what acceptance means for the whole run.
 */
module Protocol {
  import opened Model
  import opened Sums
  import opened Rails

  datatype Reply = Done | Refused | Errored

  datatype Status = RunSucceeded | RunBlocked | RunStopped | RunFailed

  /** One call, with the answer it got. */
  datatype Call =
    | Read(live: Option<Snapshot>)
    | Cordon(node: string, ok: bool)
    | Uncordon(node: string, ok: bool)
    | Evict(namespace: string, pod: string, reply: Reply)
    | Present(namespace: string, pod: string, answer: Option<bool>)
    | Consulted(step: RatedStep, window: Option<bool>, allowed: bool)
    | Planned(step: RatedStep)
    | Drained(node: string)
    | Asked(stop: bool)
    | Finish(status: Status)

  /** When a step may begin, given the windows' answer, a snapshot and the nodes drained so far. */
  type StepGate = (RatedStep, Option<bool>, Snapshot, int) -> bool

  /** Settings of one run: the guard's step check, whether it rehearses, and whether Running is enough to be healthy. */
  datatype Rules = Rules(clears: StepGate, dryRun: bool, runningIsHealthy: bool)

  // ---------------------------------------------------------------- pods and owners

  function OwnerKey(p: Pod): string {
    if p.owner.None? then "" else p.namespace + "/" + p.owner.value.kind + "/" + p.owner.value.name
  }

  predicate Healthy(p: Pod, runningIsHealthy: bool) {
    !p.terminating && p.phase == Running && (runningIsHealthy || p.ready)
  }

  ghost function HealthyOf(rules: Rules, owner: string): Pod -> int {
    (p: Pod) => if OwnerKey(p) == owner && Healthy(p, rules.runningIsHealthy) then 1 else 0
  }

  /** Healthy pods of a workload. */
  ghost function HealthyCount(rules: Rules, pods: seq<Pod>, owner: string): int { Sum(pods, HealthyOf(rules, owner)) }

  /** The workload's pods that are running, not on their way out, and ready unless running is enough. */
  ghost function WellPods(pods: seq<Pod>, owner: string, runningIsHealthy: bool): set<Pod> {
    set p | p in pods && OwnerKey(p) == owner && p.phase == Running && p.terminating == false
      && (p.ready || runningIsHealthy)
  }

  lemma {:induction false} HealthyCountExactly(rules: Rules, pods: seq<Pod>, owner: string)
    requires UniquePods(pods)
    ensures HealthyCount(rules, pods, owner) == |WellPods(pods, owner, rules.runningIsHealthy)|
  {
    if pods == [] {
      assert WellPods(pods, owner, rules.runningIsHealthy) == {};
    } else {
      var front, last := pods[..|pods| - 1], pods[|pods| - 1];
      HealthyCountExactly(rules, front, owner);
      LastIsNew(pods);
      assert pods == front + [last];
      WellPodsStep(front, last, owner, rules);
    }
  }

  lemma {:induction false} WellPodsStep(front: seq<Pod>, last: Pod, owner: string, rules: Rules)
    requires last !in front
    ensures |WellPods(front + [last], owner, rules.runningIsHealthy)|
         == |WellPods(front, owner, rules.runningIsHealthy)| + HealthyOf(rules, owner)(last)
  {
    var was := WellPods(front, owner, rules.runningIsHealthy);
    assert WellPods(front + [last], owner, rules.runningIsHealthy)
        == if HealthyOf(rules, owner)(last) == 1 then was + {last} else was;
  }

  /** Every owed workload has at least the healthy pods it had in the opening snapshot. */
  ghost predicate Recovered(rules: Rules, opening: Snapshot, live: Snapshot, owed: set<string>) {
    forall k | k in owed :: HealthyCount(rules, live.pods, k) >= HealthyCount(rules, opening.pods, k)
  }

  function MovableOn(pods: seq<Pod>, node: string): (out: seq<Pod>)
    ensures forall p :: p in out <==> p in pods && p.nodeName == node && p.IsMovable()
  {
    if pods == [] then [] else
      var rest, last := MovableOn(pods[..|pods| - 1], node), pods[|pods| - 1];
      assert forall p :: p in pods <==> p in pods[..|pods| - 1] || p == last;
      if last.nodeName == node && last.IsMovable() then rest + [last] else rest
  }

  predicate Named(p: Pod, namespace: string, name: string) { p.namespace == namespace && p.name == name }

  /** The first pod of a snapshot with this name, on whatever node it is. */
  function Find(pods: seq<Pod>, namespace: string, name: string): (r: Option<Pod>)
    ensures r.Some? ==> r.value in pods && Named(r.value, namespace, name)
    ensures r.None? ==> forall p | p in pods :: !Named(p, namespace, name)
  {
    if pods == [] then None
    else if Named(pods[0], namespace, name) then Some(pods[0])
    else Find(pods[1..], namespace, name)
  }

  // ------------------------------------------------------------------------ monitor

  datatype Phase =
    | Idle
    | Opening(node: string)
    /** The node is cordoned; `left` still sits on it, `awaiting` was evicted and not yet seen gone. */
    | Draining(node: string, opening: Snapshot, left: seq<Pod>, owed: set<string>, awaiting: Option<Pod>,
               recovered: bool)
    /** The step failed under its cordon. */
    | Broken(node: string, refused: bool)
    /** Nothing may be touched any more. */
    | Ending(refused: bool)
    | Stopping
    | Closed(status: Status)

  /** `latest` is the last read, while nothing has been done since; `cleared` is the step the guard let through. */
  datatype Watch = Watch(phase: Phase, latest: Option<Snapshot>, cleared: Option<RatedStep>,
                         drained: seq<string>)

  const START := Watch(Idle, None, None, [])

  ghost predicate AllEvictable(pods: seq<Pod>, live: Snapshot) { forall p | p in pods :: MayEvict(p, live) }

  predicate Settled(ph: Phase) requires ph.Draining? {
    ph.awaiting.None? && ph.left == [] && (ph.owed == {} || ph.recovered)
  }

  ghost function AfterRead(rules: Rules, w: Watch, live: Option<Snapshot>): Option<Watch> {
    match w.phase
    case Idle =>
      if live.None? then Some(w.(phase := Ending(false), latest := None, cleared := None))
      else Some(w.(latest := live, cleared := None))
    case Opening(node) =>
      if live.None? then Some(w.(phase := Broken(node, false), latest := None))
      else Some(w.(phase := Draining(node, live.value, MovableOn(live.value.pods, node), {}, None, false),
                     latest := None))
    case Draining(node, opening, left, owed, awaiting, recovered) =>
      if awaiting.Some? then None
      else if live.None? then
        Some(if Settled(w.phase) then w.(latest := None) else w.(phase := Broken(node, false), latest := None))
      else if left == [] then
        Some(w.(phase := w.phase.(recovered := recovered || Recovered(rules, opening, live.value, owed)),
                latest := live))
      else
        var current := Find(live.value.pods, left[0].namespace, left[0].name);
        if current.None? then Some(w.(phase := w.phase.(left := left[1..]), latest := None))
        else if MayEvict(current.value, live.value) then Some(w.(latest := live))
        else Some(w.(phase := Broken(node, true), latest := None))
    case _ => None
  }

  ghost function AfterConsult(rules: Rules, w: Watch, step: RatedStep, window: Option<bool>,
                              allowed: bool): Option<Watch> {
    if !w.phase.Idle? || w.latest.None? || w.cleared.Some?
       || (allowed <==> !rules.clears(step, window, w.latest.value, |w.drained|)) then None
    else if !allowed
            || (rules.dryRun && !AllEvictable(MovableOn(w.latest.value.pods, step.targetNode), w.latest.value)) then
      Some(w.(phase := Ending(true), latest := None, cleared := None))
    else Some(w.(cleared := Some(step)))
  }

  function AfterCordon(rules: Rules, w: Watch, node: string, ok: bool): Option<Watch> {
    if !w.phase.Idle? || rules.dryRun || w.cleared.None? || w.cleared.value.targetNode != node then None
    else Some(w.(phase := if ok then Opening(node) else Ending(false), latest := None, cleared := None))
  }

  function AfterUncordon(w: Watch, node: string): Option<Watch> {
    if !w.phase.Draining? && !w.phase.Broken? then None
    else if w.phase.node != node then None
    else if w.phase.Draining? && w.phase.awaiting.None? && (w.phase.left != [] || Settled(w.phase)) then None
    else Some(w.(phase := Ending(w.phase.Broken? && w.phase.refused), latest := None))
  }

  function AfterEvict(w: Watch, namespace: string, pod: string, reply: Reply): Option<Watch> {
    match w.phase
    case Draining(node, opening, left, owed, awaiting, _) =>
      if awaiting.Some? || left == [] || w.latest.None? || !Named(left[0], namespace, pod) then None
      else if reply.Done? then
        var owner := OwnerKey(left[0]);
        Some(w.(phase := Draining(node, opening, left[1..],
                                  if owner == "" then owed else owed + {owner}, Some(left[0]), false),
                latest := None))
      else Some(w.(phase := Broken(node, reply.Refused?), latest := None))
    case _ => None
  }

  function AfterPresent(w: Watch, namespace: string, pod: string, answer: Option<bool>): Option<Watch> {
    match w.phase
    case Draining(node, _, _, _, awaiting, _) =>
      if awaiting.None? || !Named(awaiting.value, namespace, pod) then None
      else if answer.None? then Some(w.(phase := Broken(node, false)))
      else if answer.value then Some(w)
      else Some(w.(phase := w.phase.(awaiting := None)))
    case _ => None
  }

  function AfterDrained(rules: Rules, w: Watch, node: string): Option<Watch> {
    var allowed := if rules.dryRun then w.phase.Idle? && w.cleared.Some? && w.cleared.value.targetNode == node
                   else w.phase.Draining? && w.phase.node == node && Settled(w.phase);
    if !allowed then None
    else Some(w.(phase := Idle, latest := None, cleared := None, drained := w.drained + [node]))
  }

  function AfterFinish(w: Watch, status: Status): Option<Watch> {
    var allowed := match w.phase
      case Idle => w.cleared.None? && (status.RunSucceeded? || status.RunFailed?)
      case Ending(refused) => status == if refused then RunBlocked else RunFailed
      case Stopping => status.RunStopped?
      case _ => false;
    if allowed then Some(w.(phase := Closed(status), latest := None, cleared := None)) else None
  }

  /** What the monitor makes of the next call; nothing when the call is not allowed. */
  ghost function Observe(rules: Rules, w: Watch, c: Call): Option<Watch> {
    match c
    case Read(live) => AfterRead(rules, w, live)
    case Consulted(step, window, allowed) => AfterConsult(rules, w, step, window, allowed)
    case Cordon(node, ok) => AfterCordon(rules, w, node, ok)
    case Uncordon(node, _) => AfterUncordon(w, node)
    case Evict(namespace, pod, reply) => AfterEvict(w, namespace, pod, reply)
    case Present(namespace, pod, answer) => AfterPresent(w, namespace, pod, answer)
    case Drained(node) => AfterDrained(rules, w, node)
    case Planned(_) => if w.phase.Idle? && w.cleared.None? then Some(w.(latest := None)) else None
    case Asked(stop) =>
      if !w.phase.Idle? || w.cleared.Some? then None
      else Some(w.(phase := if stop then Stopping else Idle, latest := None))
    case Finish(status) => AfterFinish(w, status)
  }

  /** The monitor's state after a whole trace; nothing if it was broken on the way. */
  ghost function Seen(rules: Rules, trace: seq<Call>): Option<Watch> {
    if trace == [] then Some(START) else
      var before := Seen(rules, trace[..|trace| - 1]);
      if before.None? then None else Observe(rules, before.value, trace[|trace| - 1])
  }

  lemma {:induction false} SeenNext(rules: Rules, trace: seq<Call>, c: Call)
    requires Seen(rules, trace).Some?
    ensures Seen(rules, trace + [c]) == Observe(rules, Seen(rules, trace).value, c)
  {
    assert (trace + [c])[..|trace|] == trace;
  }

  lemma {:induction false} SeenPrefix(rules: Rules, trace: seq<Call>, i: nat)
    requires Seen(rules, trace).Some? && i <= |trace|
    ensures Seen(rules, trace[..i]).Some?
    ensures i < |trace| ==>
      Seen(rules, trace[..i + 1]).Some?
          && Seen(rules, trace[..i + 1]) == Observe(rules, Seen(rules, trace[..i]).value, trace[i])
  {
    if i < |trace| {
      var front := trace[..|trace| - 1];
      SeenPrefix(rules, front, i);
      assert front[..i] == trace[..i];
      if i + 1 < |trace| {
        assert front[..i + 1] == trace[..i + 1];
      } else {
        assert trace[..i + 1] == trace;
      }
    } else {
      assert trace[..i] == trace;
    }
  }

  // ------------------------------------------------- every eviction is freshly authorised

  /** A live read that shows the pod and no exhausted budget naming it. */
  ghost predicate Authorises(c: Call, namespace: string, pod: string) {
    c.Read? && c.live.Some? &&
    exists p | p in c.live.value.pods :: Named(p, namespace, pod) && MayEvict(p, c.live.value)
  }

  predicate UnderCordon(c: Call) { c.Read? || c.Evict? || c.Present? }

  /** The calls from c on form one drain of node: a successful cordon, the opening read, then only work under it. */
  ghost predicate DrainFrom(trace: seq<Call>, c: nat, node: string, opening: Snapshot) {
    && c + 1 < |trace| && trace[c] == Cordon(node, true) && trace[c + 1] == Read(Some(opening))
    && forall k | c + 1 < k < |trace| :: UnderCordon(trace[k])
  }

  /** What the monitor remembers is what the trace shows. */
  ghost predicate Faithful(trace: seq<Call>, w: Watch) {
    && (w.latest.Some? && w.phase.Draining? ==>
          w.phase.awaiting.None? && trace != [] && trace[|trace| - 1] == Read(w.latest))
    && (w.phase.Opening? ==> trace != [] && trace[|trace| - 1] == Cordon(w.phase.node, true))
    && (w.phase.Draining? ==>
          && (exists c :: DrainFrom(trace, c, w.phase.node, w.phase.opening))
          && (forall p | p in w.phase.left :: p in MovableOn(w.phase.opening.pods, w.phase.node))
          && (w.latest.Some? && w.phase.left != [] ==>
                Authorises(Read(w.latest), w.phase.left[0].namespace, w.phase.left[0].name)))
  }

  lemma {:induction false} SeenFaithful(rules: Rules, trace: seq<Call>)
    requires Seen(rules, trace).Some?
    ensures Faithful(trace, Seen(rules, trace).value)
  {
    if trace != [] {
      var front, c := trace[..|trace| - 1], trace[|trace| - 1];
      SeenFaithful(rules, front);
      FaithfulStep(rules, front, Seen(rules, front).value, c);
      assert front + [c] == trace;
    }
  }

  lemma {:induction false} FaithfulStep(rules: Rules, trace: seq<Call>, w: Watch, c: Call)
    requires Faithful(trace, w) && Observe(rules, w, c).Some?
    ensures Faithful(trace + [c], Observe(rules, w, c).value)
  {
    var w' := Observe(rules, w, c).value;
    if w'.phase.Draining? {
      DrainGoesOn(rules, trace, w, c);
      if c.Read? { FaithfulRead(rules, trace, w, c.live); }
    }
  }

  lemma {:induction false} DrainGoesOn(rules: Rules, trace: seq<Call>, w: Watch, c: Call)
    requires Faithful(trace, w) && Observe(rules, w, c).Some? && Observe(rules, w, c).value.phase.Draining?
    ensures var w' := Observe(rules, w, c).value;
      exists s :: DrainFrom(trace + [c], s, w'.phase.node, w'.phase.opening)
  {
    var w' := Observe(rules, w, c).value;
    if w.phase.Opening? {
      assert DrainFrom(trace + [c], |trace| - 1, w'.phase.node, w'.phase.opening);
    } else {
      var s :| DrainFrom(trace, s, w.phase.node, w.phase.opening);
      assert DrainFrom(trace + [c], s, w'.phase.node, w'.phase.opening);
    }
  }

  lemma {:induction false} FaithfulRead(rules: Rules, trace: seq<Call>, w: Watch, live: Option<Snapshot>)
    requires Faithful(trace, w) && AfterRead(rules, w, live).Some? && AfterRead(rules, w, live).value.phase.Draining?
    ensures var w' := AfterRead(rules, w, live).value;
      && (w'.latest.Some? ==> w'.latest == live)
      && (forall p | p in w'.phase.left :: p in MovableOn(w'.phase.opening.pods, w'.phase.node))
      && (w'.latest.Some? ==> w'.phase.awaiting.None?)
      && (w'.latest.Some? && w'.phase.left != [] ==>
            Authorises(Read(live), w'.phase.left[0].namespace, w'.phase.left[0].name))
  {
    var w' := AfterRead(rules, w, live).value;
    if w.phase.Draining? && w'.latest.Some? && w'.phase.left != [] {
      var q := w.phase.left[0];
      var p := Find(live.value.pods, q.namespace, q.name);
      assert p.value in live.value.pods && Named(p.value, q.namespace, q.name) && MayEvict(p.value, live.value);
    }
  }

  /** Each eviction follows directly on its own read of the cluster, in which the pod exists and no budget
      naming it is exhausted; it happens under a successful cordon of the step's node, and the pod was
      movable on that node in the snapshot the drain opened with. */
  lemma {:induction false} EvictionIsAuthorised(rules: Rules, trace: seq<Call>, i: nat)
      returns (c: nat, node: string, opening: Snapshot, p: Pod)
    requires Seen(rules, trace).Some? && i < |trace| && trace[i].Evict?
    ensures 0 < i && Authorises(trace[i - 1], trace[i].namespace, trace[i].pod)
    ensures DrainFrom(trace[..i], c, node, opening)
    ensures p in opening.pods && Named(p, trace[i].namespace, trace[i].pod) && p.nodeName == node && FreeToMove(p)
  {
    SeenPrefix(rules, trace, i);
    SeenFaithful(rules, trace[..i]);
    c, node, opening, p := EvictionStep(trace[..i], Seen(rules, trace[..i]).value, trace[i]);
    MovableExactly(p);
  }

  /** So the read just before an eviction shows the pod, and a disruption to spare in every budget that picks it. */
  lemma {:induction false} EvictionHasHeadroom(rules: Rules, trace: seq<Call>, i: nat) returns (p: Pod)
    requires Seen(rules, trace).Some? && i < |trace| && trace[i].Evict?
    ensures 0 < i && trace[i - 1].Read? && trace[i - 1].live.Some? && p in trace[i - 1].live.value.pods
    ensures p.namespace == trace[i].namespace && p.name == trace[i].pod && HasHeadroom(p, trace[i - 1].live.value)
  {
    var c, node, opening, q := EvictionIsAuthorised(rules, trace, i);
    var live := trace[i - 1].live.value;
    p :| p in live.pods && Named(p, trace[i].namespace, trace[i].pod) && MayEvict(p, live);
    MayEvictExactly(p, live);
  }

  lemma {:induction false} EvictionStep(trace: seq<Call>, w: Watch, c: Call)
      returns (s: nat, node: string, opening: Snapshot, p: Pod)
    requires c.Evict? && AfterEvict(w, c.namespace, c.pod, c.reply).Some? && Faithful(trace, w)
    ensures w.phase.Draining? && w.phase.opening == opening && w.phase.left != [] && w.phase.left[0] == p
    ensures trace != [] && Authorises(trace[|trace| - 1], c.namespace, c.pod)
    ensures DrainFrom(trace, s, node, opening)
    ensures p in opening.pods && Named(p, c.namespace, c.pod) && p.nodeName == node && p.IsMovable()
  {
    node, opening, p := w.phase.node, w.phase.opening, w.phase.left[0];
    s :| DrainFrom(trace, s, node, opening);
    assert p in w.phase.left;
  }

  // ------------------------------------------------------- every drain is verified

  predicate Accepted(c: Call) { c.Evict? && c.reply.Done? }

  /** The evicted pod of call x was reported absent before call r. */
  ghost predicate GoneBetween(trace: seq<Call>, x: nat, r: nat)
    requires x < |trace| && trace[x].Evict?
  {
    exists k | x < k < r && k < |trace| :: trace[k] == Present(trace[x].namespace, trace[x].pod, Some(false))
  }

  /** The evicted pod as the drain found it: movable on the node, and its workload, if it has one, among these. */
  ghost predicate Owing(opening: Snapshot, node: string, c: Call, owed: set<string>)
    requires c.Evict?
  {
    exists p | p in MovableOn(opening.pods, node) :: Named(p, c.namespace, c.pod)
        && (OwnerKey(p) == "" || OwnerKey(p) in owed)
  }

  /** The evicted pod's workload, if it has one, has the healthy pods it had when the drain opened. */
  ghost predicate Whole(rules: Rules, opening: Snapshot, node: string, c: Call, live: Snapshot)
    requires c.Evict?
  {
    exists p | p in MovableOn(opening.pods, node) :: Named(p, c.namespace, c.pod)
      && (OwnerKey(p) == ""
          || HealthyCount(rules, live.pods, OwnerKey(p)) >= HealthyCount(rules, opening.pods, OwnerKey(p)))
  }

  /** Call r is the one read of the drain opened at c that finds every affected workload whole at once, after the
      last accepted eviction and after every evicted pod was seen gone. */
  ghost predicate WholeAt(rules: Rules, trace: seq<Call>, c: nat, r: nat, opening: Snapshot, node: string) {
    && c < r < |trace| && trace[r].Read? && trace[r].live.Some?
    && forall x | c < x < |trace| && Accepted(trace[x]) ::
         x < r && GoneBetween(trace, x, r) && Whole(rules, opening, node, trace[x], trace[r].live.value)
  }

  /** The drain opened at c is verified: every evicted pod was seen gone, and unless none has a workload there is one
      such read. */
  ghost predicate DrainDone(rules: Rules, trace: seq<Call>, c: nat, opening: Snapshot, node: string) {
    && (forall x | c < x < |trace| && Accepted(trace[x]) :: GoneBetween(trace, x, |trace|))
    && ((exists r :: WholeAt(rules, trace, c, r, opening, node))
        || forall x | c < x < |trace| && Accepted(trace[x]) :: Owing(opening, node, trace[x], {}))
  }

  /** What is known of a drain in progress. */
  ghost predicate DrainKnown(rules: Rules, trace: seq<Call>, c: nat, ph: Phase) requires ph.Draining? {
    && DrainFrom(trace, c, ph.node, ph.opening)
    && (forall x | c < x < |trace| && Accepted(trace[x]) ::
          && Owing(ph.opening, ph.node, trace[x], ph.owed)
          && (GoneBetween(trace, x, |trace|)
              || (ph.awaiting.Some? && Named(ph.awaiting.value, trace[x].namespace, trace[x].pod))))
    && (ph.recovered ==> exists r :: WholeAt(rules, trace, c, r, ph.opening, ph.node))
  }

  lemma {:induction false} GoneStays(trace: seq<Call>, call: Call, x: nat, r: nat)
    requires x < |trace| && trace[x].Evict? && GoneBetween(trace, x, r)
    ensures GoneBetween(trace + [call], x, r) && GoneBetween(trace + [call], x, |trace| + 1)
  {
    var k :| x < k < r && k < |trace| && trace[k] == Present(trace[x].namespace, trace[x].pod, Some(false));
    assert (trace + [call])[k] == trace[k];
  }

  lemma {:induction false} WholeStays(rules: Rules, trace: seq<Call>, call: Call, c: nat, r: nat, opening: Snapshot,
                                      node: string)
    requires WholeAt(rules, trace, c, r, opening, node) && !Accepted(call)
    ensures WholeAt(rules, trace + [call], c, r, opening, node)
  {
    var next := trace + [call];
    assert next[r] == trace[r];
    forall x | c < x < |next| && Accepted(next[x])
      ensures x < r && GoneBetween(next, x, r) && Whole(rules, opening, node, next[x], next[r].live.value)
    {
      assert x < |trace| && next[x] == trace[x];
      GoneStays(trace, call, x, r);
    }
  }

  /** A read that finds every owed workload recovered, with nothing awaited, is that one read. */
  lemma {:induction false} ReadFindsWhole(rules: Rules, trace: seq<Call>, c: nat, ph: Phase, live: Snapshot)
    requires ph.Draining? && DrainKnown(rules, trace, c, ph) && ph.awaiting.None?
        && Recovered(rules, ph.opening, live, ph.owed)
    ensures WholeAt(rules, trace + [Read(Some(live))], c, |trace|, ph.opening, ph.node)
  {
    var next := trace + [Read(Some(live))];
    forall x | c < x < |next| && Accepted(next[x])
      ensures x < |trace| && GoneBetween(next, x, |trace|) && Whole(rules, ph.opening, ph.node, next[x], live)
    {
      assert x < |trace| && next[x] == trace[x];
      GoneStays(trace, Read(Some(live)), x, |trace|);
      var p :| p in MovableOn(ph.opening.pods, ph.node) && Named(p, trace[x].namespace, trace[x].pod)
        && (OwnerKey(p) == "" || OwnerKey(p) in ph.owed);
    }
  }

  /** A drain that goes on keeps its node and opening, owes no less, and stops awaiting a pod only once it is seen
      gone. */
  lemma {:induction false} DrainMoves(rules: Rules, w: Watch, call: Call)
    requires w.phase.Draining? && Observe(rules, w, call).Some? && Observe(rules, w, call).value.phase.Draining?
    ensures var a, b := w.phase, Observe(rules, w, call).value.phase;
      && b.opening == a.opening && b.node == a.node && a.owed <= b.owed
      && (a.awaiting.Some? ==>
            b.awaiting == a.awaiting || call == Present(a.awaiting.value.namespace, a.awaiting.value.name, Some(false)))
  {
  }

  lemma {:induction false} OwingGrows(opening: Snapshot, node: string, c: Call, a: set<string>, b: set<string>)
    requires c.Evict? && Owing(opening, node, c, a) && a <= b
    ensures Owing(opening, node, c, b)
  {
    var p :| p in MovableOn(opening.pods, node) && Named(p, c.namespace, c.pod)
        && (OwnerKey(p) == "" || OwnerKey(p) in a);
  }

  lemma {:induction false} NowGone(trace: seq<Call>, call: Call, x: nat)
    requires x < |trace| && trace[x].Evict? && call == Present(trace[x].namespace, trace[x].pod, Some(false))
    ensures GoneBetween(trace + [call], x, |trace| + 1)
  {
    assert (trace + [call])[|trace|] == call;
  }

  /** Every earlier eviction is as before, or newly seen gone. */
  lemma {:induction false} EvictionsKept(rules: Rules, trace: seq<Call>, c: nat, w: Watch, call: Call, x: nat)
    requires w.phase.Draining? && DrainKnown(rules, trace, c, w.phase)
    requires Observe(rules, w, call).Some? && Observe(rules, w, call).value.phase.Draining?
    requires c < x < |trace| && Accepted(trace[x])
    ensures var ph, next := Observe(rules, w, call).value.phase, trace + [call];
      && Owing(ph.opening, ph.node, next[x], ph.owed)
      && (GoneBetween(next, x, |next|)
          || (ph.awaiting.Some? && Named(ph.awaiting.value, next[x].namespace, next[x].pod)))
  {
    DrainMoves(rules, w, call);
    OwingGrows(w.phase.opening, w.phase.node, trace[x], w.phase.owed, Observe(rules, w, call).value.phase.owed);
    if GoneBetween(trace, x, |trace|) {
      GoneStays(trace, call, x, |trace|);
    } else if call.Present? && call.answer == Some(false) {
      NowGoneIfNamed(trace, w, call, x);
    }
  }

  lemma {:induction false} NowGoneIfNamed(trace: seq<Call>, w: Watch, call: Call, x: nat)
    requires w.phase.Draining? && w.phase.awaiting.Some? && x < |trace| && trace[x].Evict?
    requires Named(w.phase.awaiting.value, trace[x].namespace, trace[x].pod)
    requires call.Present? && call.answer == Some(false) && AfterPresent(w, call.namespace, call.pod, call.answer).Some?
    ensures GoneBetween(trace + [call], x, |trace| + 1)
  {
    NowGone(trace, call, x);
  }

  lemma {:induction false} DrainStep(rules: Rules, trace: seq<Call>, c: nat, w: Watch, call: Call)
    requires w.phase.Draining? && Faithful(trace, w) && DrainKnown(rules, trace, c, w.phase)
    requires Observe(rules, w, call).Some? && Observe(rules, w, call).value.phase.Draining?
    ensures DrainKnown(rules, trace + [call], c, Observe(rules, w, call).value.phase)
  {
    var ph, next := Observe(rules, w, call).value.phase, trace + [call];
    forall x | c < x < |next| && Accepted(next[x])
      ensures Owing(ph.opening, ph.node, next[x], ph.owed)
      ensures GoneBetween(next, x, |next|)
          || (ph.awaiting.Some? && Named(ph.awaiting.value, next[x].namespace, next[x].pod))
    {
      if x < |trace| { EvictionsKept(rules, trace, c, w, call, x); } else { NewEviction(trace, w, call); }
    }
    if ph.recovered { RecoveryKnown(rules, trace, c, w, call); }
  }

  lemma {:induction false} NewEviction(trace: seq<Call>, w: Watch, call: Call)
    requires w.phase.Draining? && Faithful(trace, w) && Accepted(call)
    requires AfterEvict(w, call.namespace, call.pod, call.reply).Some?
    ensures var ph := AfterEvict(w, call.namespace, call.pod, call.reply).value.phase;
      && ph.Draining? && Owing(ph.opening, ph.node, call, ph.owed)
      && ph.awaiting.Some? && Named(ph.awaiting.value, call.namespace, call.pod)
  {
    assert w.phase.left[0] in MovableOn(w.phase.opening.pods, w.phase.node);
  }

  lemma {:induction false} RecoveryKnown(rules: Rules, trace: seq<Call>, c: nat, w: Watch, call: Call)
    requires w.phase.Draining? && DrainKnown(rules, trace, c, w.phase)
    requires Observe(rules, w, call).Some? && Observe(rules, w, call).value.phase.Draining?
    requires Observe(rules, w, call).value.phase.recovered
    ensures exists r :: WholeAt(rules, trace + [call], c, r, w.phase.opening, w.phase.node)
  {
    if w.phase.recovered {
      var r :| WholeAt(rules, trace, c, r, w.phase.opening, w.phase.node);
      WholeStays(rules, trace, call, c, r, w.phase.opening, w.phase.node);
    } else {
      ReadFindsWhole(rules, trace, c, w.phase, call.live.value);
    }
  }

  lemma {:induction false} DrainIsKnown(rules: Rules, trace: seq<Call>) returns (c: nat)
    requires Seen(rules, trace).Some? && Seen(rules, trace).value.phase.Draining?
    ensures DrainKnown(rules, trace, c, Seen(rules, trace).value.phase)
  {
    var front, call := trace[..|trace| - 1], trace[|trace| - 1];
    var w := Seen(rules, front).value;
    SeenFaithful(rules, front);
    assert front + [call] == trace;
    if w.phase.Opening? {
      c := |front| - 1;
    } else {
      c := DrainIsKnown(rules, front);
      DrainStep(rules, front, c, w, call);
    }
  }

  /** A node is called drained only when its drain is verified. */
  lemma {:induction false} DrainedIsVerified(rules: Rules, trace: seq<Call>, d: nat) returns (c: nat, opening: Snapshot)
    requires Seen(rules, trace).Some? && d < |trace| && trace[d].Drained? && !rules.dryRun
    ensures DrainFrom(trace[..d], c, trace[d].node, opening) && DrainDone(rules, trace[..d], c, opening, trace[d].node)
  {
    SeenPrefix(rules, trace, d);
    c := DrainIsKnown(rules, trace[..d]);
    opening := Seen(rules, trace[..d]).value.phase.opening;
  }

  predicate Lost(ph: Phase) {
    ph.Broken? || ph.Ending? || (ph.Closed? && (ph.status.RunBlocked? || ph.status.RunFailed?))
  }

  /** The node is called drained at d, with nothing but work under the cordon since call i. */
  ghost predicate DrainedAt(trace: seq<Call>, i: nat, d: nat) {
    i < d < |trace| && trace[d].Drained? && forall k | i < k < d :: UnderCordon(trace[k])
  }

  /** What becomes of a drain after an accepted eviction: it goes on, it is completed, or the run has given up. */
  ghost predicate Pursued(trace: seq<Call>, i: nat, w: Watch) {
    || Lost(w.phase)
    || (w.phase.Draining? && forall k | i < k < |trace| :: UnderCordon(trace[k]))
    || exists d :: DrainedAt(trace, i, d)
  }

  lemma {:induction false} PursuedStep(rules: Rules, trace: seq<Call>, i: nat, w: Watch, call: Call)
    requires i < |trace| && Pursued(trace, i, w) && Observe(rules, w, call).Some?
    ensures Pursued(trace + [call], i, Observe(rules, w, call).value)
  {
    var next := trace + [call];
    assert next[|trace|] == call && forall k | 0 <= k < |trace| :: next[k] == trace[k];
    if exists d :: DrainedAt(trace, i, d) {
      var d :| DrainedAt(trace, i, d);
      assert DrainedAt(next, i, d);
    } else if w.phase.Draining? && call.Drained? {
      assert DrainedAt(next, i, |trace|);
    }
  }

  lemma {:induction false} EvictionIsPursued(rules: Rules, trace: seq<Call>, i: nat)
    requires Seen(rules, trace).Some? && i < |trace| && Accepted(trace[i])
    ensures Pursued(trace, i, Seen(rules, trace).value)
  {
    var front, call := trace[..|trace| - 1], trace[|trace| - 1];
    if i + 1 < |trace| {
      EvictionIsPursued(rules, front, i);
      PursuedStep(rules, front, i, Seen(rules, front).value, call);
      assert front + [call] == trace;
    }
  }

  /** What may only follow on a drain that has been verified. */
  predicate MovesOn(c: Call) {
    c.Cordon? || c.Drained? || (c.Finish? && (c.status.RunSucceeded? || c.status.RunStopped?))
  }

  /** After an accepted eviction no cordon follows, no node is called drained and no run ends well until that
      very drain is verified as a whole: every pod it evicted seen gone, and one read after its last eviction
      in which every workload it affected has the healthy pods it had when the drain opened. */
  lemma {:induction false} DrainIsVerified(rules: Rules, trace: seq<Call>, i: nat, j: nat)
    returns (c: nat, node: string, opening: Snapshot, d: nat)
    requires Seen(rules, trace).Some? && i < j < |trace| && Accepted(trace[i]) && MovesOn(trace[j])
    ensures c < i < d <= j && trace[d] == Drained(node)
    ensures DrainFrom(trace[..d], c, node, opening) && DrainDone(rules, trace[..d], c, opening, node)
  {
    d := NextDrained(rules, trace, i, j);
    NotRehearsing(rules, trace, i);
    node := trace[d].node;
    c, opening := DrainedIsVerified(rules, trace, d);
    assert trace[..d][c] == trace[c] && trace[c].Cordon?;
    assert !UnderCordon(trace[c]);
  }

  lemma {:induction false} NotRehearsing(rules: Rules, trace: seq<Call>, i: nat)
    requires Seen(rules, trace).Some? && i < |trace| && trace[i].Evict?
    ensures !rules.dryRun
  {
    if rules.dryRun {
      DryRunTouchesNothing(rules, trace);
      assert Mutates(trace[i]);
    }
  }

  lemma {:induction false} NextDrained(rules: Rules, trace: seq<Call>, i: nat, j: nat) returns (d: nat)
    requires Seen(rules, trace).Some? && i < j < |trace| && Accepted(trace[i]) && MovesOn(trace[j])
    ensures d <= j && DrainedAt(trace, i, d)
  {
    SeenPrefix(rules, trace, j);
    var w, before := Seen(rules, trace[..j]).value, trace[..j];
    EvictionIsPursued(rules, before, i);
    if exists e :: DrainedAt(before, i, e) {
      d :| DrainedAt(before, i, d);
      assert trace[d] == before[d] && forall k | i < k < d :: trace[k] == before[k];
    } else {
      d := j;
      assert forall k | i < k < j :: trace[k] == before[k];
    }
  }

  // ------------------------------------------------------ every cordon is accounted for

  ghost function Held(n: string): Call -> int {
    (c: Call) => if c == Cordon(n, true) then 1 else if c == Uncordon(n, true) then -1 else 0
  }

  /** A node called drained, or one whose uncordon failed. */
  ghost function LeftBehind(n: string): Call -> int {
    (c: Call) => if c == Drained(n) || c == Uncordon(n, false) then 1 else 0
  }

  predicate Holding(ph: Phase, n: string) { (ph.Opening? || ph.Draining? || ph.Broken?) && ph.node == n }

  lemma {:induction false} HoldingStep(rules: Rules, w: Watch, c: Call, n: string)
    requires Observe(rules, w, c).Some? && !rules.dryRun
    ensures (if Holding(Observe(rules, w, c).value.phase, n) then 1 else 0)
         == (if Holding(w.phase, n) then 1 else 0) + Held(n)(c) - LeftBehind(n)(c)
  {
  }

  /** Successful cordons of a node less successful uncordons: what is left are the drains of it and the uncordons
      of it that failed, and the cordon in progress. */
  lemma {:induction false} CordonsAccountedFor(rules: Rules, trace: seq<Call>, n: string)
    requires Seen(rules, trace).Some? && !rules.dryRun
    ensures Sum(trace, Held(n))
         == Sum(trace, LeftBehind(n)) + if Holding(Seen(rules, trace).value.phase, n) then 1 else 0
  {
    if trace != [] {
      var front := trace[..|trace| - 1];
      CordonsAccountedFor(rules, front, n);
      HoldingStep(rules, Seen(rules, front).value, trace[|trace| - 1], n);
    }
  }

  ghost function Cordons(): Call -> int { (c: Call) => if c.Cordon? then 1 else 0 }
  ghost function Drains(): Call -> int { (c: Call) => if c.Drained? then 1 else 0 }

  /** Cordons outnumber drains by at most the one in progress, or the one the run ended on. */
  lemma {:induction false} CordonsMatchDrains(rules: Rules, trace: seq<Call>)
    requires Seen(rules, trace).Some?
    ensures var w := Seen(rules, trace).value;
      && Sum(trace, Drains()) == |w.drained|
      && Sum(trace, Cordons()) <= |w.drained| + (if w.phase.Idle? || w.phase.Stopping? then 0 else 1)
  {
    if trace != [] {
      CordonsMatchDrains(rules, trace[..|trace| - 1]);
    }
  }

  /** What clearance looks like in the trace. */
  ghost predicate Cleared(trace: seq<Call>, w: Watch) {
    && (w.latest.Some? && w.phase.Idle? && w.cleared.None? ==> trace != [] && trace[|trace| - 1] == Read(w.latest))
    && (w.cleared.Some? ==>
          && w.phase.Idle? && w.latest.Some? && |trace| >= 2 && trace[|trace| - 2] == Read(w.latest)
          && trace[|trace| - 1].Consulted? && trace[|trace| - 1].allowed && trace[|trace| - 1].step == w.cleared.value)
  }

  lemma {:induction false} SeenCleared(rules: Rules, trace: seq<Call>)
    requires Seen(rules, trace).Some?
    ensures Cleared(trace, Seen(rules, trace).value)
  {
    if trace != [] { SeenCleared(rules, trace[..|trace| - 1]); }
  }

  /** Each cordon follows directly on a guard check that let a step for that node through, made on a read taken just
      before. */
  lemma {:induction false} CordonIsCleared(rules: Rules, trace: seq<Call>, i: nat)
    requires Seen(rules, trace).Some? && i < |trace| && trace[i].Cordon?
    ensures 2 <= i && trace[i - 1].Consulted? && trace[i - 1].allowed && trace[i - 1].step.targetNode == trace[i].node
    ensures trace[i - 2].Read? && trace[i - 2].live.Some?
    ensures rules.clears(trace[i - 1].step, trace[i - 1].window, trace[i - 2].live.value, Sum(trace[..i], Drains()))
  {
    SeenPrefix(rules, trace, i);
    SeenCleared(rules, trace[..i]);
    SeenPrefix(rules, trace, i - 1);
    CordonsMatchDrains(rules, trace[..i]);
    CordonsMatchDrains(rules, trace[..i - 1]);
    SeenCleared(rules, trace[..i - 1]);
    assert trace[..i][..i - 1] == trace[..i - 1];
  }

  // ---------------------------------------------------------------- how runs end

  predicate Mutates(c: Call) { c.Cordon? || c.Uncordon? || c.Evict? }

  /** Nothing follows the end of a run. */
  lemma {:induction false} FinishIsLast(rules: Rules, trace: seq<Call>, i: nat)
    requires Seen(rules, trace).Some? && i < |trace| && trace[i].Finish?
    ensures i == |trace| - 1
  {
    SeenPrefix(rules, trace, i);
    SeenPrefix(rules, trace, i + 1);
  }

  /** An uncordon is the last thing a run does before it is marked refused or failed. */
  lemma {:induction false} UncordonIsLast(rules: Rules, trace: seq<Call>, i: nat)
    requires Seen(rules, trace).Some? && i < |trace| && trace[i].Uncordon?
    ensures |trace| <= i + 2
    ensures i + 1 < |trace| ==> trace[i + 1] == Finish(RunBlocked) || trace[i + 1] == Finish(RunFailed)
  {
    SeenPrefix(rules, trace, i);
    SeenPrefix(rules, trace, i + 1);
    if i + 1 < |trace| { FinishIsLast(rules, trace, i + 1); }
  }

  /** How the drain a cordon opened came out: still going, drained, or undone as the run's last act. */
  ghost predicate Accounted(trace: seq<Call>, i: nat, w: Watch, n: string) {
    || Holding(w.phase, n)
    || (exists d :: i < d < |trace| && trace[d] == Drained(n))
    || (w.phase.Ending? && |trace| >= 1 && trace[|trace| - 1].Uncordon? && trace[|trace| - 1].node == n)
    || (w.phase.Closed? && |trace| >= 2 && trace[|trace| - 2].Uncordon? && trace[|trace| - 2].node == n)
  }

  lemma {:induction false} CordonIsAccounted(rules: Rules, trace: seq<Call>, i: nat)
    requires Seen(rules, trace).Some? && i < |trace| && trace[i].Cordon? && trace[i].ok
    ensures Accounted(trace, i, Seen(rules, trace).value, trace[i].node)
  {
    var front, c := trace[..|trace| - 1], trace[|trace| - 1];
    if i + 1 < |trace| {
      CordonIsAccounted(rules, front, i);
      AccountedStep(rules, front, i, Seen(rules, front).value, trace[i].node, c);
      assert front + [c] == trace;
    }
  }

  lemma {:induction false} AccountedStep(rules: Rules, trace: seq<Call>, i: nat, w: Watch, n: string, c: Call)
    requires i < |trace| && Accounted(trace, i, w, n) && Observe(rules, w, c).Some?
    ensures Accounted(trace + [c], i, Observe(rules, w, c).value, n)
  {
    var next := trace + [c];
    assert next[|trace| - 1] == trace[|trace| - 1] && next[|trace|] == c;
    if exists d :: i < d < |trace| && trace[d] == Drained(n) {
      var d :| i < d < |trace| && trace[d] == Drained(n);
      assert next[d] == Drained(n);
    }
  }

  /** Every run that ends after cordoning a node either drained it or uncordoned it as its last mutation. */
  lemma {:induction false} CordonIsDrainedOrUndone(rules: Rules, trace: seq<Call>, i: nat)
    requires Seen(rules, trace).Some? && Seen(rules, trace).value.phase.Closed?
    requires i < |trace| && trace[i].Cordon? && trace[i].ok
    ensures || (exists d :: i < d < |trace| && trace[d] == Drained(trace[i].node))
            || (|trace| >= 2 && trace[|trace| - 2].Uncordon? && trace[|trace| - 2].node == trace[i].node)
  {
    CordonIsAccounted(rules, trace, i);
  }

  /** A rehearsal touches nothing. */
  lemma {:induction false} DryRunTouchesNothing(rules: Rules, trace: seq<Call>)
    requires Seen(rules, trace).Some? && rules.dryRun
    ensures forall i | 0 <= i < |trace| :: !Mutates(trace[i])
    ensures var ph := Seen(rules, trace).value.phase; !ph.Opening? && !ph.Draining? && !ph.Broken?
  {
    if trace != [] { DryRunTouchesNothing(rules, trace[..|trace| - 1]); }
  }
}
