/**
  What every greedy plan keeps (internal/planner/greedy.go): its moves form a legal run, the
  commit reproduces the trial, drained nodes stay drained, and capacity and pods are preserved
  at every move of the whole plan.
 */
module PlanSafety {
  import opened Model
  import opened Sorting
  import opened Packings
  import opened Planning
  import opened Runs

  // ------------------------------------------------------------- the starting point

  /** The snapshot's assignment holds exactly the pods that name one of its nodes. */
  lemma {:induction false} LoadMembers(v0: Packing, pods: seq<Pod>, q: Pod)
    requires forall n | n in v0.bins :: v0.bins[n].occupants == []
    ensures Load(v0, pods).bins.Keys == v0.bins.Keys
    ensures Sits(Load(v0, pods), q) <==> q in pods && q.nodeName in v0.bins && q.nodeName != ""
  {
    if pods != [] {
      var rest, pod := pods[..|pods| - 1], pods[|pods| - 1];
      LoadMembers(v0, rest, q);
      assert pods == rest + [pod];
      if pod.nodeName != "" && pod.nodeName in v0.bins {
        assert pod.(nodeName := pod.nodeName) == pod;
        PlacedMembers(Load(v0, rest), pod, pod.nodeName, q, q.nodeName);
      }
    }
  }

  lemma {:induction false} LoadNodes(v0: Packing, pods: seq<Pod>)
    ensures SameNodes(v0, Load(v0, pods))
  {
    if pods != [] { LoadNodes(v0, pods[..|pods| - 1]); }
  }

  lemma {:induction false} FreeAfterPlace(v: Packing, p: Pod, t: string, ceiling: real, n: string)
    requires t in v.bins && p.requests.NonNegative() && n in v.bins && FreeIsExact(v, n, ceiling)
    ensures FreeIsExact(Place(v, p, t), n, ceiling)
  {
    UsedPlace(v, p, t);
    if n == t {
      FreeAfter(v.bins[t].free, Basis(v.bins[t].node, ceiling), UsedOn(v, t), p.Footprint());
    }
  }

  lemma {:induction false} LoadSound(v0: Packing, pods: seq<Pod>, ceiling: real)
    requires Valid(v0) && UniquePods(pods) && NonNegativeRequests(pods)
    requires forall n | n in v0.bins :: v0.bins[n].occupants == [] && FreeIsExact(v0, n, ceiling)
    ensures Valid(Load(v0, pods)) && UniqueKeys(Load(v0, pods))
    ensures forall n | n in Load(v0, pods).bins :: FreeIsExact(Load(v0, pods), n, ceiling)
  {
    if pods == [] {
      assert forall q :: !Sits(v0, q);
    } else {
      var rest, pod := pods[..|pods| - 1], pods[|pods| - 1];
      assert NonNegativeRequests(rest);
      LoadSound(v0, rest, ceiling);
      var v := Load(v0, rest);
      if pod.nodeName != "" && pod.nodeName in v.bins {
        PlaceValid(v, pod, pod.nodeName);
        forall q | Sits(v, q) ensures q.Key() != pod.Key() { LoadMembers(v0, rest, q); }
        PlaceUnique(v, pod, pod.nodeName);
        forall n | n in v.bins ensures FreeIsExact(Place(v, pod, pod.nodeName), n, ceiling) {
          FreeAfterPlace(v, pod, pod.nodeName, ceiling, n);
        }
      }
    }
  }

  lemma {:induction false} BareFree(snap: Snapshot, ceiling: real)
    requires UniqueNodes(snap.nodes)
    ensures forall n | n in Bare(snap, ceiling).bins ::
      Bare(snap, ceiling).bins[n].occupants == [] && FreeIsExact(Bare(snap, ceiling), n, ceiling)
  {
    BareBinsAt(snap.nodes, ceiling);
  }

  lemma {:induction false} PackedSound(snap: Snapshot, ceiling: real)
    requires UniqueNodes(snap.nodes) && UniquePods(snap.pods) && NonNegativeRequests(snap.pods)
    ensures Sound(Packed(snap, ceiling), Packed(snap, ceiling), ceiling, {})
  {
    var v0, v := Bare(snap, ceiling), Packed(snap, ceiling);
    BareValid(snap, ceiling);
    BareFree(snap, ceiling);
    LoadSound(v0, snap.pods, ceiling);
    forall q | Sits(v, q) ensures q.requests.NonNegative() { LoadMembers(v0, snap.pods, q); }
    SoundFromStart(v, ceiling);
  }

  /** An assignment is sound relative to itself. */
  lemma {:induction false} SoundFromStart(v: Packing, ceiling: real)
    requires Valid(v) && UniqueKeys(v) && NonNegativePods(v) && forall n | n in v.bins :: FreeIsExact(v, n, ceiling)
    ensures Sound(v, v, ceiling, {})
  {
  }

  // ---------------------------------------------------------------------- first fit

  lemma {:induction false} OptionMembers(v: Packing, pod: Pod, source: string, drained: set<string>, names: seq<string>)
    ensures forall c | c in FitOptions(v, pod, source, drained, names) ::
      c.name in names && MayReceive(v, pod, source, drained, c.name) && c == Candidate(c.name, Fullness(v, c.name))
    ensures forall n | n in names && MayReceive(v, pod, source, drained, n) ::
      Candidate(n, Fullness(v, n)) in FitOptions(v, pod, source, drained, names)
  {
    if names != [] {
      OptionMembers(v, pod, source, drained, names[..|names| - 1]);
      assert names == names[..|names| - 1] + [names[|names| - 1]];
    }
  }

  /** A chosen destination is another node, not drained, that may legally take the pod. */
  lemma {:induction false} FirstFitAdmits(v: Packing, pod: Pod, source: string, drained: set<string>)
    ensures var t := FirstFit(v, pod, source, drained); t != "" ==> MayReceive(v, pod, source, drained, t)
  {
    var options := FitOptions(v, pod, source, drained, v.order);
    OptionMembers(v, pod, source, drained, v.order);
    SortPermutes(options, PreferredTo);
    var sorted := StableSort(options, PreferredTo);
    if sorted != [] { assert sorted[0] in options; }
  }

  lemma {:induction false} PreferredTotal(d: set<Candidate>)
    ensures TotalOn(d, PreferredTo)
  {
    forall a, b | a in d && b in d
      ensures a != b ==> PreferredTo(a, b) || PreferredTo(b, a)
      ensures PreferredTo(a, b) ==> !PreferredTo(b, a)
    {
      StringLessTotal(a.name, b.name);
    }
    forall a, b, c | a in d && b in d && c in d && PreferredTo(a, b) && PreferredTo(b, c)
      ensures PreferredTo(a, c)
    {
      if a.used == b.used == c.used { StringLessTransitive(a.name, b.name, c.name); }
    }
  }

  /** No admissible node is fuller than the one chosen, and none equally full has a smaller name. */
  lemma {:induction false} FirstFitIsFullest(v: Packing, pod: Pod, source: string, drained: set<string>, n: string)
    requires n in v.order && MayReceive(v, pod, source, drained, n) && FirstFit(v, pod, source, drained) != ""
    ensures var t := FirstFit(v, pod, source, drained);
            !PreferredTo(Candidate(n, Fullness(v, n)), Candidate(t, Fullness(v, t)))
    ensures var t := FirstFit(v, pod, source, drained);
      && Fullness(v, n) <= Fullness(v, t)
      && (Fullness(v, n) == Fullness(v, t) ==> n == t || StringLess(t, n))
  {
    StringLessTotal(n, FirstFit(v, pod, source, drained));
    var options := FitOptions(v, pod, source, drained, v.order);
    var sorted := StableSort(options, PreferredTo);
    OptionMembers(v, pod, source, drained, v.order);
    SortPermutes(options, PreferredTo);
    var d := set c | c in options;
    PreferredTotal(d);
    SortSorts(options, PreferredTo, d);
    var k :| 0 <= k < |sorted| && sorted[k] == Candidate(n, Fullness(v, n));
    assert sorted[0] in options;
    PreferredTotal({sorted[0]});
  }

  // ---------------------------------------------------------- a step of the trial

  /** A legal run from v0 has reached v, emptying no node outside gone. */
  ghost predicate Underway(v0: Packing, moves: seq<Move>, v: Packing, gone: set<string>) {
    && v == Replay(v0, moves) && LegalRun(v0, moves) && Sources(moves) <= gone
    && Valid(v) && UniqueKeys(v)
  }

  lemma {:induction false} RunPrefix(v0: Packing, moves: seq<Move>, m: Move)
    requires LegalRun(v0, moves) && LegalMove(Replay(v0, moves), Sources(moves), m)
    ensures LegalRun(v0, moves + [m])
    ensures Replay(v0, moves + [m]) == ApplyMove(Replay(v0, moves), m)
    ensures Sources(moves + [m]) == Sources(moves) + {m.fromNode}
  {
    assert (moves + [m])[..|moves|] == moves;
    LastMove(v0, moves + [m]);
  }

  lemma {:induction false} ExtendRun(v0: Packing, moves: seq<Move>, v: Packing, gone: set<string>, p: Pod, t: string)
    requires Underway(v0, moves, v, gone)
    requires Sits(v, p) && p.IsMovable() && t != p.nodeName && t !in gone && CanPlace(v, p, t)
    ensures Underway(v0, moves + [MoveOf(p, p.nodeName, t)], Relocated(v, p, t), gone + {p.nodeName})
  {
    var m := MoveOf(p, p.nodeName, t);
    assert LegalFor(v, Sources(moves), m, p);
    RunPrefix(v0, moves, m);
    FoundByKey(v, p);
    RelocatedUnique(v, p, t);
  }

  ghost predicate AllOn(v: Packing, pods: seq<Pod>, source: string) {
    forall p | p in pods :: Sits(v, p) && p.nodeName == source && p.IsMovable()
  }

  /** Nothing arrives on a node of `closed` between v and w. */
  ghost predicate NothingArrives(v: Packing, w: Packing, closed: set<string>) {
    forall q | Sits(w, q) && q.nodeName in closed :: Sits(v, q)
  }

  lemma {:induction false} StepOff(v: Packing, pods: seq<Pod>, source: string, drained: set<string>, t: string)
    requires Valid(v) && UniqueKeys(v) && pods != [] && AllOn(v, pods, source) && Distinct(pods)
    requires t in v.bins && t != source && t !in drained
    ensures AllOn(Relocated(v, pods[0], t), pods[1..], source)
    ensures NothingArrives(v, Relocated(v, pods[0], t), drained + {source})
    ensures !Sits(Relocated(v, pods[0], t), pods[0])
  {
    var p := pods[0];
    assert p in pods;
    RelocatedMoves(v, p, t);
    forall q | q in pods[1..] ensures Sits(Relocated(v, p, t), q) && q.nodeName == source && q.IsMovable() {
      var j :| 0 <= j < |pods[1..]| && pods[1..][j] == q;
      assert q == pods[j + 1] && q in pods;
    }
  }

  /** The moves a trial appends: one per pod, off the source, onto nodes that are still open. */
  ghost predicate TrialMoves(moves: seq<Move>, count: nat, source: string, drained: set<string>, all: seq<Move>) {
    && |moves| + count == |all| && moves == all[..|moves|]
    && forall i | |moves| <= i < |all| :: all[i].fromNode == source && all[i].toNode !in drained + {source}
  }

  /** The pods a trial takes off its source, and where nothing lands. */
  ghost predicate TrialSites(v: Packing, w: Packing, pods: seq<Pod>, source: string, drained: set<string>) {
    NothingArrives(v, w, drained + {source}) && forall p | p in pods :: !Sits(w, p)
  }

  /** One pod of the trial moved to a node that admits it. */
  lemma {:induction false} TrialStep(v0: Packing, moves: seq<Move>, v: Packing, pods: seq<Pod>, source: string,
                                     drained: set<string>, t: string)
    requires Underway(v0, moves, v, drained + {source})
    requires pods != [] && AllOn(v, pods, source) && Distinct(pods) && MayReceive(v, pods[0], source, drained, t)
    ensures var w := Relocated(v, pods[0], t);
      && Underway(v0, moves + [MoveOf(pods[0], source, t)], w, drained + {source})
      && AllOn(w, pods[1..], source) && NothingArrives(v, w, drained + {source}) && !Sits(w, pods[0])
  {
    assert pods[0] in pods;
    ExtendRun(v0, moves, v, drained + {source}, pods[0], t);
    assert drained + {source} + {pods[0].nodeName} == drained + {source};
    StepOff(v, pods, source, drained, t);
  }

  /** What a finished trial is to the run it was started from. */
  ghost predicate TrialDone(v0: Packing, moves: seq<Move>, v: Packing, pods: seq<Pod>, source: string,
                            drained: set<string>, t: Trial) {
    && Underway(v0, t.moves, t.packing, drained + {source})
    && TrialMoves(moves, |pods|, source, drained, t.moves)
    && TrialSites(v, t.packing, pods, source, drained)
  }

  lemma {:induction false} NothingToMove(v0: Packing, moves: seq<Move>, v: Packing, source: string,
                                         drained: set<string>)
    requires Underway(v0, moves, v, drained + {source})
    ensures TrialDone(v0, moves, v, [], source, drained, Trial(moves, v))
  {
    assert moves == moves[..|moves|];
  }

  /** One unfolding of the trial: its first pod goes to its first fit, the rest from there. */
  lemma {:induction false} TrialUnfolds(v: Packing, pods: seq<Pod>, source: string, drained: set<string>,
                                        moves: seq<Move>)
    returns (t: string)
    requires pods != [] && Relocate(v, pods, source, drained, moves).Some?
    ensures MayReceive(v, pods[0], source, drained, t)
    ensures Relocate(v, pods, source, drained, moves)
         == Relocate(Relocated(v, pods[0], t), pods[1..], source, drained, moves + [MoveOf(pods[0], source, t)])
  {
    t := FirstFit(v, pods[0], source, drained);
    FirstFitAdmits(v, pods[0], source, drained);
  }

  /** The trial loop extends the run it was started from and takes exactly its pods off the source. */
  lemma {:induction false} RelocateRuns(v0: Packing, moves: seq<Move>, v: Packing, pods: seq<Pod>,
                                        source: string, drained: set<string>)
    requires Underway(v0, moves, v, drained + {source})
    requires AllOn(v, pods, source) && Distinct(pods)
    requires Relocate(v, pods, source, drained, moves).Some?
    ensures TrialDone(v0, moves, v, pods, source, drained, Relocate(v, pods, source, drained, moves).value)
    decreases |pods|
  {
    if pods == [] {
      NothingToMove(v0, moves, v, source, drained);
    } else {
      var t := TrialUnfolds(v, pods, source, drained, moves);
      TrialStep(v0, moves, v, pods, source, drained, t);
      TailDistinct(pods);
      var next, w := moves + [MoveOf(pods[0], source, t)], Relocated(v, pods[0], t);
      RelocateRuns(v0, next, w, pods[1..], source, drained);
      TrialJoins(v0, moves, v, pods, source, drained, t, Relocate(v, pods, source, drained, moves).value);
    }
  }

  lemma {:induction false} TrialJoins(v0: Packing, moves: seq<Move>, v: Packing, pods: seq<Pod>, source: string,
                                      drained: set<string>, t: string, out: Trial)
    requires pods != [] && pods[0].nodeName == source && t !in drained + {source}
    requires var w := Relocated(v, pods[0], t);
      && NothingArrives(v, w, drained + {source}) && !Sits(w, pods[0])
      && TrialDone(v0, moves + [MoveOf(pods[0], source, t)], w, pods[1..], source, drained, out)
    ensures TrialDone(v0, moves, v, pods, source, drained, out)
  {
    MovesStep(moves, MoveOf(pods[0], source, t), |pods| - 1, source, drained, out.moves);
    SitesStep(v, Relocated(v, pods[0], t), out.packing, pods, source, drained);
  }

  lemma {:induction false} MovesStep(moves: seq<Move>, m: Move, count: nat, source: string, drained: set<string>,
                                     all: seq<Move>)
    requires TrialMoves(moves + [m], count, source, drained, all)
    requires m.fromNode == source && m.toNode !in drained + {source}
    ensures TrialMoves(moves, count + 1, source, drained, all)
  {
    PrefixFacts(moves, m, all);
  }

  lemma {:induction false} SitesStep(v: Packing, w: Packing, out: Packing, pods: seq<Pod>, source: string,
                                     drained: set<string>)
    requires pods != [] && pods[0].nodeName == source
    requires NothingArrives(v, w, drained + {source}) && !Sits(w, pods[0])
    requires TrialSites(w, out, pods[1..], source, drained)
    ensures TrialSites(v, out, pods, source, drained)
  {
    forall q | q in pods ensures !Sits(out, q) {
      if q != pods[0] { assert q in pods[1..]; }
    }
  }

  lemma {:induction false} TailDistinct(pods: seq<Pod>)
    requires pods != [] && Distinct(pods)
    ensures Distinct(pods[1..])
  {
  }

  lemma {:induction false} PrefixFacts(moves: seq<Move>, m: Move, all: seq<Move>)
    requires |moves| < |all| && moves + [m] == all[..|moves| + 1]
    ensures moves == all[..|moves|] && all[|moves|] == m
  {
    assert all[..|moves|] == all[..|moves| + 1][..|moves|];
    assert all[|moves|] == all[..|moves| + 1][|moves|];
  }

  /** The accumulator only prefixes the moves. */
  lemma {:induction false} RelocatePrefix(v: Packing, pods: seq<Pod>, source: string, drained: set<string>,
                                          a: seq<Move>, b: seq<Move>)
    ensures Relocate(v, pods, source, drained, a + b).Some? == Relocate(v, pods, source, drained, b).Some?
    ensures Relocate(v, pods, source, drained, b).Some? ==>
      Relocate(v, pods, source, drained, a + b).value
        == Trial(a + Relocate(v, pods, source, drained, b).value.moves,
                 Relocate(v, pods, source, drained, b).value.packing)
    decreases |pods|
  {
    if pods != [] {
      var t := FirstFit(v, pods[0], source, drained);
      if t != "" {
        var m := MoveOf(pods[0], source, t);
        RelocatePrefix(Relocated(v, pods[0], t), pods[1..], source, drained, a, b + [m]);
        assert a + (b + [m]) == a + b + [m];
      }
    }
  }

  // ------------------------------------------------------------------ a whole step

  lemma {:induction false} MovableDistinct(occ: seq<Pod>)
    requires UniquePods(occ)
    ensures Distinct(MovablePods(occ))
  {
    if occ != [] {
      var front := occ[..|occ| - 1];
      MovableDistinct(front);
      MovableMembers(front);
      forall q | q in MovablePods(front) ensures q != occ[|occ| - 1] {
        var k :| 0 <= k < |front| && front[k] == q;
      }
    }
  }

  /** The pods a trial relocates: all the movable ones on the node, once each. */
  lemma {:induction false} DrainPods(v: Packing, node: string)
    requires Valid(v) && UniqueKeys(v)
    ensures var pods := SortPodsBySizeDesc(MovablePods(Occupants(v, node)));
      && AllOn(v, pods, node) && Distinct(pods)
      && (forall q | Sits(v, q) && q.nodeName == node && q.IsMovable() :: q in pods)
      && |pods| == |MovablePods(Occupants(v, node))|
  {
    var movable := MovablePods(Occupants(v, node));
    MovableMembers(Occupants(v, node));
    if node in v.bins {
      MovableDistinct(v.bins[node].occupants);
    }
    SortPermutes(movable, PlacedBefore);
    DistinctPermutation(movable, SortPodsBySizeDesc(movable));
    forall p | p in SortPodsBySizeDesc(movable) ensures Sits(v, p) && p.nodeName == node && p.IsMovable() {
      assert p in movable;
    }
  }

  /** An accepted step carries a legal run on, and leaves its node without movable pods. */
  lemma {:induction false} DrainRuns(v0: Packing, moves: seq<Move>, v: Packing, node: string, drained: set<string>,
                  analysis: Analysis, opts: Options)
    requires Underway(v0, moves, v, drained) && TryDrain(v, node, drained, analysis, opts).Some?
    ensures var t := TryDrain(v, node, drained, analysis, opts).value;
      && Underway(v0, moves + t.moves, t.packing, drained + {node})
      && t.moves != [] && TrialMoves([], |t.moves|, node, drained, t.moves)
      && NothingArrives(v, t.packing, drained + {node})
      && (forall q | Sits(t.packing, q) && q.nodeName == node :: !q.IsMovable())
  {
    var pods := SortPodsBySizeDesc(MovablePods(Occupants(v, node)));
    DrainPods(v, node);
    RelocatePrefix(v, pods, node, drained, moves, []);
    assert moves + [] == moves;
    RelocateRuns(v0, moves, v, pods, node, drained);
    var t := TryDrain(v, node, drained, analysis, opts).value;
    TrialSuffix(moves, |pods|, node, drained, t.moves);
  }

  lemma {:induction false} TrialSuffix(moves: seq<Move>, count: nat, source: string, drained: set<string>,
                                       added: seq<Move>)
    requires TrialMoves(moves, count, source, drained, moves + added)
    ensures |added| == count && TrialMoves([], count, source, drained, added)
  {
    forall i | 0 <= i < |added| ensures added[i].fromNode == source && added[i].toNode !in drained + {source} {
      assert (moves + added)[|moves| + i] == added[i];
    }
  }

  /** The commit simulates the trial: replaying an accepted step's moves finds every pod and ends where the
      clone did. */
  lemma {:induction false} CommitIsTrial(v: Packing, node: string, drained: set<string>, analysis: Analysis,
                                         opts: Options)
    requires Valid(v) && UniqueKeys(v) && TryDrain(v, node, drained, analysis, opts).Some?
    ensures var t := TryDrain(v, node, drained, analysis, opts).value;
      Replay(v, t.moves) == t.packing && LegalRun(v, t.moves)
  {
    var t := TryDrain(v, node, drained, analysis, opts).value;
    DrainRuns(v, [], v, node, drained, analysis, opts);
    assert [] + t.moves == t.moves;
  }

  // ------------------------------------------------------------------ the whole plan

  /** Steps are numbered from one, empty distinct nodes, and never refill a node emptied before. */
  ghost predicate OrderlySteps(steps: seq<PlanStep>) {
    && (forall i | 0 <= i < |steps| ::
          steps[i].sequenceNumber == i + 1 && steps[i].moves != []
          && forall m | m in steps[i].moves :: m.fromNode == steps[i].targetNode && m.toNode != m.fromNode)
    && (forall i, j | 0 <= i < j < |steps| ::
          steps[i].targetNode != steps[j].targetNode
          && forall m | m in steps[j].moves :: m.toNode != steps[i].targetNode)
  }

  /** Nothing movable is left on a node counted as drained. */
  ghost predicate DrainedEmpty(v: Packing, drained: set<string>) {
    forall q | Sits(v, q) && q.nodeName in drained :: !q.IsMovable()
  }

  ghost predicate PlanInvariant(v0: Packing, st: Progress) {
    && Underway(v0, AllMoves(st.steps), st.work, st.drained)
    && DrainedEmpty(st.work, st.drained)
    && OrderlySteps(st.steps)
    && TargetsIn(st.steps, st.drained)
  }

  ghost predicate TargetsIn(steps: seq<PlanStep>, drained: set<string>) {
    forall i | 0 <= i < |steps| :: steps[i].targetNode in drained
  }

  lemma {:induction false} AllMovesExtend(steps: seq<PlanStep>, s: PlanStep)
    ensures AllMoves(steps + [s]) == AllMoves(steps) + s.moves
  {
    assert (steps + [s])[..|steps|] == steps;
  }

  lemma {:induction false} OrderlyExtend(steps: seq<PlanStep>, drained: set<string>, s: PlanStep)
    requires OrderlySteps(steps) && TargetsIn(steps, drained)
    requires s.sequenceNumber == |steps| + 1 && s.moves != [] && s.targetNode !in drained
    requires forall m | m in s.moves :: m.fromNode == s.targetNode && m.toNode !in drained + {s.targetNode}
    ensures OrderlySteps(steps + [s])
  {
    var all := steps + [s];
    forall i | 0 <= i < |all|
      ensures all[i].sequenceNumber == i + 1 && all[i].moves != []
      ensures forall m | m in all[i].moves :: m.fromNode == all[i].targetNode && m.toNode != m.fromNode
    {
      if i < |steps| { assert all[i] == steps[i]; }
    }
    forall i, j | 0 <= i < j < |all|
      ensures all[i].targetNode != all[j].targetNode
      ensures forall m | m in all[j].moves :: m.toNode != all[i].targetNode
    {
      assert all[i] == steps[i];
      if j < |steps| { assert all[j] == steps[j]; }
    }
  }

  lemma {:induction false} TrialMembers(node: string, drained: set<string>, moves: seq<Move>)
    requires TrialMoves([], |moves|, node, drained, moves)
    ensures forall m | m in moves :: m.fromNode == node && m.toNode !in drained + {node}
  {
  }

  lemma {:induction false} EmptyNode(v: Packing, node: string)
    requires Valid(v)
    ensures IsEmpty(v, node) <==> forall q | Sits(v, q) && q.nodeName == node :: !q.IsMovable()
  {
    forall p | p in Occupants(v, node) ensures Sits(v, p) && p.nodeName == node {
      assert p in v.bins[node].occupants;
    }
  }

  lemma {:induction false} IdleKeeps(v0: Packing, st: Progress, n: string, reclaimable: int)
    requires PlanInvariant(v0, st) && IsEmpty(st.work, n)
    ensures PlanInvariant(v0, st.(drained := st.drained + {n}, reclaimable := reclaimable))
  {
    EmptyNode(st.work, n);
    DrainedStays(st.work, st.work, st.drained, n);
  }

  lemma {:induction false} BusyIsNotDrained(v0: Packing, st: Progress, n: string)
    requires PlanInvariant(v0, st) && !IsEmpty(st.work, n)
    ensures n !in st.drained
  {
    EmptyNode(st.work, n);
  }

  lemma {:induction false} ConsiderKeeps(v0: Packing, st: Progress, node: Node, snap: Snapshot, analysis: Analysis,
                                         opts: Options)
    requires PlanInvariant(v0, st)
    ensures PlanInvariant(v0, Consider(st, node, snap, analysis, opts))
  {
    if IsEmpty(st.work, node.name) {
      IdleKeeps(v0, st, node.name, st.reclaimable + Carrying(snap.pods)(node));
    } else if TryDrain(st.work, node.name, st.drained, analysis, opts).Some? {
      BusyIsNotDrained(v0, st, node.name);
      StepKeeps(v0, st, node.name, analysis, opts);
    }
  }

  lemma {:induction false} StepKeeps(v0: Packing, st: Progress, n: string, analysis: Analysis, opts: Options)
    requires PlanInvariant(v0, st) && n !in st.drained && TryDrain(st.work, n, st.drained, analysis, opts).Some?
    ensures var moves := TryDrain(st.work, n, st.drained, analysis, opts).value.moves;
      PlanInvariant(v0, Progress(Replay(st.work, moves), st.drained + {n},
                                 st.steps + [PlanStep(|st.steps| + 1, n, moves)], st.reclaimable))
  {
    var t := TryDrain(st.work, n, st.drained, analysis, opts).value;
    var s := PlanStep(|st.steps| + 1, n, t.moves);
    DrainRuns(v0, AllMoves(st.steps), st.work, n, st.drained, analysis, opts);
    CommitIsTrial(st.work, n, st.drained, analysis, opts);
    AllMovesExtend(st.steps, s);
    TrialMembers(n, st.drained, t.moves);
    OrderlyExtend(st.steps, st.drained, s);
    DrainedStays(st.work, t.packing, st.drained, n);
    TargetsExtend(st.steps, s, st.drained);
  }

  lemma {:induction false} DrainedStays(v: Packing, w: Packing, drained: set<string>, n: string)
    requires DrainedEmpty(v, drained) && NothingArrives(v, w, drained + {n})
    requires forall q | Sits(w, q) && q.nodeName == n :: !q.IsMovable()
    ensures DrainedEmpty(w, drained + {n})
  {
  }

  lemma {:induction false} TargetsExtend(steps: seq<PlanStep>, s: PlanStep, drained: set<string>)
    requires TargetsIn(steps, drained)
    ensures TargetsIn(steps + [s], drained + {s.targetNode})
  {
  }

  lemma {:induction false} RunPlanKeeps(v0: Packing, st: Progress, candidates: seq<Node>, snap: Snapshot,
                                        analysis: Analysis, opts: Options)
    requires PlanInvariant(v0, st)
    ensures PlanInvariant(v0, RunPlan(st, candidates, snap, analysis, opts))
    decreases |candidates|
  {
    if candidates != [] && !LimitReached(opts, |st.steps|) {
      ConsiderKeeps(v0, st, candidates[0], snap, analysis, opts);
      RunPlanKeeps(v0, Consider(st, candidates[0], snap, analysis, opts), candidates[1..], snap, analysis, opts);
    }
  }

  ghost predicate Admissible(snap: Snapshot) {
    UniqueNodes(snap.nodes) && UniquePods(snap.pods) && NonNegativeRequests(snap.pods)
  }

  lemma {:induction false} OutcomeInvariant(snap: Snapshot, analysis: Analysis, opts: Options)
    requires Admissible(snap)
    ensures PlanInvariant(Packed(snap, opts.packCeiling), Outcome(snap, analysis, opts))
  {
    var v0 := Packed(snap, opts.packCeiling);
    PackedSound(snap, opts.packCeiling);
    assert PlanInvariant(v0, Start(snap, opts));
    RunPlanKeeps(v0, Start(snap, opts), Candidates(snap, opts), snap, analysis, opts);
  }

  /** Every move of every plan is legal where it is made; steps are orderly; and at the end no
      node the plan counts as drained holds a movable pod. */
  lemma {:induction false} PlanIsLegal(snap: Snapshot, analysis: Analysis, opts: Options)
    requires Admissible(snap)
    ensures var v0 := Packed(snap, opts.packCeiling);
      var steps := PlanFor(snap, analysis, opts).steps;
      && LegalRun(v0, AllMoves(steps)) && OrderlySteps(steps)
      && (forall i | 0 <= i < |steps| ::
            DrainedEmpty(Replay(v0, AllMoves(steps)), {steps[i].targetNode}))
  {
    OutcomeInvariant(snap, analysis, opts);
  }

  /** After any number of a plan's moves: every pod is still assigned exactly once, unchanged but for
      its node, and no node is used beyond the larger of its starting use and its ceiling. */
  lemma {:induction false} PlanStaysSound(snap: Snapshot, analysis: Analysis, opts: Options, i: nat)
    requires Admissible(snap) && i <= |AllMoves(PlanFor(snap, analysis, opts).steps)|
    ensures var v0 := Packed(snap, opts.packCeiling);
      var v := Replay(v0, AllMoves(PlanFor(snap, analysis, opts).steps)[..i]);
      && UniqueKeys(v) && SameNodes(v0, v) && SamePods(v0, v)
      && WithinCeiling(v0, v, opts.packCeiling)
  {
    var v0, moves := Packed(snap, opts.packCeiling), AllMoves(PlanFor(snap, analysis, opts).steps);
    PackedSound(snap, opts.packCeiling);
    PlanIsLegal(snap, analysis, opts);
    LegalPrefix(v0, moves, i);
    LegalRunSound(v0, opts.packCeiling, moves[..i]);
  }

  /** After any number of a plan's moves, a self-repelling group that started apart is still apart. */
  lemma {:induction false} PlanKeepsGroupsApart(snap: Snapshot, analysis: Analysis, opts: Options, i: nat,
                             ns: string, sel: Option<LabelSelector>, key: string)
    requires Admissible(snap) && i <= |AllMoves(PlanFor(snap, analysis, opts).steps)|
    requires SelfRepelling(Packed(snap, opts.packCeiling), ns, sel, key)
    requires Apart(Packed(snap, opts.packCeiling), ns, sel, key)
    ensures Apart(Replay(Packed(snap, opts.packCeiling), AllMoves(PlanFor(snap, analysis, opts).steps)[..i]),
                  ns, sel, key)
  {
    var v0, moves := Packed(snap, opts.packCeiling), AllMoves(PlanFor(snap, analysis, opts).steps);
    PackedSound(snap, opts.packCeiling);
    PlanIsLegal(snap, analysis, opts);
    LegalPrefix(v0, moves, i);
    GroupsStayApart(v0, moves[..i], ns, sel, key);
  }
}
