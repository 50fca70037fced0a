/**
  Planning ignores list order: permuting a snapshot's nodes and pods changes no step, target,
  destination or counter of the plan. Assignments that hold the same pods on the same nodes, in
  any order, answer every question the planner asks alike.
 */
module PlanOrder {
  import opened Model
  import opened Sums
  import opened Sorting
  import opened Packings
  import opened Planning
  import opened Runs
  import opened PlanSafety

  /** The same assignment up to the order of its lists. */
  ghost predicate Same(v: Packing, w: Packing) {
    && multiset(v.order) == multiset(w.order)
    && v.bins.Keys == w.bins.Keys
    && forall n | n in v.bins :: SameBin(v.bins[n], w.bins[n])
  }

  ghost predicate SameBin(a: Bin, b: Bin) {
    a.node == b.node && a.free == b.free && multiset(a.occupants) == multiset(b.occupants)
  }

  lemma {:induction false} SameMembers(v: Packing, w: Packing, n: string, q: Pod)
    requires Same(v, w)
    ensures q in Occupants(v, n) <==> q in Occupants(w, n)
  {
    if n in v.bins {
      assert SameBin(v.bins[n], w.bins[n]);
      assert q in multiset(v.bins[n].occupants) <==> q in multiset(w.bins[n].occupants);
    }
  }

  // ------------------------------------------------------------ feasibility agrees

  lemma {:induction false} SameHasMatch(a: seq<Pod>, b: seq<Pod>, pod: Pod, term: PodAffinityTerm)
    requires multiset(a) == multiset(b)
    ensures HasMatch(a, pod, term) == HasMatch(b, pod, term)
  {
    forall o ensures o in a <==> o in b { assert o in multiset(a) <==> o in multiset(b); }
  }

  lemma {:induction false} SameDomainMatch(v: Packing, w: Packing, pod: Pod, n: string, term: PodAffinityTerm)
    requires Same(v, w) && n in v.bins
    ensures DomainHasMatch(v, pod, n, term) == DomainHasMatch(w, pod, n, term)
  {
    forall m | m in v.bins
      ensures InDomain(v, n, m, term.topologyKey) == InDomain(w, n, m, term.topologyKey)
      ensures HasMatch(v.bins[m].occupants, pod, term) == HasMatch(w.bins[m].occupants, pod, term)
    {
      assert SameBin(v.bins[m], w.bins[m]) && SameBin(v.bins[n], w.bins[n]);
      SameHasMatch(v.bins[m].occupants, w.bins[m].occupants, pod, term);
    }
  }

  lemma {:induction false} SameDomainCount(v: Packing, w: Packing, ns: string, key: string, sel: Option<LabelSelector>,
                                           d: string)
    requires Same(v, w)
    ensures DomainCount(v, ns, key, sel, d) == DomainCount(w, ns, key, sel, d)
  {
    var f, g := NodeTally(v, ns, key, sel, d), NodeTally(w, ns, key, sel, d);
    forall n | n in v.order ensures f(n) == g(n) {
      if n in v.bins {
        assert SameBin(v.bins[n], w.bins[n]);
        SumPermutation(v.bins[n].occupants, w.bins[n].occupants, Weight(ns, sel));
      }
    }
    SumEqual(v.order, f, g);
    SumPermutation(v.order, w.order, g);
  }

  lemma {:induction false} SameCountsItself(v: Packing, w: Packing, pod: Pod, tsc: TopologySpread)
    requires Same(v, w)
    ensures CountsItself(v, pod, tsc) == CountsItself(w, pod, tsc)
  {
    if pod.nodeName in v.bins {
      assert SameBin(v.bins[pod.nodeName], w.bins[pod.nodeName]);
      forall o ensures o in v.bins[pod.nodeName].occupants <==> o in w.bins[pod.nodeName].occupants {
        SameMembers(v, w, pod.nodeName, o);
      }
    }
  }

  lemma {:induction false} SameSpread(v: Packing, w: Packing, pod: Pod, n: string, tsc: TopologySpread)
    requires Same(v, w) && n in v.bins
    ensures SpreadOk(v, pod, n, tsc) == SpreadOk(w, pod, n, tsc)
  {
    assert SameBin(v.bins[n], w.bins[n]);
    forall m | m in v.bins ensures v.bins[m].node == w.bins[m].node { assert SameBin(v.bins[m], w.bins[m]); }
    SameDomains(v, w, tsc.topologyKey);
    SameCountsItself(v, w, pod, tsc);
    if tsc.topologyKey in v.bins[n].node.labels {
      var target := v.bins[n].node.labels[tsc.topologyKey];
      forall d ensures CountAfter(v, pod, tsc, target, d) == CountAfter(w, pod, tsc, target, d) {
        SameDomainCount(v, w, pod.namespace, tsc.topologyKey, tsc.labelSelector, d);
      }
    }
  }

  lemma {:induction false} SameVerdict(v: Packing, w: Packing, pod: Pod, n: string)
    requires Same(v, w)
    ensures CanPlace(v, pod, n) == CanPlace(w, pod, n)
  {
    if n in v.bins {
      assert SameBin(v.bins[n], w.bins[n]);
      forall t ensures DomainHasMatch(v, pod, n, t) == DomainHasMatch(w, pod, n, t) {
        SameDomainMatch(v, w, pod, n, t);
      }
      forall t ensures SpreadOk(v, pod, n, t) == SpreadOk(w, pod, n, t) {
        SameSpread(v, w, pod, n, t);
      }
    }
  }

  // -------------------------------------------------------------- moves keep it so

  lemma {:induction false} SameUpdate(v: Packing, w: Packing, n: string, a: Bin, b: Bin)
    requires Same(v, w) && n in v.bins && SameBin(a, b)
    ensures Same(v.(bins := v.bins[n := a]), w.(bins := w.bins[n := b]))
  {
  }

  lemma {:induction false} SameAfterPlace(v: Packing, w: Packing, p: Pod, t: string)
    requires Same(v, w)
    ensures Same(Place(v, p, t), Place(w, p, t))
  {
    if t in v.bins {
      assert SameBin(v.bins[t], w.bins[t]);
      SameUpdate(v, w, t, Place(v, p, t).bins[t], Place(w, p, t).bins[t]);
    }
  }

  lemma {:induction false} SameBinWithout(a: Bin, b: Bin, i: nat, j: nat, p: Pod)
    requires SameBin(a, b) && i < |a.occupants| && j < |b.occupants| && a.occupants[i] == b.occupants[j]
    ensures SameBin(BinWithout(a, i, p), BinWithout(b, j, p))
  {
    RemoveAt(a.occupants, i);
    RemoveAt(b.occupants, j);
  }

  ghost function BinWithout(b: Bin, i: nat, p: Pod): Bin
    requires i < |b.occupants|
  {
    b.(free := b.free.Add(p.requests).Add(ONE_POD), occupants := b.occupants[..i] + b.occupants[i + 1..])
  }

  lemma {:induction false} RemoveIsWithout(v: Packing, p: Pod, i: nat)
    requires p.nodeName in v.bins && IndexOf(v.bins[p.nodeName].occupants, p) == i
    ensures Remove(v, p) == v.(bins := v.bins[p.nodeName := BinWithout(v.bins[p.nodeName], i, p)])
  {
  }

  lemma {:induction false} SameAfterRemove(v: Packing, w: Packing, p: Pod)
    requires Same(v, w) && UniqueKeys(v) && UniqueKeys(w) && Sits(v, p)
    ensures Same(Remove(v, p), Remove(w, p))
  {
    var n := p.nodeName;
    SameMembers(v, w, n, p);
    FoundByKey(v, p);
    FoundByKey(w, p);
    var i, j := IndexOf(v.bins[n].occupants, p), IndexOf(w.bins[n].occupants, p);
    RemoveIsWithout(v, p, i);
    RemoveIsWithout(w, p, j);
    SameBinWithout(v.bins[n], w.bins[n], i, j, p);
    SameUpdate(v, w, n, BinWithout(v.bins[n], i, p), BinWithout(w.bins[n], j, p));
  }

  lemma {:induction false} SameAfterMove(v: Packing, w: Packing, p: Pod, t: string)
    requires Same(v, w) && UniqueKeys(v) && UniqueKeys(w) && Sits(v, p)
    ensures Same(Relocated(v, p, t), Relocated(w, p, t))
  {
    SameAfterRemove(v, w, p);
    SameAfterPlace(Remove(v, p), Remove(w, p), p, t);
  }

  // --------------------------------------------------------------------- first fit

  ghost function IsOption(v: Packing, pod: Pod, source: string, drained: set<string>, c: Candidate): string -> int {
    (n: string) => if MayReceive(v, pod, source, drained, n) && c == Candidate(n, Fullness(v, n)) then 1 else 0
  }

  lemma {:induction false} OptionTally(v: Packing, pod: Pod, source: string, drained: set<string>, names: seq<string>,
                                       c: Candidate)
    ensures multiset(FitOptions(v, pod, source, drained, names))[c] == Sum(names, IsOption(v, pod, source, drained, c))
  {
    if names != [] {
      OptionTally(v, pod, source, drained, names[..|names| - 1], c);
    }
  }

  lemma {:induction false} SameFullness(v: Packing, w: Packing, n: string)
    requires Same(v, w)
    ensures Fullness(v, n) == Fullness(w, n)
  {
    if n in v.bins {
      assert SameBin(v.bins[n], w.bins[n]);
      SumPermutation(v.bins[n].occupants, w.bins[n].occupants, Cpu());
      SumPermutation(v.bins[n].occupants, w.bins[n].occupants, Mem());
      SumPermutation(v.bins[n].occupants, w.bins[n].occupants, Slots());
    }
  }

  lemma {:induction false} SameOption(v: Packing, w: Packing, pod: Pod, source: string, drained: set<string>,
                                      c: Candidate, n: string)
    requires Same(v, w) && n in v.bins
    ensures IsOption(v, pod, source, drained, c)(n) == IsOption(w, pod, source, drained, c)(n)
  {
    SameVerdict(v, w, pod, n);
    SameFullness(v, w, n);
  }

  lemma {:induction false} SameOptionSum(v: Packing, w: Packing, pod: Pod, source: string, drained: set<string>,
                                         c: Candidate)
    requires Same(v, w) && Valid(v)
    ensures Sum(v.order, IsOption(v, pod, source, drained, c)) == Sum(w.order, IsOption(w, pod, source, drained, c))
  {
    var f, g := IsOption(v, pod, source, drained, c), IsOption(w, pod, source, drained, c);
    forall n | n in v.order ensures f(n) == g(n) { SameOption(v, w, pod, source, drained, c, n); }
    SumEqual(v.order, f, g);
    SumPermutation(v.order, w.order, g);
  }

  lemma {:induction false} SameOptions(v: Packing, w: Packing, pod: Pod, source: string, drained: set<string>)
    requires Same(v, w) && Valid(v)
    ensures multiset(FitOptions(v, pod, source, drained, v.order))
         == multiset(FitOptions(w, pod, source, drained, w.order))
  {
    var a := multiset(FitOptions(v, pod, source, drained, v.order));
    var b := multiset(FitOptions(w, pod, source, drained, w.order));
    forall c ensures a[c] == b[c] {
      OptionTally(v, pod, source, drained, v.order, c);
      OptionTally(w, pod, source, drained, w.order, c);
      SameOptionSum(v, w, pod, source, drained, c);
    }
  }

  lemma {:induction false} SameFirstFit(v: Packing, w: Packing, pod: Pod, source: string, drained: set<string>)
    requires Same(v, w) && Valid(v)
    ensures FirstFit(v, pod, source, drained) == FirstFit(w, pod, source, drained)
  {
    var a, b := FitOptions(v, pod, source, drained, v.order), FitOptions(w, pod, source, drained, w.order);
    SameOptions(v, w, pod, source, drained);
    var d := set c | c in a;
    PreferredTotal(d);
    SortIgnoresOrder(a, b, PreferredTo, d);
  }

  // --------------------------------------------------------------------- the trial

  ghost predicate SameTrial(a: Option<Trial>, b: Option<Trial>) {
    && a.Some? == b.Some?
    && (a.Some? ==> a.value.moves == b.value.moves && Same(a.value.packing, b.value.packing))
  }

  lemma {:induction false} SameRelocate(v: Packing, w: Packing, pods: seq<Pod>, source: string, drained: set<string>,
                                        moves: seq<Move>)
    requires Same(v, w) && Valid(v) && Valid(w) && UniqueKeys(v) && UniqueKeys(w)
    requires AllOn(v, pods, source) && Distinct(pods)
    ensures SameTrial(Relocate(v, pods, source, drained, moves), Relocate(w, pods, source, drained, moves))
    decreases |pods|
  {
    if pods != [] {
      var p := pods[0];
      assert p in pods;
      SameFirstFit(v, w, p, source, drained);
      var t := FirstFit(v, p, source, drained);
      if t != "" {
        FirstFitAdmits(v, p, source, drained);
        SameMembers(v, w, source, p);
        SameAfterMove(v, w, p, t);
        RelocatedUnique(v, p, t);
        RelocatedUnique(w, p, t);
        StepOff(v, pods, source, drained, t);
        TailDistinct(pods);
        SameRelocate(Relocated(v, p, t), Relocated(w, p, t), pods[1..], source, drained,
                     moves + [MoveOf(p, source, t)]);
      }
    }
  }

  ghost function IsMovablePod(p: Pod): Pod -> int { (q: Pod) => if q == p && q.IsMovable() then 1 else 0 }

  lemma {:induction false} MovableTally(occ: seq<Pod>, p: Pod)
    ensures multiset(MovablePods(occ))[p] == Sum(occ, IsMovablePod(p))
  {
    if occ != [] { MovableTally(occ[..|occ| - 1], p); }
  }

  lemma {:induction false} SameMovable(a: seq<Pod>, b: seq<Pod>)
    requires multiset(a) == multiset(b)
    ensures multiset(MovablePods(a)) == multiset(MovablePods(b))
  {
    forall p ensures multiset(MovablePods(a))[p] == multiset(MovablePods(b))[p] {
      MovableTally(a, p);
      MovableTally(b, p);
      SumPermutation(a, b, IsMovablePod(p));
    }
  }

  /** Pods whose keys differ are totally ordered by size and key. */
  lemma {:induction false} PlacementOrderTotal(d: set<Pod>)
    requires forall a, b | a in d && b in d && a != b :: a.Key() != b.Key()
    ensures TotalOn(d, PlacedBefore)
  {
    forall a, b | a in d && b in d
      ensures a != b ==> PlacedBefore(a, b) || PlacedBefore(b, a)
      ensures PlacedBefore(a, b) ==> !PlacedBefore(b, a)
    {
      StringLessTotal(a.Key(), b.Key());
    }
    forall a, b, c | a in d && b in d && c in d && PlacedBefore(a, b) && PlacedBefore(b, c)
      ensures PlacedBefore(a, c)
    {
      if StringLess(a.Key(), b.Key()) && StringLess(b.Key(), c.Key()) {
        StringLessTransitive(a.Key(), b.Key(), c.Key());
      }
    }
  }

  lemma {:induction false} SameSortedPods(v: Packing, w: Packing, n: string)
    requires Same(v, w) && Valid(v) && UniqueKeys(v)
    ensures SortPodsBySizeDesc(MovablePods(Occupants(v, n))) == SortPodsBySizeDesc(MovablePods(Occupants(w, n)))
    ensures multiset(MovablePods(Occupants(v, n))) == multiset(MovablePods(Occupants(w, n)))
  {
    var a, b := MovablePods(Occupants(v, n)), MovablePods(Occupants(w, n));
    if n in v.bins { assert SameBin(v.bins[n], w.bins[n]); }
    SameMovable(Occupants(v, n), Occupants(w, n));
    MovableMembers(Occupants(v, n));
    var d := set p | p in a;
    forall p: Pod, q: Pod | p in d && q in d && p != q ensures p.Key() != q.Key() {
      assert p in v.bins[n].occupants && q in v.bins[n].occupants;
      DistinctKeys(v, p, q);
    }
    PlacementOrderTotal(d);
    SortIgnoresOrder(a, b, PlacedBefore, d);
  }

  lemma {:induction false} SameTryDrain(v: Packing, w: Packing, n: string, drained: set<string>, analysis: Analysis,
                                        opts: Options)
    requires Same(v, w) && Valid(v) && Valid(w) && UniqueKeys(v) && UniqueKeys(w)
    ensures SameTrial(TryDrain(v, n, drained, analysis, opts), TryDrain(w, n, drained, analysis, opts))
  {
    var a, b := MovablePods(Occupants(v, n)), MovablePods(Occupants(w, n));
    SameSortedPods(v, w, n);
    assert |multiset(a)| == |a| && |multiset(b)| == |b|;
    forall p ensures p in a <==> p in b { assert p in multiset(a) <==> p in multiset(b); }
    DrainPods(v, n);
    SameRelocate(v, w, SortPodsBySizeDesc(a), n, drained, []);
  }

  // ------------------------------------------------------------------ the plan loop

  ghost predicate SameProgress(a: Progress, b: Progress) {
    && Same(a.work, b.work) && Valid(a.work) && Valid(b.work) && UniqueKeys(a.work) && UniqueKeys(b.work)
    && a.drained == b.drained && a.steps == b.steps && a.reclaimable == b.reclaimable
  }

  lemma {:induction false} SameRequested(a: seq<Pod>, b: seq<Pod>, n: string)
    requires multiset(a) == multiset(b)
    ensures RequestedOnNode(a, n) == RequestedOnNode(b, n)
  {
    SumPermutation(a, b, CpuOn(n));
    SumPermutation(a, b, MemOn(n));
    SumPermutation(a, b, SlotsOn(n));
  }

  lemma {:induction false} SameConsider(a: Progress, b: Progress, node: Node, s: Snapshot, t: Snapshot,
                                        analysis: Analysis, opts: Options)
    requires SameProgress(a, b) && multiset(s.pods) == multiset(t.pods)
    ensures SameProgress(Consider(a, node, s, analysis, opts), Consider(b, node, t, analysis, opts))
  {
    var n := node.name;
    SameRequested(s.pods, t.pods, n);
    forall p ensures p in Occupants(a.work, n) <==> p in Occupants(b.work, n) { SameMembers(a.work, b.work, n, p); }
    assert IsEmpty(a.work, n) == IsEmpty(b.work, n);
    if !IsEmpty(a.work, n) {
      SameTryDrain(a.work, b.work, n, a.drained, analysis, opts);
      if TryDrain(a.work, n, a.drained, analysis, opts).Some? {
        CommitKeepsSame(a.work, b.work, n, a.drained, analysis, opts);
      }
    }
  }

  lemma {:induction false} CommitKeepsSame(v: Packing, w: Packing, n: string, drained: set<string>, analysis: Analysis,
                                           opts: Options)
    requires Same(v, w) && Valid(v) && Valid(w) && UniqueKeys(v) && UniqueKeys(w)
    requires TryDrain(v, n, drained, analysis, opts).Some? && TryDrain(w, n, drained, analysis, opts).Some?
    requires SameTrial(TryDrain(v, n, drained, analysis, opts), TryDrain(w, n, drained, analysis, opts))
    ensures var moves := TryDrain(v, n, drained, analysis, opts).value.moves;
      && Same(Replay(v, moves), Replay(w, moves))
      && Valid(Replay(v, moves)) && Valid(Replay(w, moves))
      && UniqueKeys(Replay(v, moves)) && UniqueKeys(Replay(w, moves))
  {
    DrainRuns(v, [], v, n, drained, analysis, opts);
    DrainRuns(w, [], w, n, drained, analysis, opts);
    CommitIsTrial(v, n, drained, analysis, opts);
    CommitIsTrial(w, n, drained, analysis, opts);
  }

  lemma {:induction false} SameRunPlan(a: Progress, b: Progress, candidates: seq<Node>, s: Snapshot, t: Snapshot,
                                       analysis: Analysis, opts: Options)
    requires SameProgress(a, b) && multiset(s.pods) == multiset(t.pods)
    ensures SameProgress(RunPlan(a, candidates, s, analysis, opts), RunPlan(b, candidates, t, analysis, opts))
    decreases |candidates|
  {
    if candidates != [] && !LimitReached(opts, |a.steps|) {
      SameConsider(a, b, candidates[0], s, t, analysis, opts);
      SameRunPlan(Consider(a, candidates[0], s, analysis, opts), Consider(b, candidates[0], t, analysis, opts),
                  candidates[1..], s, t, analysis, opts);
    }
  }

  // --------------------------------------------------------------- where it starts

  ghost function IsLoaded(n: string, q: Pod): Pod -> int {
    (p: Pod) => if p == q && p.nodeName == n && n != "" then 1 else 0
  }

  lemma {:induction false} LoadTally(v0: Packing, pods: seq<Pod>, n: string, q: Pod)
    requires n in v0.bins && forall m | m in v0.bins :: v0.bins[m].occupants == []
    ensures Load(v0, pods).bins.Keys == v0.bins.Keys && Load(v0, pods).order == v0.order
    ensures Load(v0, pods).bins[n].node == v0.bins[n].node
    ensures multiset(Load(v0, pods).bins[n].occupants)[q] == Sum(pods, IsLoaded(n, q))
  {
    if pods != [] {
      LoadTally(v0, pods[..|pods| - 1], n, q);
      var p := pods[|pods| - 1];
      assert p.(nodeName := p.nodeName) == p;
    }
  }

  /** Loading is exact: the capacity less everything assigned, clamped once. */
  lemma {:induction false} LoadFree(v0: Packing, pods: seq<Pod>, n: string)
    requires n in v0.bins && (forall m | m in v0.bins :: v0.bins[m].occupants == []) && NonNegativeRequests(pods)
    ensures n in Load(v0, pods).bins
    ensures Load(v0, pods).bins[n].free
         == if Load(v0, pods).bins[n].occupants == [] then v0.bins[n].free
            else v0.bins[n].free.Sub(UsedOn(Load(v0, pods), n))
  {
    if pods != [] {
      var rest, p := pods[..|pods| - 1], pods[|pods| - 1];
      assert NonNegativeRequests(rest) && p in pods;
      LoadFree(v0, rest, n);
      var v := Load(v0, rest);
      if p.nodeName == n && n != "" {
        UsedPlace(v, p, n);
        FreeAfter(v.bins[n].free, v0.bins[n].free, UsedOn(v, n), p.Footprint());
      }
    }
  }

  lemma {:induction false} SameBare(s: Snapshot, t: Snapshot, ceiling: real)
    requires UniqueNodes(s.nodes) && UniqueNodes(t.nodes) && multiset(s.nodes) == multiset(t.nodes)
    ensures BareBins(s.nodes, ceiling) == BareBins(t.nodes, ceiling)
    ensures multiset(NodeNames(s.nodes)) == multiset(NodeNames(t.nodes))
  {
    var a, b := BareBins(s.nodes, ceiling), BareBins(t.nodes, ceiling);
    forall n | n in a ensures n in b && a[n] == b[n] { SameBareBin(s.nodes, t.nodes, ceiling, n); }
    forall n | n in b ensures n in a { SameBareBin(t.nodes, s.nodes, ceiling, n); }
    NamesPermute(s.nodes, t.nodes);
  }

  lemma {:induction false} SameBareBin(a: seq<Node>, b: seq<Node>, ceiling: real, n: string)
    requires UniqueNodes(a) && UniqueNodes(b) && multiset(a) == multiset(b) && n in BareBins(a, ceiling)
    ensures n in BareBins(b, ceiling) && BareBins(b, ceiling)[n] == BareBins(a, ceiling)[n]
  {
    BareBinsAt(a, ceiling);
    BareBinsAt(b, ceiling);
    var node := BareBins(a, ceiling)[n].node;
    assert node in multiset(a) && node in multiset(b);
    var j :| 0 <= j < |b| && b[j] == node;
  }

  ghost function IsNamed(name: string): Node -> int { (n: Node) => if n.name == name then 1 else 0 }

  lemma {:induction false} NamesTally(nodes: seq<Node>, name: string)
    ensures multiset(NodeNames(nodes))[name] == Sum(nodes, IsNamed(name))
  {
    if nodes != [] {
      NamesTally(nodes[..|nodes| - 1], name);
      assert NodeNames(nodes) == NodeNames(nodes[..|nodes| - 1]) + [nodes[|nodes| - 1].name];
    }
  }

  lemma {:induction false} NamesPermute(a: seq<Node>, b: seq<Node>)
    requires multiset(a) == multiset(b)
    ensures multiset(NodeNames(a)) == multiset(NodeNames(b))
  {
    forall name ensures multiset(NodeNames(a))[name] == multiset(NodeNames(b))[name] {
      NamesTally(a, name);
      NamesTally(b, name);
      SumPermutation(a, b, IsNamed(name));
    }
  }

  lemma {:induction false} SameLoad(v0: Packing, w0: Packing, a: seq<Pod>, b: seq<Pod>)
    requires v0.bins == w0.bins && multiset(v0.order) == multiset(w0.order) && multiset(a) == multiset(b)
    requires forall m | m in v0.bins :: v0.bins[m].occupants == []
    requires NonNegativeRequests(a) && NonNegativeRequests(b)
    ensures Same(Load(v0, a), Load(w0, b))
  {
    var v, w := Load(v0, a), Load(w0, b);
    LoadKeys(v0, a);
    LoadKeys(w0, b);
    forall n | n in v.bins ensures SameBin(v.bins[n], w.bins[n]) {
      forall q ensures multiset(v.bins[n].occupants)[q] == multiset(w.bins[n].occupants)[q] {
        LoadTally(v0, a, n, q);
        LoadTally(w0, b, n, q);
        SumPermutation(a, b, IsLoaded(n, q));
      }
      assert multiset(v.bins[n].occupants) == multiset(w.bins[n].occupants);
      SameLoadedFree(v0, w0, a, b, n);
    }
  }

  lemma {:induction false} LoadKeys(v0: Packing, pods: seq<Pod>)
    ensures Load(v0, pods).bins.Keys == v0.bins.Keys && Load(v0, pods).order == v0.order
    ensures forall n | n in v0.bins :: Load(v0, pods).bins[n].node == v0.bins[n].node
  {
    if pods != [] { LoadKeys(v0, pods[..|pods| - 1]); }
  }

  lemma {:induction false} SameLoadedFree(v0: Packing, w0: Packing, a: seq<Pod>, b: seq<Pod>, n: string)
    requires v0.bins == w0.bins && n in v0.bins && n in Load(v0, a).bins && n in Load(w0, b).bins
    requires forall m | m in v0.bins :: v0.bins[m].occupants == []
    requires NonNegativeRequests(a) && NonNegativeRequests(b)
    requires multiset(Load(v0, a).bins[n].occupants) == multiset(Load(w0, b).bins[n].occupants)
    ensures Load(v0, a).bins[n].free == Load(w0, b).bins[n].free
  {
    var x, y := Load(v0, a).bins[n].occupants, Load(w0, b).bins[n].occupants;
    LoadFree(v0, a, n);
    LoadFree(w0, b, n);
    SumPermutation(x, y, Cpu());
    SumPermutation(x, y, Mem());
    SumPermutation(x, y, Slots());
    assert |multiset(x)| == |x| && |multiset(y)| == |y|;
  }

  // -------------------------------------------------------------------- candidates

  ghost function IsCandidateNode(opts: Options, now: int, c: Node): Node -> int {
    (n: Node) => if n == c && IsCandidate(opts, n, now) then 1 else 0
  }

  lemma {:induction false} CandidateTally(nodes: seq<Node>, opts: Options, now: int, c: Node)
    ensures multiset(DrainCandidates(nodes, opts, now))[c] == Sum(nodes, IsCandidateNode(opts, now, c))
  {
    if nodes != [] { CandidateTally(nodes[..|nodes| - 1], opts, now, c); }
  }

  lemma {:induction false} SortSameOrder(s: seq<Node>, f: (Node, Node) -> bool, g: (Node, Node) -> bool)
    requires forall a, b :: f(a, b) == g(a, b)
    ensures StableSort(s, f) == StableSort(s, g)
  {
    if s != [] {
      SortSameOrder(s[1..], f, g);
      InsertSameOrder(s[0], StableSort(s[1..], f), f, g);
    }
  }

  lemma {:induction false} InsertSameOrder(x: Node, s: seq<Node>, f: (Node, Node) -> bool, g: (Node, Node) -> bool)
    requires forall a, b :: f(a, b) == g(a, b)
    ensures Insert(x, s, f) == Insert(x, s, g)
  {
    if s != [] { InsertSameOrder(x, s[1..], f, g); }
  }

  lemma {:induction false} DrainOrderTotal(v: Packing, d: set<Node>)
    requires forall a, b | a in d && b in d && a != b :: a.name != b.name
    ensures TotalOn(d, DrainOrder(v))
  {
    var less := DrainOrder(v);
    forall a, b | a in d && b in d
      ensures a != b ==> less(a, b) || less(b, a)
      ensures less(a, b) ==> !less(b, a)
    {
      StringLessTotal(a.name, b.name);
    }
    forall a, b, c | a in d && b in d && c in d && less(a, b) && less(b, c)
      ensures less(a, c)
    {
      if StringLess(a.name, b.name) && StringLess(b.name, c.name) { StringLessTransitive(a.name, b.name, c.name); }
    }
  }

  lemma {:induction false} SameCandidateOrder(v: Packing, w: Packing, a: seq<Node>, b: seq<Node>, opts: Options,
                                              now: int)
    requires Same(v, w) && multiset(a) == multiset(b) && UniqueNodes(a)
    ensures SortNodesForDraining(v, DrainCandidates(a, opts, now))
         == SortNodesForDraining(w, DrainCandidates(b, opts, now))
  {
    var p, q := DrainCandidates(a, opts, now), DrainCandidates(b, opts, now);
    forall c ensures multiset(p)[c] == multiset(q)[c] {
      CandidateTally(a, opts, now, c);
      CandidateTally(b, opts, now, c);
      SumPermutation(a, b, IsCandidateNode(opts, now, c));
    }
    assert multiset(p) == multiset(q);
    var d := set c | c in p;
    CandidateMembers(a, opts, now);
    forall x: Node, y: Node | x in d && y in d && x != y ensures x.name != y.name {
      var i :| 0 <= i < |a| && a[i] == x;
      var j :| 0 <= j < |a| && a[j] == y;
      assert i < j || j < i;
    }
    DrainOrderTotal(v, d);
    SortIgnoresOrder(p, q, DrainOrder(v), d);
    forall x, y ensures DrainOrder(v)(x, y) == DrainOrder(w)(x, y) {
      SameRatio(v, w, x);
      SameRatio(v, w, y);
    }
    SortSameOrder(q, DrainOrder(v), DrainOrder(w));
  }

  lemma {:induction false} SameRatio(v: Packing, w: Packing, n: Node)
    requires Same(v, w)
    ensures RequestedRatio(v, n) == RequestedRatio(w, n)
  {
    if n.name in v.bins { assert SameBin(v.bins[n.name], w.bins[n.name]); }
  }

  lemma {:induction false} SameOccupied(s: Snapshot, t: Snapshot)
    requires multiset(s.nodes) == multiset(t.nodes) && multiset(s.pods) == multiset(t.pods)
    ensures OccupiedInSnapshot(s) == OccupiedInSnapshot(t)
  {
    forall n | n in s.nodes ensures Carrying(s.pods)(n) == Carrying(t.pods)(n) {
      SameRequested(s.pods, t.pods, n.name);
    }
    SumEqual(s.nodes, Carrying(s.pods), Carrying(t.pods));
    SumPermutation(s.nodes, t.nodes, Carrying(t.pods));
  }

  // -------------------------------------------------------------------- the theorem

  lemma {:induction false} SamePacked(s: Snapshot, t: Snapshot, ceiling: real)
    requires Admissible(s) && Admissible(t)
    requires multiset(s.nodes) == multiset(t.nodes) && multiset(s.pods) == multiset(t.pods)
    ensures Same(Packed(s, ceiling), Packed(t, ceiling))
  {
    SameBare(s, t, ceiling);
    BareFree(s, ceiling);
    SameLoad(Bare(s, ceiling), Bare(t, ceiling), s.pods, t.pods);
  }

  lemma {:induction false} PermutedAdmissible(s: Snapshot, t: Snapshot)
    requires Admissible(s) && multiset(s.nodes) == multiset(t.nodes) && multiset(s.pods) == multiset(t.pods)
    ensures Admissible(t)
  {
    NamesPermute(s.nodes, t.nodes);
    assert Distinct(NodeNames(s.nodes));
    DistinctPermutation(NodeNames(s.nodes), NodeNames(t.nodes));
    forall i, j | 0 <= i < j < |t.nodes| ensures t.nodes[i].name != t.nodes[j].name {
      assert NodeNames(t.nodes)[i] != NodeNames(t.nodes)[j];
    }
    assert Distinct(s.pods);
    DistinctPermutation(s.pods, t.pods);
    forall i, j | 0 <= i < j < |t.pods| ensures t.pods[i].Key() != t.pods[j].Key() {
      assert t.pods[i] in multiset(s.pods) && t.pods[j] in multiset(s.pods) && t.pods[i] != t.pods[j];
      var k :| 0 <= k < |s.pods| && s.pods[k] == t.pods[i];
      var l :| 0 <= l < |s.pods| && s.pods[l] == t.pods[j];
      assert k < l || l < k;
    }
    forall p | p in t.pods ensures p.requests.NonNegative() { assert p in multiset(s.pods); }
  }

  /** Permuted snapshots start the planner from the same assignment. */
  lemma {:induction false} SameStart(s: Snapshot, t: Snapshot, opts: Options)
    requires Admissible(s) && Admissible(t)
    requires multiset(s.nodes) == multiset(t.nodes) && multiset(s.pods) == multiset(t.pods)
    ensures SameProgress(Start(s, opts), Start(t, opts))
  {
    SamePacked(s, t, opts.packCeiling);
    PackedSound(s, opts.packCeiling);
    PackedSound(t, opts.packCeiling);
  }

  /** And on the same candidates in the same order. */
  lemma {:induction false} SameCandidates(s: Snapshot, t: Snapshot, opts: Options)
    requires Admissible(s) && Admissible(t) && s.takenAt == t.takenAt
    requires multiset(s.nodes) == multiset(t.nodes) && multiset(s.pods) == multiset(t.pods)
    ensures Candidates(s, opts) == Candidates(t, opts)
  {
    SamePacked(s, t, opts.packCeiling);
    SameCandidateOrder(Packed(s, opts.packCeiling), Packed(t, opts.packCeiling), s.nodes, t.nodes, opts, Now(s, opts));
  }

  /** Planning ignores list order: permuted snapshots yield the identical plan. */
  lemma {:induction false} PlanIgnoresListOrder(s: Snapshot, t: Snapshot, analysis: Analysis, opts: Options)
    requires Admissible(s) && s.takenAt == t.takenAt
    requires multiset(s.nodes) == multiset(t.nodes) && multiset(s.pods) == multiset(t.pods)
    ensures PlanFor(s, analysis, opts) == PlanFor(t, analysis, opts)
  {
    PermutedAdmissible(s, t);
    SameStart(s, t, opts);
    SameCandidates(s, t, opts);
    SameOccupied(s, t);
    SameRunPlan(Start(s, opts), Start(t, opts), Candidates(s, opts), s, t, analysis, opts);
  }
}
