/**
  The hard rules read off the fields (internal/constraints/placement.go:168-443): which taints, labels, neighbours
  and counts bar a pod from a node, stated without the predicates that decide it, and carried to every move of
  every plan.
 */
module Admission {
  import opened Model
  import opened Matching
  import opened Sums
  import opened Packings
  import opened Planning
  import opened Runs
  import opened PlanSafety

  // ------------------------------------------------------------------ the node alone

  /** The toleration covers the taint: for its effect or any, and either for every key, or for its key with any value or
      the same one. */
  predicate Covers(tol: Toleration, t: Taint) {
    && (tol.effect == None || tol.effect == Some(t.effect))
    && (|| (tol.key == "" && tol.operator == TolExists)
        || (tol.key != "" && tol.key == t.key && tol.operator == TolExists)
        || (tol.key != "" && tol.key == t.key && tol.value == t.value
            && (tol.operator == TolEqual || tol.operator == TolUnset)))
  }

  /** Every taint that keeps pods off or drives them out is covered by some toleration of the pod. */
  ghost predicate TaintsCovered(pod: Pod, node: Node) {
    forall t | t in node.taints && (t.effect == NoSchedule || t.effect == NoExecute) ::
      exists tol | tol in pod.tolerations :: Covers(tol, t)
  }

  ghost predicate Affine(pod: Pod, node: Node) {
    |pod.nodeAffinity| > 0 ==> exists i | 0 <= i < |pod.nodeAffinity| :: TermHolds(pod.nodeAffinity[i], node.labels)
  }

  /** What the node alone says of the pod. */
  ghost predicate Welcomes(node: Node, pod: Pod) {
    && node.ready && !node.unschedulable
    && TaintsCovered(pod, node) && Carries(node.labels, pod.nodeSelector) && Affine(pod, node)
  }

  // ------------------------------------------------------------------ its neighbours

  /** Pod o is assigned within the domain that node n has for the key: the same node, or one with the same label. */
  ghost predicate Near(v: Packing, n: string, o: Pod, key: string)
    requires n in v.bins
  {
    if key == LABEL_HOSTNAME then o.nodeName == n
    else
      && o.nodeName in v.bins && key in v.bins[n].node.labels
      && if key in v.bins[o.nodeName].node.labels
         then v.bins[o.nodeName].node.labels[key] == v.bins[n].node.labels[key]
         else v.bins[n].node.labels[key] == ""
  }

  /** The term names pod o: another pod, of the namespaces listed or the pod's own, that the selector picks. */
  ghost predicate Concerns(term: PodAffinityTerm, pod: Pod, o: Pod) {
    && (o.namespace == pod.namespace ==> o.name != pod.name)
    && (if |term.namespaces| == 0 then o.namespace == pod.namespace else o.namespace in term.namespaces)
    && Picks(term.labelSelector, o.labels)
  }

  /** Some pod that the term names is near node n. */
  ghost predicate Meeting(v: Packing, pod: Pod, n: string, term: PodAffinityTerm)
    requires n in v.bins
  {
    exists o :: Sits(v, o) && Near(v, n, o, term.topologyKey) && Concerns(term, pod, o)
  }

  ghost predicate NeighboursAllow(v: Packing, pod: Pod, n: string)
    requires n in v.bins
  {
    match pod.podAffinity
    case None => true
    case Some(a) =>
      && (forall t | t in a.requiredAntiAffinity :: !Meeting(v, pod, n, t))
      && (forall t | t in a.requiredAffinity :: Meeting(v, pod, n, t))
  }

  // ---------------------------------------------------------------------- its spread

  /** The other pods of the pod's namespace that the selector picks, on nodes labelled d. */
  ghost function Others(v: Packing, pod: Pod, key: string, sel: Option<LabelSelector>, d: string): set<Pod> {
    set o | o in AllPods(v) && o.nodeName in v.bins && key in v.bins[o.nodeName].node.labels
      && v.bins[o.nodeName].node.labels[key] == d
      && o.namespace == pod.namespace && o.name != pod.name && Picks(sel, o.labels)
  }

  ghost function AllPods(v: Packing): set<Pod> { set n, o | n in v.bins && o in v.bins[n].occupants :: o }

  /** With the pod in it, the first domain holds at most maxSkew more than the second. */
  ghost predicate PairAllows(v: Packing, pod: Pod, c: TopologySpread, here: string, there: string) {
    0 <= c.maxSkew && (here == there
      || |Others(v, pod, c.topologyKey, c.labelSelector, here)| + 1
           <= |Others(v, pod, c.topologyKey, c.labelSelector, there)| + c.maxSkew)
  }

  /** A hard constraint holds on node n: it has the key, and its domain holds at most maxSkew more than any other. */
  ghost predicate SpreadAllows(v: Packing, pod: Pod, n: string, c: TopologySpread)
    requires n in v.bins
  {
    c.hard ==>
      && 0 <= c.maxSkew && c.topologyKey in v.bins[n].node.labels
      && forall m | m in v.bins && c.topologyKey in v.bins[m].node.labels ::
           PairAllows(v, pod, c, v.bins[n].node.labels[c.topologyKey], v.bins[m].node.labels[c.topologyKey])
  }

  /** The pod asks for no more than is free, its one slot included. */
  ghost predicate RoomFor(free: Resources, pod: Pod) {
    pod.requests.milliCPU <= free.milliCPU && pod.requests.memoryBytes <= free.memoryBytes
    && pod.requests.pods + 1 <= free.pods
  }

  /** All nine rules, by the fields they are about. */
  ghost predicate Lawful(v: Packing, pod: Pod, n: string) {
    && n in v.bins && Welcomes(v.bins[n].node, pod) && RoomFor(v.bins[n].free, pod)
    && NeighboursAllow(v, pod, n)
    && forall c | c in pod.topologySpread :: SpreadAllows(v, pod, n, c)
  }

  // --------------------------------------------------------------------- the same rules

  /** A node's taints bar a pod exactly when one of them that keeps pods off or drives them out is not covered. */
  lemma {:induction false} TaintsBarExactly(pod: Pod, node: Node)
    ensures FitsTaints(pod, node) <==> TaintsCovered(pod, node)
  {
    assert forall t: Taint, tol: Toleration :: tol.ToleratesTaint(t) <==> Covers(tol, t);
  }

  lemma {:induction false} NodeWelcomes(pod: Pod, node: Node)
    ensures node.ready && !node.unschedulable && FitsTaints(pod, node) && FitsNodeSelector(pod, node)
            && FitsNodeAffinity(pod, node)
       <==> Welcomes(node, pod)
  {
    TaintsBarExactly(pod, node);
    forall term | term in pod.nodeAffinity
      ensures (forall r | r in term :: r.Matches(node.labels)) <==> TermHolds(term, node.labels)
    {
      TermMet(term, node.labels);
    }
  }

  lemma {:induction false} ConcernsExactly(term: PodAffinityTerm, pod: Pod, o: Pod)
    ensures !SameKey(pod, o) && TermMatches(term, o, pod.namespace) <==> Concerns(term, pod, o)
  {
    SelectorPicks(term.labelSelector, o.labels);
  }

  lemma {:induction false} MatchIsMet(v: Packing, pod: Pod, n: string, term: PodAffinityTerm)
    requires Valid(v) && n in v.bins && DomainHasMatch(v, pod, n, term)
    ensures Meeting(v, pod, n, term)
  {
    var m :| m in v.bins && InDomain(v, n, m, term.topologyKey) && HasMatch(v.bins[m].occupants, pod, term);
    var o :| o in v.bins[m].occupants && !SameKey(pod, o) && TermMatches(term, o, pod.namespace);
    ConcernsExactly(term, pod, o);
    assert Sits(v, o) && Near(v, n, o, term.topologyKey);
  }

  lemma {:induction false} MetIsMatch(v: Packing, pod: Pod, n: string, term: PodAffinityTerm)
    requires Valid(v) && n in v.bins && Meeting(v, pod, n, term)
    ensures DomainHasMatch(v, pod, n, term)
  {
    var o :| Sits(v, o) && Near(v, n, o, term.topologyKey) && Concerns(term, pod, o);
    ConcernsExactly(term, pod, o);
    assert HasMatch(v.bins[o.nodeName].occupants, pod, term);
    assert InDomain(v, n, o.nodeName, term.topologyKey);
  }

  lemma {:induction false} MeetingExactly(v: Packing, pod: Pod, n: string, term: PodAffinityTerm)
    requires Valid(v) && n in v.bins
    ensures DomainHasMatch(v, pod, n, term) <==> Meeting(v, pod, n, term)
  {
    if DomainHasMatch(v, pod, n, term) { MatchIsMet(v, pod, n, term); }
    if Meeting(v, pod, n, term) { MetIsMatch(v, pod, n, term); }
  }

  lemma {:induction false} NeighboursExactly(v: Packing, pod: Pod, n: string)
    requires Valid(v) && n in v.bins
    ensures AntiAffinityOk(v, pod, n) && AffinityOk(v, pod, n) <==> NeighboursAllow(v, pod, n)
  {
    forall term ensures DomainHasMatch(v, pod, n, term) <==> Meeting(v, pod, n, term) {
      MeetingExactly(v, pod, n, term);
    }
  }

  // ------------------------------------------------------------- counting is cardinality

  /** What of a list counts. */
  ghost function Counted(occ: seq<Pod>, ns: string, sel: Option<LabelSelector>): set<Pod> {
    set o | o in occ && Counts(o, ns, sel)
  }

  lemma {:induction false} CountedStep(front: seq<Pod>, last: Pod, ns: string, sel: Option<LabelSelector>)
    ensures Counted(front + [last], ns, sel)
         == if Counts(last, ns, sel) then Counted(front, ns, sel) + {last} else Counted(front, ns, sel)
  {
  }

  lemma {:induction false} CountOfList(occ: seq<Pod>, ns: string, sel: Option<LabelSelector>)
    requires UniquePods(occ)
    ensures Sum(occ, Weight(ns, sel)) == |Counted(occ, ns, sel)|
  {
    if occ != [] {
      var front, last := occ[..|occ| - 1], occ[|occ| - 1];
      LastIsNew(occ);
      CountOfList(front, ns, sel);
      assert occ == front + [last];
      CountedStep(front, last, ns, sel);
    }
  }

  lemma {:induction false} AllPodsSit(v: Packing)
    requires Valid(v)
    ensures forall o :: o in AllPods(v) <==> Sits(v, o)
  {
    forall o ensures o in AllPods(v) <==> Sits(v, o) {
      if Sits(v, o) { assert o.nodeName in v.bins && o in v.bins[o.nodeName].occupants; }
    }
  }

  /** The pods that count for domain d on some of the nodes. */
  ghost function InDomainOn(v: Packing, names: seq<string>, ns: string, key: string, sel: Option<LabelSelector>,
                            d: string): set<Pod> {
    set o | o in AllPods(v) && o.nodeName in names && InNamedDomain(v, o.nodeName, key, d) && Counts(o, ns, sel)
  }

  lemma {:induction false} CountOfNodes(v: Packing, names: seq<string>, ns: string, key: string,
                                        sel: Option<LabelSelector>, d: string)
    requires Valid(v) && UniqueKeys(v) && Distinct(names) && forall n | n in names :: n in v.bins
    ensures Sum(names, NodeTally(v, ns, key, sel, d)) == |InDomainOn(v, names, ns, key, sel, d)|
  {
    if names == [] {
      NoneOnNone(v, ns, key, sel, d);
    } else {
      var front, last := names[..|names| - 1], names[|names| - 1];
      FrontOf(names);
      CountOfNodes(v, front, ns, key, sel, d);
      OneMoreNode(v, front, last, ns, key, sel, d);
    }
  }

  lemma {:induction false} NoneOnNone(v: Packing, ns: string, key: string, sel: Option<LabelSelector>, d: string)
    ensures InDomainOn(v, [], ns, key, sel, d) == {}
  {
  }

  lemma {:induction false} FrontOf(names: seq<string>)
    requires names != [] && Distinct(names)
    ensures var front, last := names[..|names| - 1], names[|names| - 1];
      names == front + [last] && Distinct(front) && last !in front && forall n | n in front :: n in names
  {
  }

  lemma {:induction false} OneMoreNode(v: Packing, names: seq<string>, n: string, ns: string, key: string,
                                       sel: Option<LabelSelector>, d: string)
    requires Valid(v) && UniqueKeys(v) && n !in names && n in v.bins
    ensures |InDomainOn(v, names + [n], ns, key, sel, d)|
         == |InDomainOn(v, names, ns, key, sel, d)| + NodeTally(v, ns, key, sel, d)(n)
  {
    var before, after := InDomainOn(v, names, ns, key, sel, d), InDomainOn(v, names + [n], ns, key, sel, d);
    var here := if InNamedDomain(v, n, key, d) then Counted(v.bins[n].occupants, ns, sel) else {};
    CountOfList(v.bins[n].occupants, ns, sel);
    forall o ensures (o in after <==> o in before || o in here) && !(o in before && o in here) {
      OneMoreMember(v, names, n, ns, key, sel, d, o);
    }
    Disjoint(before, here, after);
  }

  lemma {:induction false} Disjoint<T(!new)>(a: set<T>, b: set<T>, both: set<T>)
    requires forall x :: (x in both <==> x in a || x in b) && !(x in a && x in b)
    ensures |both| == |a| + |b|
  {
    assert both == a + b && a * b == {};
  }

  lemma {:induction false} OneMoreMember(v: Packing, names: seq<string>, n: string, ns: string, key: string,
                                         sel: Option<LabelSelector>, d: string, o: Pod)
    requires Valid(v) && n !in names && n in v.bins
    ensures var here := if InNamedDomain(v, n, key, d) then Counted(v.bins[n].occupants, ns, sel) else {};
      && (o in InDomainOn(v, names + [n], ns, key, sel, d) <==> o in InDomainOn(v, names, ns, key, sel, d) || o in here)
      && !(o in InDomainOn(v, names, ns, key, sel, d) && o in here)
  {
    AllPodsSit(v);
  }

  /** The pod, where the assignment has it, is where it says. */
  ghost predicate AtHome(v: Packing, pod: Pod) {
    forall o | Sits(v, o) && SameKey(o, pod) :: o.nodeName == pod.nodeName
  }

  lemma {:induction false} SameKeyIsSame(v: Packing, a: Pod, b: Pod)
    requires UniqueKeys(v) && Sits(v, a) && Sits(v, b) && SameKey(a, b)
    ensures a == b
  {
    if a != b { DistinctKeys(v, a, b); }
  }

  /** The others of a domain are those that count there, less the pod itself. */
  lemma {:induction false} OthersOf(v: Packing, pod: Pod, key: string, sel: Option<LabelSelector>, d: string, o: Pod)
    requires Valid(v)
    ensures o in Others(v, pod, key, sel, d)
       <==> o in InDomainOn(v, v.order, pod.namespace, key, sel, d) && !SameKey(o, pod)
  {
    SelectorPicks(sel, o.labels);
    AllPodsSit(v);
  }

  lemma {:induction false} OthersWithoutIt(v: Packing, pod: Pod, c: TopologySpread, d: string)
    requires Valid(v) && UniqueKeys(v) && AtHome(v, pod)
    requires CountsItself(v, pod, c) && v.bins[pod.nodeName].node.labels[c.topologyKey] == d
    ensures |InDomainOn(v, v.order, pod.namespace, c.topologyKey, c.labelSelector, d)|
         == |Others(v, pod, c.topologyKey, c.labelSelector, d)| + 1
  {
    var key, sel, ns := c.topologyKey, c.labelSelector, pod.namespace;
    var all, others := InDomainOn(v, v.order, ns, key, sel, d), Others(v, pod, key, sel, d);
    var o := ItselfCounted(v, pod, c, d);
    forall x ensures (x in all <==> x in others || x in {o}) && !(x in others && x in {o}) {
      ItselfOrOther(v, pod, key, sel, d, o, x);
      OthersOf(v, pod, key, sel, d, x);
    }
    Disjoint(others, {o}, all);
  }

  lemma {:induction false} ItselfCounted(v: Packing, pod: Pod, c: TopologySpread, d: string) returns (o: Pod)
    requires Valid(v) && CountsItself(v, pod, c) && v.bins[pod.nodeName].node.labels[c.topologyKey] == d
    ensures Sits(v, o) && SameKey(o, pod)
    ensures o in InDomainOn(v, v.order, pod.namespace, c.topologyKey, c.labelSelector, d)
  {
    o :| o in v.bins[pod.nodeName].occupants && SameKey(pod, o) && Counts(o, pod.namespace, c.labelSelector);
    AllPodsSit(v);
  }

  lemma {:induction false} ItselfOrOther(v: Packing, pod: Pod, key: string, sel: Option<LabelSelector>, d: string,
                                         o: Pod, x: Pod)
    requires Valid(v) && UniqueKeys(v) && Sits(v, o) && SameKey(o, pod)
    requires o in InDomainOn(v, v.order, pod.namespace, key, sel, d)
    ensures x in InDomainOn(v, v.order, pod.namespace, key, sel, d) <==> x in Others(v, pod, key, sel, d) || x == o
  {
    OthersOf(v, pod, key, sel, d, x);
    AllPodsSit(v);
    if Sits(v, x) && SameKey(x, pod) { SameKeyIsSame(v, x, o); }
  }

  lemma {:induction false} OthersAreAll(v: Packing, pod: Pod, c: TopologySpread, d: string)
    requires Valid(v) && UniqueKeys(v) && AtHome(v, pod)
    requires !(CountsItself(v, pod, c) && v.bins[pod.nodeName].node.labels[c.topologyKey] == d)
    ensures InDomainOn(v, v.order, pod.namespace, c.topologyKey, c.labelSelector, d)
         == Others(v, pod, c.topologyKey, c.labelSelector, d)
  {
    var key, sel, ns := c.topologyKey, c.labelSelector, pod.namespace;
    var all := InDomainOn(v, v.order, ns, key, sel, d);
    AllPodsSit(v);
    forall x ensures x in all <==> x in Others(v, pod, key, sel, d) {
      OthersOf(v, pod, key, sel, d, x);
      if x in all && x.nodeName == pod.nodeName { assert x in v.bins[x.nodeName].occupants; }
    }
  }

  /** The count without the pod being placed is the number of the others. */
  lemma {:induction false} WithoutIsOthers(v: Packing, pod: Pod, c: TopologySpread, d: string)
    requires Valid(v) && UniqueKeys(v) && AtHome(v, pod)
    ensures CountWithout(v, pod, c, d) == |Others(v, pod, c.topologyKey, c.labelSelector, d)|
  {
    CountOfNodes(v, v.order, pod.namespace, c.topologyKey, c.labelSelector, d);
    if CountsItself(v, pod, c) && v.bins[pod.nodeName].node.labels[c.topologyKey] == d {
      OthersWithoutIt(v, pod, c, d);
    } else {
      OthersAreAll(v, pod, c, d);
    }
  }

  lemma {:induction false} PairExactly(v: Packing, pod: Pod, c: TopologySpread, here: string, there: string)
    requires Valid(v) && UniqueKeys(v) && AtHome(v, pod) && 0 <= c.maxSkew
    ensures CountAfter(v, pod, c, here, here) - CountAfter(v, pod, c, here, there) <= c.maxSkew
       <==> PairAllows(v, pod, c, here, there)
  {
    WithoutIsOthers(v, pod, c, here);
    WithoutIsOthers(v, pod, c, there);
  }

  lemma {:induction false} SpreadExactly(v: Packing, pod: Pod, n: string, c: TopologySpread)
    requires Valid(v) && UniqueKeys(v) && AtHome(v, pod) && n in v.bins
    ensures SpreadOk(v, pod, n, c) <==> SpreadAllows(v, pod, n, c)
  {
    if c.hard && c.topologyKey in v.bins[n].node.labels {
      var here := v.bins[n].node.labels[c.topologyKey];
      assert here in Domains(v, c.topologyKey);
      if 0 <= c.maxSkew {
        forall d ensures CountAfter(v, pod, c, here, here) - CountAfter(v, pod, c, here, d) <= c.maxSkew
                    <==> PairAllows(v, pod, c, here, d)
        {
          PairExactly(v, pod, c, here, d);
        }
        DomainsAreLabels(v, pod, c, here);
      } else {
        assert CountAfter(v, pod, c, here, here) - CountAfter(v, pod, c, here, here) > c.maxSkew;
      }
    }
  }

  lemma {:induction false} DomainsAreLabels(v: Packing, pod: Pod, c: TopologySpread, here: string)
    ensures (forall d | d in Domains(v, c.topologyKey) :: PairAllows(v, pod, c, here, d))
       <==> (forall m | m in v.bins && c.topologyKey in v.bins[m].node.labels ::
               PairAllows(v, pod, c, here, v.bins[m].node.labels[c.topologyKey]))
  {
    forall m | m in v.bins && c.topologyKey in v.bins[m].node.labels
      ensures v.bins[m].node.labels[c.topologyKey] in Domains(v, c.topologyKey) { }
  }

  /** The verdict, rule by rule and field by field. */
  lemma {:induction false} CanPlaceExactly(v: Packing, pod: Pod, n: string)
    requires Valid(v) && UniqueKeys(v) && AtHome(v, pod)
    ensures CanPlace(v, pod, n) <==> Lawful(v, pod, n)
  {
    if n in v.bins {
      NodeWelcomes(pod, v.bins[n].node);
      NeighboursExactly(v, pod, n);
      forall c | c in pod.topologySpread ensures SpreadOk(v, pod, n, c) <==> SpreadAllows(v, pod, n, c) {
        SpreadExactly(v, pod, n, c);
      }
    }
  }

  // ------------------------------------------------------------------ every move of a plan

  /** The assignment the k-th move of a plan is made on. */
  ghost function Before(snap: Snapshot, analysis: Analysis, opts: Options, k: nat): Packing
    requires k <= |AllMoves(PlanFor(snap, analysis, opts).steps)|
  {
    Replay(Packed(snap, opts.packCeiling), AllMoves(PlanFor(snap, analysis, opts).steps)[..k])
  }

  lemma {:induction false} UniqueIsAtHome(v: Packing, pod: Pod)
    requires UniqueKeys(v) && Sits(v, pod)
    ensures AtHome(v, pod)
  {
    forall o | Sits(v, o) && SameKey(o, pod) ensures o.nodeName == pod.nodeName { SameKeyIsSame(v, o, pod); }
  }

  /** Every move of every plan takes a movable pod, from where it sits, to a node that may lawfully take it then. */
  lemma {:induction false} MovesAreLawful(snap: Snapshot, analysis: Analysis, opts: Options, k: nat) returns (p: Pod)
    requires Admissible(snap) && k < |AllMoves(PlanFor(snap, analysis, opts).steps)|
    ensures var v, m := Before(snap, analysis, opts, k), AllMoves(PlanFor(snap, analysis, opts).steps)[k];
      && Sits(v, p) && p.IsMovable() && m == MoveOf(p, p.nodeName, m.toNode)
      && Lawful(v, p, m.toNode) && SamePods(Packed(snap, opts.packCeiling), v)
      && SameNodes(Packed(snap, opts.packCeiling), v)
  {
    var v0, moves := Packed(snap, opts.packCeiling), AllMoves(PlanFor(snap, analysis, opts).steps);
    PackedSound(snap, opts.packCeiling);
    PlanIsLegal(snap, analysis, opts);
    p := MoveAt(v0, opts.packCeiling, moves, k);
  }

  lemma {:induction false} MoveAt(v0: Packing, ceiling: real, moves: seq<Move>, k: nat) returns (p: Pod)
    requires Sound(v0, v0, ceiling, {}) && LegalRun(v0, moves) && k < |moves|
    ensures var v, m := Replay(v0, moves[..k]), moves[k];
      && Sits(v, p) && p.IsMovable() && m == MoveOf(p, p.nodeName, m.toNode) && Lawful(v, p, m.toNode)
      && SamePods(v0, v) && SameNodes(v0, v)
  {
    LegalPrefix(v0, moves, k + 1);
    p := MoveIsLawful(v0, ceiling, moves[..k + 1]);
    UpTo(moves, k);
  }

  lemma {:induction false} UpTo(moves: seq<Move>, k: nat)
    requires k < |moves|
    ensures moves[..k + 1][..|moves[..k + 1]| - 1] == moves[..k] && moves[..k + 1][|moves[..k + 1]| - 1] == moves[k]
  {
  }

  lemma {:induction false} MoveIsLawful(v0: Packing, ceiling: real, moves: seq<Move>) returns (p: Pod)
    requires Sound(v0, v0, ceiling, {}) && LegalRun(v0, moves) && moves != []
    ensures var v, m := Replay(v0, moves[..|moves| - 1]), moves[|moves| - 1];
      && Sits(v, p) && p.IsMovable() && m == MoveOf(p, p.nodeName, m.toNode) && Lawful(v, p, m.toNode)
      && SamePods(v0, v) && SameNodes(v0, v)
  {
    var front, m := moves[..|moves| - 1], moves[|moves| - 1];
    LegalRunSound(v0, ceiling, front);
    var v := Replay(v0, front);
    p := ApplyLegal(v, Sources(front), m);
    UniqueIsAtHome(v, p);
    CanPlaceExactly(v, p, m.toNode);
  }

  /** The pod and the node a move is about, as the snapshot has them: it is movable, of that name, on the move's source
      or moved there before, and the node welcomes it. */
  lemma {:induction false} MovesAreWelcome(snap: Snapshot, analysis: Analysis, opts: Options, k: nat)
    returns (p: Pod, node: Node)
    requires Admissible(snap) && k < |AllMoves(PlanFor(snap, analysis, opts).steps)|
    ensures var m := AllMoves(PlanFor(snap, analysis, opts).steps)[k];
      && p in snap.pods && p.namespace == m.namespace && p.name == m.pod && FreeToMove(p)
      && node in snap.nodes && node.name == m.toNode
      && Welcomes(node, p)
  {
    var v0, m := Packed(snap, opts.packCeiling), AllMoves(PlanFor(snap, analysis, opts).steps)[k];
    var q := MovesAreLawful(snap, analysis, opts, k);
    var v := Before(snap, analysis, opts, k);
    assert q.(nodeName := q.nodeName) == q;
    assert Holds(v, q);
    var from :| Sits(v0, q.(nodeName := from));
    p := q.(nodeName := from);
    node := v.bins[m.toNode].node;
    PodOfSnapshot(snap, opts.packCeiling, p);
    NodeOfSnapshot(snap, opts.packCeiling, m.toNode);
    WelcomeKept(node, q, p);
    MovableExactly(p);
  }

  lemma {:induction false} WelcomeKept(node: Node, q: Pod, p: Pod)
    requires Welcomes(node, q) && p == q.(nodeName := p.nodeName)
    ensures Welcomes(node, p)
  {
  }

  lemma {:induction false} PodOfSnapshot(snap: Snapshot, ceiling: real, p: Pod)
    requires UniqueNodes(snap.nodes) && Sits(Packed(snap, ceiling), p)
    ensures p in snap.pods
  {
    BareFree(snap, ceiling);
    LoadMembers(Bare(snap, ceiling), snap.pods, p);
  }

  lemma {:induction false} NodeOfSnapshot(snap: Snapshot, ceiling: real, n: string)
    requires UniqueNodes(snap.nodes) && n in Packed(snap, ceiling).bins
    ensures Packed(snap, ceiling).bins[n].node in snap.nodes && Packed(snap, ceiling).bins[n].node.name == n
  {
    BareBinsAt(snap.nodes, ceiling);
    LoadNodes(Bare(snap, ceiling), snap.pods);
  }
}
