/**
  What a placement means (internal/constraints/placement.go): which pods sit on which node, what
  is free there, and when a pod may legally join a node. The rules are stated as quantifiers
  and fresh counts over the whole cluster; class Placement answers them with loops and a cache.
 */
module Packings {
  import opened Model
  import opened Sums

  /** One node with its remaining capacity and the pods assigned to it. */
  datatype Bin = Bin(node: Node, free: Resources, occupants: seq<Pod>)

  /** A whole assignment; `order` is snapshot order. */
  datatype Packing = Packing(order: seq<string>, bins: map<string, Bin>)

  ghost predicate Valid(v: Packing) {
    && Distinct(v.order)
    && (forall n :: n in v.order <==> n in v.bins)
    && (forall n | n in v.bins :: v.bins[n].node.name == n)
    && (forall n | n in v.bins :: forall o | o in v.bins[n].occupants :: o.nodeName == n)
  }

  /** No two pods of the assignment share a key. */
  ghost predicate UniqueKeys(v: Packing) {
    && (forall n | n in v.bins :: UniquePods(v.bins[n].occupants))
    && forall a, b | Sits(v, a) && Sits(v, b) && a.nodeName != b.nodeName :: a.Key() != b.Key()
  }

  /** The pod is assigned to the node it names. */
  ghost predicate Sits(v: Packing, p: Pod) { p in Occupants(v, p.nodeName) }

  function Occupants(v: Packing, n: string): seq<Pod> {
    if n in v.bins then v.bins[n].occupants else []
  }

  function Free(v: Packing, n: string): Resources {
    if n in v.bins then v.bins[n].free else ZERO
  }

  ghost predicate IsEmpty(v: Packing, n: string) {
    forall p | p in Occupants(v, n) :: !p.IsMovable()
  }

  // ------------------------------------------------------------- construction

  /** A node's capacity to plan against: CPU and memory scaled by a ceiling strictly between 0 and 1. */
  function Basis(node: Node, ceiling: real): Resources {
    if 0.0 < ceiling < 1.0 then
      node.allocatable.(milliCPU := Truncate(node.allocatable.milliCPU as real * ceiling),
                        memoryBytes := Truncate(node.allocatable.memoryBytes as real * ceiling))
    else node.allocatable
  }

  function BareBins(nodes: seq<Node>, ceiling: real): (bins: map<string, Bin>)
    ensures forall n :: n in bins <==> n in NodeNames(nodes)
  {
    if nodes == [] then map[] else
      var last := nodes[|nodes| - 1];
      assert NodeNames(nodes) == NodeNames(nodes[..|nodes| - 1]) + [last.name];
      BareBins(nodes[..|nodes| - 1], ceiling)[last.name := Bin(last, Basis(last, ceiling), [])]
  }

  /** Assigns the snapshot's pods, in order, to the nodes they name; the others are not placed. */
  function Load(v: Packing, pods: seq<Pod>): Packing {
    if pods == [] then v else
      var pod := pods[|pods| - 1];
      var rest := Load(v, pods[..|pods| - 1]);
      if pod.nodeName == "" then rest else Place(rest, pod, pod.nodeName)
  }

  function Bare(snap: Snapshot, ceiling: real): Packing {
    Packing(NodeNames(snap.nodes), BareBins(snap.nodes, ceiling))
  }

  /** The assignment a snapshot describes. */
  function Packed(snap: Snapshot, ceiling: real): Packing {
    Load(Bare(snap, ceiling), snap.pods)
  }

  // ------------------------------------------------------------- place, remove

  /** Position of the first occupant carrying pod's key, or -1. */
  function IndexOf(occ: seq<Pod>, pod: Pod): (i: int)
    ensures -1 <= i < |occ|
    ensures 0 <= i ==> SameKey(occ[i], pod) && forall j | 0 <= j < i :: !SameKey(occ[j], pod)
    ensures i < 0 ==> forall j | 0 <= j < |occ| :: !SameKey(occ[j], pod)
  {
    if occ == [] then -1
    else if SameKey(occ[0], pod) then 0
    else var r := IndexOf(occ[1..], pod); if r < 0 then -1 else r + 1
  }

  function Place(v: Packing, pod: Pod, n: string): Packing {
    if n !in v.bins then v else
      var b := v.bins[n];
      v.(bins := v.bins[n := b.(free := b.free.Sub(pod.Footprint()),
                                occupants := b.occupants + [pod.(nodeName := n)])])
  }

  function Remove(v: Packing, pod: Pod): Packing {
    if pod.nodeName !in v.bins then v else
      var b := v.bins[pod.nodeName];
      var i := IndexOf(b.occupants, pod);
      if i < 0 then v else
        v.(bins := v.bins[pod.nodeName :=
             b.(free := b.free.Add(pod.requests).Add(ONE_POD),
                occupants := b.occupants[..i] + b.occupants[i + 1..])])
  }

  /** The occupant that Remove takes out. */
  function Leaving(v: Packing, pod: Pod): Pod
    requires pod.nodeName in v.bins && 0 <= IndexOf(v.bins[pod.nodeName].occupants, pod)
  {
    v.bins[pod.nodeName].occupants[IndexOf(v.bins[pod.nodeName].occupants, pod)]
  }

  // ------------------------------------------------------ single-node predicates

  predicate FitsTaints(pod: Pod, node: Node) {
    forall t | t in node.taints ::
      t.effect == PreferNoSchedule || exists tol | tol in pod.tolerations :: tol.ToleratesTaint(t)
  }

  predicate FitsNodeSelector(pod: Pod, node: Node) {
    forall k | k in pod.nodeSelector :: Lookup(node.labels, k) == pod.nodeSelector[k]
  }

  predicate FitsNodeAffinity(pod: Pod, node: Node) {
    pod.nodeAffinity == [] ||
    exists term | term in pod.nodeAffinity :: forall r | r in term :: r.Matches(node.labels)
  }

  // ------------------------------------------------------------ affinity rules

  predicate TermMatches(term: PodAffinityTerm, candidate: Pod, defaultNamespace: string) {
    && (if term.namespaces == [] then candidate.namespace == defaultNamespace
        else candidate.namespace in term.namespaces)
    && SelectorMatches(term.labelSelector, candidate.labels)
  }

  /** Whether node m lies in the topology domain that node n opens for key. */
  ghost predicate InDomain(v: Packing, n: string, m: string, key: string)
    requires n in v.bins && m in v.bins
  {
    if key == LABEL_HOSTNAME then m == n
    else key in v.bins[n].node.labels && Lookup(v.bins[m].node.labels, key) == v.bins[n].node.labels[key]
  }

  ghost predicate HasMatch(occ: seq<Pod>, pod: Pod, term: PodAffinityTerm) {
    exists o | o in occ :: !SameKey(pod, o) && TermMatches(term, o, pod.namespace)
  }

  /** Some other pod matching the term runs in node n's domain. */
  ghost predicate DomainHasMatch(v: Packing, pod: Pod, n: string, term: PodAffinityTerm)
    requires n in v.bins
  {
    exists m | m in v.bins :: InDomain(v, n, m, term.topologyKey) && HasMatch(v.bins[m].occupants, pod, term)
  }

  ghost predicate AntiAffinityOk(v: Packing, pod: Pod, n: string)
    requires n in v.bins
  {
    pod.podAffinity.None? ||
    forall t | t in pod.podAffinity.value.requiredAntiAffinity :: !DomainHasMatch(v, pod, n, t)
  }

  ghost predicate AffinityOk(v: Packing, pod: Pod, n: string)
    requires n in v.bins
  {
    pod.podAffinity.None? ||
    forall t | t in pod.podAffinity.value.requiredAffinity :: DomainHasMatch(v, pod, n, t)
  }

  // ----------------------------------------------------------- topology spread

  predicate Counts(pod: Pod, ns: string, sel: Option<LabelSelector>) {
    pod.namespace == ns && SelectorMatches(sel, pod.labels)
  }

  ghost function Weight(ns: string, sel: Option<LabelSelector>): Pod -> int {
    (pod: Pod) => if Counts(pod, ns, sel) then 1 else 0
  }

  ghost function Domains(v: Packing, key: string): set<string> {
    set n | n in v.bins && key in v.bins[n].node.labels :: v.bins[n].node.labels[key]
  }

  ghost predicate InNamedDomain(v: Packing, n: string, key: string, d: string) {
    n in v.bins && key in v.bins[n].node.labels && v.bins[n].node.labels[key] == d
  }

  /** How many pods of node n count towards domain d. */
  ghost function NodeTally(v: Packing, ns: string, key: string, sel: Option<LabelSelector>, d: string): string -> int {
    (n: string) => if InNamedDomain(v, n, key, d) then Sum(Occupants(v, n), Weight(ns, sel)) else 0
  }

  ghost function DomainCount(v: Packing, ns: string, key: string, sel: Option<LabelSelector>, d: string): int {
    Sum(v.order, NodeTally(v, ns, key, sel, d))
  }

  /** counts is the tally a full recount would produce: one entry per domain, empty domains included. */
  ghost predicate Tallies(counts: map<string, int>, v: Packing, ns: string, key: string, sel: Option<LabelSelector>) {
    && counts.Keys == Domains(v, key)
    && forall d | d in counts :: counts[d] == DomainCount(v, ns, key, sel, d)
  }

  /** Whether the tally for this constraint includes the pod itself, on the node it names. */
  ghost predicate CountsItself(v: Packing, pod: Pod, tsc: TopologySpread) {
    && pod.nodeName in v.bins
    && tsc.topologyKey in v.bins[pod.nodeName].node.labels
    && exists o | o in v.bins[pod.nodeName].occupants ::
         SameKey(pod, o) && Counts(o, pod.namespace, tsc.labelSelector)
  }

  /** Matching pods in domain d, not counting the pod being placed. */
  ghost function CountWithout(v: Packing, pod: Pod, tsc: TopologySpread, d: string): int {
    DomainCount(v, pod.namespace, tsc.topologyKey, tsc.labelSelector, d)
    - if CountsItself(v, pod, tsc) && v.bins[pod.nodeName].node.labels[tsc.topologyKey] == d then 1 else 0
  }

  /** The same once the pod has landed in domain `target`. */
  ghost function CountAfter(v: Packing, pod: Pod, tsc: TopologySpread, target: string, d: string): int {
    CountWithout(v, pod, tsc, d) + if d == target then 1 else 0
  }

  /** Landing on n leaves n's domain at most maxSkew above every domain of the cluster. */
  ghost predicate SpreadOk(v: Packing, pod: Pod, n: string, tsc: TopologySpread)
    requires n in v.bins
  {
    tsc.hard ==>
      && tsc.topologyKey in v.bins[n].node.labels
      && var target := v.bins[n].node.labels[tsc.topologyKey];
         forall d | d in Domains(v, tsc.topologyKey) ::
           CountAfter(v, pod, tsc, target, target) - CountAfter(v, pod, tsc, target, d) <= tsc.maxSkew
  }

  // ------------------------------------------------------------------- verdict

  /** Whether pod may legally occupy node n. */
  ghost predicate CanPlace(v: Packing, pod: Pod, n: string) {
    && n in v.bins
    && !v.bins[n].node.unschedulable
    && v.bins[n].node.ready
    && FitsTaints(pod, v.bins[n].node)
    && FitsNodeSelector(pod, v.bins[n].node)
    && FitsNodeAffinity(pod, v.bins[n].node)
    && pod.Footprint().Fits(v.bins[n].free)
    && AntiAffinityOk(v, pod, n)
    && AffinityOk(v, pod, n)
    && forall t | t in pod.topologySpread :: SpreadOk(v, pod, n, t)
  }

  // -------------------------------------------------------- how tallies change

  lemma {:induction false} PlaceValid(v: Packing, pod: Pod, n: string)
    requires Valid(v)
    ensures Valid(Place(v, pod, n))
  {
  }

  lemma {:induction false} RemoveValid(v: Packing, pod: Pod)
    requires Valid(v)
    ensures Valid(Remove(v, pod))
  {
  }

  lemma {:induction false} BareBinsAt(nodes: seq<Node>, ceiling: real)
    requires UniqueNodes(nodes)
    ensures forall i | 0 <= i < |nodes| ::
      nodes[i].name in BareBins(nodes, ceiling)
      && BareBins(nodes, ceiling)[nodes[i].name] == Bin(nodes[i], Basis(nodes[i], ceiling), [])
    ensures forall n | n in BareBins(nodes, ceiling) ::
      BareBins(nodes, ceiling)[n].node.name == n && BareBins(nodes, ceiling)[n].node in nodes
      && BareBins(nodes, ceiling)[n]
           == Bin(BareBins(nodes, ceiling)[n].node, Basis(BareBins(nodes, ceiling)[n].node, ceiling), [])
  {
    if nodes != [] {
      var front, last := nodes[..|nodes| - 1], nodes[|nodes| - 1];
      BareBinsAt(front, ceiling);
      assert nodes == front + [last];
      BareBinsStep(front, last, ceiling);
    }
  }

  lemma {:induction false} BareBinsStep(front: seq<Node>, last: Node, ceiling: real)
    ensures BareBins(front + [last], ceiling)
         == BareBins(front, ceiling)[last.name := Bin(last, Basis(last, ceiling), [])]
  {
    assert (front + [last])[..|front|] == front;
  }

  lemma {:induction false} BareValid(snap: Snapshot, ceiling: real)
    requires UniqueNodes(snap.nodes)
    ensures Valid(Bare(snap, ceiling))
  {
    BareBinsAt(snap.nodes, ceiling);
  }

  /** The two assignments differ at most in what node n holds. */
  ghost predicate DifferAt(v: Packing, w: Packing, n: string) {
    && v.order == w.order && v.bins.Keys == w.bins.Keys && n in v.bins
    && (forall m | m in v.bins :: v.bins[m].node == w.bins[m].node)
    && (forall m | m in v.bins && m != n :: v.bins[m] == w.bins[m])
  }

  lemma {:induction false} DomainCountChange(v: Packing, w: Packing, n: string, ns: string, key: string,
                          sel: Option<LabelSelector>, d: string, delta: int)
    requires Valid(v) && Valid(w) && DifferAt(v, w, n)
    requires Sum(w.bins[n].occupants, Weight(ns, sel)) == Sum(v.bins[n].occupants, Weight(ns, sel)) + delta
    ensures DomainCount(w, ns, key, sel, d)
         == DomainCount(v, ns, key, sel, d) + if InNamedDomain(v, n, key, d) then delta else 0
  {
    SumChange(v.order, n, NodeTally(v, ns, key, sel, d), NodeTally(w, ns, key, sel, d));
  }

  /** Go's `counts[d] += delta`: an absent entry reads as zero. */
  function Bumped(counts: map<string, int>, d: string, delta: int): map<string, int> {
    counts[d := (if d in counts then counts[d] else 0) + delta]
  }

  /** The incremental form of a recount: the domain a node's labels name moves by delta. */
  function Adjusted(counts: map<string, int>, labels: Labels, key: string, delta: int): map<string, int> {
    if key in labels then Bumped(counts, labels[key], delta) else counts
  }

  lemma {:induction false} SameDomains(v: Packing, w: Packing, key: string)
    requires v.bins.Keys == w.bins.Keys
    requires forall m | m in v.bins :: v.bins[m].node == w.bins[m].node
    ensures Domains(v, key) == Domains(w, key)
  {
    forall d ensures d in Domains(v, key) <==> d in Domains(w, key) {
      if d in Domains(v, key) {
        var m :| m in v.bins && key in v.bins[m].node.labels && v.bins[m].node.labels[key] == d;
        assert m in w.bins && w.bins[m].node.labels[key] == d;
      }
      if d in Domains(w, key) {
        var m :| m in w.bins && key in w.bins[m].node.labels && w.bins[m].node.labels[key] == d;
        assert m in v.bins && v.bins[m].node.labels[key] == d;
      }
    }
  }

  lemma {:induction false} TalliesChange(counts: map<string, int>, v: Packing, w: Packing, n: string, ns: string,
                                         key: string, sel: Option<LabelSelector>, delta: int)
    requires Valid(v) && Valid(w) && DifferAt(v, w, n)
    requires Sum(w.bins[n].occupants, Weight(ns, sel)) == Sum(v.bins[n].occupants, Weight(ns, sel)) + delta
    requires Tallies(counts, v, ns, key, sel)
    ensures Tallies(Adjusted(counts, v.bins[n].node.labels, key, delta), w, ns, key, sel)
  {
    var out := Adjusted(counts, v.bins[n].node.labels, key, delta);
    DomainsKept(counts, v, w, n, key, delta);
    forall d | d in counts ensures out[d] == DomainCount(w, ns, key, sel, d) {
      EntryChange(counts, v, w, n, ns, key, sel, delta, d);
    }
  }

  lemma {:induction false} EntryChange(counts: map<string, int>, v: Packing, w: Packing, n: string, ns: string,
                                       key: string, sel: Option<LabelSelector>, delta: int, d: string)
    requires Valid(v) && Valid(w) && DifferAt(v, w, n)
    requires Sum(w.bins[n].occupants, Weight(ns, sel)) == Sum(v.bins[n].occupants, Weight(ns, sel)) + delta
    requires d in counts && counts[d] == DomainCount(v, ns, key, sel, d)
    ensures d in Adjusted(counts, v.bins[n].node.labels, key, delta)
    ensures Adjusted(counts, v.bins[n].node.labels, key, delta)[d] == DomainCount(w, ns, key, sel, d)
  {
    AdjustedEntry(counts, v, n, key, delta, d);
    DomainCountChange(v, w, n, ns, key, sel, d, delta);
  }

  lemma {:induction false} DomainsKept(counts: map<string, int>, v: Packing, w: Packing, n: string, key: string,
                                       delta: int)
    requires DifferAt(v, w, n) && counts.Keys == Domains(v, key)
    ensures Adjusted(counts, v.bins[n].node.labels, key, delta).Keys == Domains(w, key) == counts.Keys
  {
    SameDomains(v, w, key);
    if key in v.bins[n].node.labels {
      assert v.bins[n].node.labels[key] in Domains(v, key);
    }
  }

  lemma {:induction false} TalliesKept(counts: map<string, int>, v: Packing, w: Packing, n: string, ns: string,
                                       key: string, sel: Option<LabelSelector>)
    requires Valid(v) && Valid(w) && DifferAt(v, w, n)
    requires Sum(w.bins[n].occupants, Weight(ns, sel)) == Sum(v.bins[n].occupants, Weight(ns, sel))
    requires Tallies(counts, v, ns, key, sel)
    ensures Tallies(counts, w, ns, key, sel)
  {
    SameDomains(v, w, key);
    forall d | d in counts ensures counts[d] == DomainCount(w, ns, key, sel, d) {
      DomainCountChange(v, w, n, ns, key, sel, d, 0);
    }
  }

  lemma {:induction false} AdjustedEntry(counts: map<string, int>, v: Packing, n: string, key: string, delta: int,
                                         d: string)
    requires n in v.bins && d in counts
    ensures d in Adjusted(counts, v.bins[n].node.labels, key, delta)
    ensures Adjusted(counts, v.bins[n].node.labels, key, delta)[d]
         == counts[d] + if InNamedDomain(v, n, key, d) then delta else 0
  {
  }

  /** A tally follows one node's change by delta, if the pod that came or went counts for it. */
  lemma {:induction false} TalliesFollow(counts: map<string, int>, v: Packing, w: Packing, n: string, ns: string,
                                         key: string, sel: Option<LabelSelector>, pod: Pod, delta: int)
    requires Valid(v) && Valid(w) && DifferAt(v, w, n) && Tallies(counts, v, ns, key, sel)
    requires Sum(w.bins[n].occupants, Weight(ns, sel))
         == Sum(v.bins[n].occupants, Weight(ns, sel)) + delta * Weight(ns, sel)(pod)
    ensures Tallies(if Counts(pod, ns, sel) then Adjusted(counts, v.bins[n].node.labels, key, delta) else counts,
                    w, ns, key, sel)
  {
    if Counts(pod, ns, sel) {
      TalliesChange(counts, v, w, n, ns, key, sel, delta);
    } else {
      TalliesKept(counts, v, w, n, ns, key, sel);
    }
  }

  lemma {:induction false} PlaceDiffers(v: Packing, pod: Pod, n: string, ns: string, sel: Option<LabelSelector>)
    requires Valid(v) && n in v.bins
    ensures Valid(Place(v, pod, n)) && DifferAt(v, Place(v, pod, n), n)
    ensures Sum(Place(v, pod, n).bins[n].occupants, Weight(ns, sel))
         == Sum(v.bins[n].occupants, Weight(ns, sel)) + Weight(ns, sel)(pod)
  {
    var placed := pod.(nodeName := n);
    PlaceValid(v, pod, n);
    SumConcat(v.bins[n].occupants, [placed], Weight(ns, sel));
    SumSingle(placed, Weight(ns, sel));
  }

  /** Placing moves every tally by the pod's own weight in the domain it lands in. */
  lemma {:induction false} TalliesPlace(counts: map<string, int>, v: Packing, pod: Pod, n: string, ns: string,
                                        key: string, sel: Option<LabelSelector>)
    requires Valid(v) && n in v.bins && Tallies(counts, v, ns, key, sel)
    ensures Tallies(if Counts(pod, ns, sel) then Adjusted(counts, v.bins[n].node.labels, key, 1) else counts,
                    Place(v, pod, n), ns, key, sel)
  {
    PlaceDiffers(v, pod, n, ns, sel);
    TalliesFollow(counts, v, Place(v, pod, n), n, ns, key, sel, pod, 1);
  }

  lemma {:induction false} RemoveDiffers(v: Packing, pod: Pod, ns: string, sel: Option<LabelSelector>)
    requires Valid(v) && pod.nodeName in v.bins && 0 <= IndexOf(v.bins[pod.nodeName].occupants, pod)
    ensures Valid(Remove(v, pod)) && DifferAt(v, Remove(v, pod), pod.nodeName)
    ensures Sum(Remove(v, pod).bins[pod.nodeName].occupants, Weight(ns, sel))
         == Sum(v.bins[pod.nodeName].occupants, Weight(ns, sel)) - Weight(ns, sel)(Leaving(v, pod))
  {
    RemoveValid(v, pod);
    var occ := v.bins[pod.nodeName].occupants;
    SumRemove(occ, IndexOf(occ, pod), Weight(ns, sel));
  }

  /** Removing moves every tally back by the weight of the occupant that was actually there. */
  lemma {:induction false} TalliesRemove(counts: map<string, int>, v: Packing, pod: Pod, ns: string, key: string,
                      sel: Option<LabelSelector>)
    requires Valid(v) && pod.nodeName in v.bins && 0 <= IndexOf(v.bins[pod.nodeName].occupants, pod)
    requires Tallies(counts, v, ns, key, sel)
    ensures Tallies(if Counts(Leaving(v, pod), ns, sel)
                    then Adjusted(counts, v.bins[pod.nodeName].node.labels, key, -1) else counts,
                    Remove(v, pod), ns, key, sel)
  {
    RemoveDiffers(v, pod, ns, sel);
    TalliesFollow(counts, v, Remove(v, pod), pod.nodeName, ns, key, sel, Leaving(v, pod), -1);
  }

  lemma {:induction false} CountsNonNegative(v: Packing, ns: string, key: string, sel: Option<LabelSelector>, d: string)
    ensures 0 <= DomainCount(v, ns, key, sel, d)
    ensures forall n | n in v.order && InNamedDomain(v, n, key, d) ::
              Sum(Occupants(v, n), Weight(ns, sel)) <= DomainCount(v, ns, key, sel, d)
  {
    var f := NodeTally(v, ns, key, sel, d);
    forall n | n in v.order ensures 0 <= f(n) {
      SumNonNegative(Occupants(v, n), Weight(ns, sel));
    }
    SumNonNegative(v.order, f);
    forall n | n in v.order && InNamedDomain(v, n, key, d)
      ensures Sum(Occupants(v, n), Weight(ns, sel)) <= DomainCount(v, ns, key, sel, d)
    {
      assert f(n) == Sum(Occupants(v, n), Weight(ns, sel));
    }
  }

  /** A pod counted in its own domain leaves that domain's tally positive. */
  lemma {:induction false} OwnDomainPositive(v: Packing, pod: Pod, tsc: TopologySpread)
    requires Valid(v) && CountsItself(v, pod, tsc)
    ensures v.bins[pod.nodeName].node.labels[tsc.topologyKey] in Domains(v, tsc.topologyKey)
    ensures 1 <= DomainCount(v, pod.namespace, tsc.topologyKey, tsc.labelSelector,
                             v.bins[pod.nodeName].node.labels[tsc.topologyKey])
  {
    var n := pod.nodeName;
    var d := v.bins[n].node.labels[tsc.topologyKey];
    var w := Weight(pod.namespace, tsc.labelSelector);
    SumNonNegative(v.bins[n].occupants, w);
    var o :| o in v.bins[n].occupants && SameKey(pod, o) && Counts(o, pod.namespace, tsc.labelSelector);
    assert w(o) == 1;
    CountsNonNegative(v, pod.namespace, tsc.topologyKey, tsc.labelSelector, d);
    assert d in Domains(v, tsc.topologyKey);
  }

  lemma {:induction false} CountWithoutNonNegative(v: Packing, pod: Pod, tsc: TopologySpread, d: string)
    requires Valid(v)
    ensures 0 <= CountWithout(v, pod, tsc, d)
  {
    CountsNonNegative(v, pod.namespace, tsc.topologyKey, tsc.labelSelector, d);
    if CountsItself(v, pod, tsc) { OwnDomainPositive(v, pod, tsc); }
  }

  // ------------------------------------------------------- building a tally

  ghost function DomainsUpTo(v: Packing, i: nat, key: string): set<string>
    requires i <= |v.order|
  {
    set n | n in v.order[..i] && n in v.bins && key in v.bins[n].node.labels :: v.bins[n].node.labels[key]
  }

  /** The tally of the first i nodes. */
  ghost predicate TalliesUpTo(counts: map<string, int>, v: Packing, i: nat, ns: string, key: string,
                              sel: Option<LabelSelector>)
  {
    && i <= |v.order|
    && counts.Keys == DomainsUpTo(v, i, key)
    && forall d | d in counts :: counts[d] == Sum(v.order[..i], NodeTally(v, ns, key, sel, d))
  }

  lemma {:induction false} NotYetCounted(v: Packing, i: nat, ns: string, key: string, sel: Option<LabelSelector>,
                                         d: string)
    requires i <= |v.order| && d !in DomainsUpTo(v, i, key)
    ensures Sum(v.order[..i], NodeTally(v, ns, key, sel, d)) == 0
  {
    var labelsSeen := DomainsUpTo(v, i, key);
    forall n | n in v.order[..i] ensures NodeTally(v, ns, key, sel, d)(n) == 0 {
      assert InNamedDomain(v, n, key, d)  ==> d in labelsSeen;
    }
    SumZero(v.order[..i], NodeTally(v, ns, key, sel, d));
  }

  lemma {:induction false} DomainsStep(v: Packing, i: nat, key: string)
    requires i < |v.order| && v.order[i] in v.bins
    ensures var labels := v.bins[v.order[i]].node.labels;
            DomainsUpTo(v, i + 1, key) == DomainsUpTo(v, i, key) + if key in labels then {labels[key]} else {}
  {
    assert v.order[..i + 1] == v.order[..i] + [v.order[i]];
  }

  /** One node's contribution to the pass. */
  ghost function Stepped(before: map<string, int>, b: Bin, ns: string, key: string,
                         sel: Option<LabelSelector>): map<string, int> {
    if key in b.node.labels then Bumped(before, b.node.labels[key], Sum(b.occupants, Weight(ns, sel))) else before
  }

  lemma {:induction false} TalliesStep(before: map<string, int>, v: Packing, i: nat, ns: string, key: string,
                    sel: Option<LabelSelector>)
    requires i < |v.order| && TalliesUpTo(before, v, i, ns, key, sel)
    requires v.order[i] in v.bins
    ensures TalliesUpTo(Stepped(before, v.bins[v.order[i]], ns, key, sel), v, i + 1, ns, key, sel)
  {
    SteppedKeys(before, v, i, ns, key, sel);
    var after := Stepped(before, v.bins[v.order[i]], ns, key, sel);
    forall d | d in after ensures after[d] == Sum(v.order[..i + 1], NodeTally(v, ns, key, sel, d)) {
      if d !in before { NotYetCounted(v, i, ns, key, sel, d); }
      StepEntry(before, v, i, ns, key, sel, d);
    }
  }

  lemma {:induction false} SteppedKeys(before: map<string, int>, v: Packing, i: nat, ns: string, key: string,
                                       sel: Option<LabelSelector>)
    requires i < |v.order| && v.order[i] in v.bins && before.Keys == DomainsUpTo(v, i, key)
    ensures Stepped(before, v.bins[v.order[i]], ns, key, sel).Keys == DomainsUpTo(v, i + 1, key)
  {
    DomainsStep(v, i, key);
  }

  lemma {:induction false} StepEntry(before: map<string, int>, v: Packing, i: nat, ns: string, key: string,
                  sel: Option<LabelSelector>, d: string)
    requires i < |v.order| && v.order[i] in v.bins
    requires d in Stepped(before, v.bins[v.order[i]], ns, key, sel)
    requires (if d in before then before[d] else 0) == Sum(v.order[..i], NodeTally(v, ns, key, sel, d))
    ensures Stepped(before, v.bins[v.order[i]], ns, key, sel)[d] == Sum(v.order[..i + 1], NodeTally(v, ns, key, sel, d))
  {
    SumStep(v, i, NodeTally(v, ns, key, sel, d));
  }

  lemma {:induction false} SumStep(v: Packing, i: nat, f: string -> int)
    requires i < |v.order|
    ensures Sum(v.order[..i + 1], f) == Sum(v.order[..i], f) + f(v.order[i])
  {
    assert v.order[..i + 1][..i] == v.order[..i];
  }

  lemma {:induction false} TalliesDone(counts: map<string, int>, v: Packing, ns: string, key: string,
                                       sel: Option<LabelSelector>)
    requires Valid(v) && TalliesUpTo(counts, v, |v.order|, ns, key, sel)
    ensures Tallies(counts, v, ns, key, sel)
  {
    assert v.order[..|v.order|] == v.order;
    assert DomainsUpTo(v, |v.order|, key) == Domains(v, key);
  }

  /** Tallies of two selectors that match alike are the same tally. */
  lemma {:induction false} TalliesMatchAlike(counts: map<string, int>, v: Packing, ns: string, key: string,
                          a: Option<LabelSelector>, b: Option<LabelSelector>)
    requires Tallies(counts, v, ns, key, a)
    requires forall labels :: SelectorMatches(a, labels) == SelectorMatches(b, labels)
    ensures Tallies(counts, v, ns, key, b)
  {
    forall d | d in counts ensures DomainCount(v, ns, key, a, d) == DomainCount(v, ns, key, b, d) {
      forall n | n in v.order ensures NodeTally(v, ns, key, a, d)(n) == NodeTally(v, ns, key, b, d)(n) {
        SumEqual(Occupants(v, n), Weight(ns, a), Weight(ns, b));
      }
      SumEqual(v.order, NodeTally(v, ns, key, a, d), NodeTally(v, ns, key, b, d));
    }
  }

  /** Seeding a domain at zero first does not change where the pass ends. */
  lemma {:induction false} SeededBump(counts: map<string, int>, d: string, delta: int)
    requires d !in counts
    ensures Bumped(counts[d := 0], d, delta) == Bumped(counts, d, delta)
  {
  }

  // -------------------------------------------------- from a tally to a verdict

  ghost predicate NonNegativeCounts(counts: map<string, int>) {
    forall d | d in counts :: 0 <= counts[d]
  }

  /** counts is the tally without the pod being placed. */
  ghost predicate TalliesWithout(counts: map<string, int>, v: Packing, pod: Pod, tsc: TopologySpread) {
    && counts.Keys == Domains(v, tsc.topologyKey)
    && forall d | d in counts :: counts[d] == CountWithout(v, pod, tsc, d)
  }

  lemma {:induction false} WithoutFromTally(cached: map<string, int>, v: Packing, pod: Pod, tsc: TopologySpread)
    requires Tallies(cached, v, pod.namespace, tsc.topologyKey, tsc.labelSelector)
    ensures !CountsItself(v, pod, tsc) ==> TalliesWithout(cached, v, pod, tsc)
    ensures CountsItself(v, pod, tsc) ==>
      TalliesWithout(Bumped(cached, v.bins[pod.nodeName].node.labels[tsc.topologyKey], -1), v, pod, tsc)
  {
    if CountsItself(v, pod, tsc) {
      var own := v.bins[pod.nodeName].node.labels[tsc.topologyKey];
      assert own in Domains(v, tsc.topologyKey);
      BumpedEntries(cached, own, -1);
      forall d | d in cached ensures Bumped(cached, own, -1)[d] == CountWithout(v, pod, tsc, d) {
        assert cached[d] == DomainCount(v, pod.namespace, tsc.topologyKey, tsc.labelSelector, d);
      }
    }
  }

  lemma {:induction false} BumpedEntries(counts: map<string, int>, d: string, delta: int)
    requires d in counts
    ensures Bumped(counts, d, delta).Keys == counts.Keys
    ensures forall e | e in counts :: Bumped(counts, d, delta)[e] == counts[e] + if e == d then delta else 0
  {
  }

  lemma {:induction false} AfterNonNegative(without: map<string, int>, v: Packing, pod: Pod, tsc: TopologySpread,
                                            target: string)
    requires Valid(v) && TalliesWithout(without, v, pod, tsc)
    ensures NonNegativeCounts(Bumped(without, target, 1))
  {
    forall d | d in without ensures 0 <= without[d] { CountWithoutNonNegative(v, pod, tsc, d); }
  }

  /** The skew test on the bumped tally is the spread rule. */
  lemma {:induction false} VerdictFromCounts(without: map<string, int>, v: Packing, pod: Pod, n: string,
                                             tsc: TopologySpread, low: int)
    requires n in v.bins && tsc.hard && tsc.topologyKey in v.bins[n].node.labels
    requires TalliesWithout(without, v, pod, tsc)
    requires var counts := Bumped(without, v.bins[n].node.labels[tsc.topologyKey], 1);
      && (forall d | d in counts :: low <= counts[d])
      && exists d :: d in counts && counts[d] == low
    ensures v.bins[n].node.labels[tsc.topologyKey] in Bumped(without, v.bins[n].node.labels[tsc.topologyKey], 1)
    ensures SpreadOk(v, pod, n, tsc)
        <==> Bumped(without, v.bins[n].node.labels[tsc.topologyKey], 1)[v.bins[n].node.labels[tsc.topologyKey]] - low
             <= tsc.maxSkew
  {
    var target := v.bins[n].node.labels[tsc.topologyKey];
    var counts := Bumped(without, target, 1);
    assert target in Domains(v, tsc.topologyKey);
    BumpedEntries(without, target, 1);
    forall d | d in Domains(v, tsc.topologyKey) ensures counts[d] == CountAfter(v, pod, tsc, target, d) {
      assert without[d] == CountWithout(v, pod, tsc, d);
    }
    var d :| d in counts && counts[d] == low;
    assert CountAfter(v, pod, tsc, target, d) == low;
  }
}
