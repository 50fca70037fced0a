/**
  The domain vocabulary of the consolidator: resource vectors, label selectors, nodes, pods
  and the cluster snapshot (internal/model). Everything here is plain data.
 */
module Model {
  datatype Option<+T> = None | Some(value: T)

  type Labels = map<string, string>

  const LABEL_HOSTNAME := "kubernetes.io/hostname"

  /** A Go map lookup: an absent key reads as the empty string. */
  function Lookup(labels: Labels, key: string): string {
    if key in labels then labels[key] else ""
  }

  // ---------------------------------------------------------------- resources

  function Max(a: int, b: int): int { if a > b then a else b }

  datatype Resources = Resources(milliCPU: int, memoryBytes: int, pods: int) {
    function Add(o: Resources): Resources {
      Resources(milliCPU + o.milliCPU, memoryBytes + o.memoryBytes, pods + o.pods)
    }

    /** Component-wise difference, each component clamped at zero. */
    function Sub(o: Resources): Resources {
      Resources(Max(milliCPU - o.milliCPU, 0), Max(memoryBytes - o.memoryBytes, 0), Max(pods - o.pods, 0))
    }

    predicate Fits(capacity: Resources) {
      milliCPU <= capacity.milliCPU && memoryBytes <= capacity.memoryBytes && pods <= capacity.pods
    }

    predicate IsZero() { this == ZERO }

    predicate NonNegative() { 0 <= milliCPU && 0 <= memoryBytes && 0 <= pods }

    /** The largest per-dimension fraction of capacity; a dimension without capacity counts as 0. */
    function DominantRatio(capacity: Resources): real {
      MaxReal(Ratio(milliCPU, capacity.milliCPU),
              MaxReal(Ratio(memoryBytes, capacity.memoryBytes), Ratio(pods, capacity.pods)))
    }
  }

  const ZERO := Resources(0, 0, 0)
  const ONE_POD := Resources(0, 0, 1)

  function MaxReal(a: real, b: real): real { if b > a then b else a }

  function Ratio(v: int, capacity: int): real {
    if capacity <= 0 then 0.0 else v as real / capacity as real
  }

  /** Go's float-to-integer conversion: truncation towards zero. */
  function Truncate(x: real): int {
    if x >= 0.0 then x.Floor else -((-x).Floor)
  }

  // ------------------------------------------------------------------- taints

  datatype TaintEffect = NoSchedule | PreferNoSchedule | NoExecute

  datatype Taint = Taint(key: string, value: string, effect: TaintEffect)

  datatype TolerationOperator = TolExists | TolEqual | TolUnset | TolUnknown

  datatype Toleration = Toleration(key: string, operator: TolerationOperator, value: string,
                                   effect: Option<TaintEffect>) {
    predicate ToleratesTaint(taint: Taint) {
      && (effect.None? || effect.value == taint.effect)
      && if key == "" then operator.TolExists?
         else key == taint.key && match operator
              case TolExists => true
              case TolEqual => value == taint.value
              case TolUnset => value == taint.value
              case TolUnknown => false
    }
  }

  // ---------------------------------------------------------------- selectors

  datatype SelectorOperator = In | NotIn | Exists | DoesNotExist | Gt | Lt | UnknownOperator(name: string)

  datatype SelectorRequirement = SelectorRequirement(key: string, operator: SelectorOperator,
                                                     values: seq<string>) {
    predicate Matches(labels: Labels) {
      match operator
      case Exists => key in labels
      case DoesNotExist => key !in labels
      case In => key in labels && labels[key] in values
      case NotIn => key !in labels || labels[key] !in values
      case _ => false
    }
  }

  datatype LabelSelector = LabelSelector(matchLabels: Labels, matchExpressions: seq<SelectorRequirement>)

  /** A nil or empty selector constrains nothing. */
  predicate IsEmptySelector(s: Option<LabelSelector>) {
    s.None? || (s.value.matchLabels == map[] && s.value.matchExpressions == [])
  }

  predicate SelectorMatches(s: Option<LabelSelector>, labels: Labels) {
    s.None? ||
    (&& (forall k | k in s.value.matchLabels :: Lookup(labels, k) == s.value.matchLabels[k])
     && (forall r | r in s.value.matchExpressions :: r.Matches(labels)))
  }

  datatype PodAffinityTerm = PodAffinityTerm(labelSelector: Option<LabelSelector>, topologyKey: string,
                                             namespaces: seq<string>)

  datatype PodAffinity = PodAffinity(requiredAffinity: seq<PodAffinityTerm>,
                                     requiredAntiAffinity: seq<PodAffinityTerm>)

  datatype TopologySpread = TopologySpread(maxSkew: int, topologyKey: string, hard: bool,
                                           labelSelector: Option<LabelSelector>)

  // --------------------------------------------------------------------- node

  datatype Node = Node(
    name: string,
    labels: Labels,
    annotations: Labels,
    taints: seq<Taint>,
    allocatable: Resources,
    unschedulable: bool,
    ready: bool,
    createdAt: Option<int>)
  {
    predicate DoNotDisrupt() { Lookup(annotations, "karpenter.sh/do-not-disrupt") == "true" }
  }

  // ---------------------------------------------------------------------- pod

  datatype PodPhase = Pending | Running | Succeeded | Failed

  datatype OwnerRef = OwnerRef(kind: string, name: string)

  datatype Pod = Pod(
    namespace: string,
    name: string,
    nodeName: string,
    labels: Labels,
    phase: PodPhase,
    requests: Resources,
    nodeSelector: Labels,
    tolerations: seq<Toleration>,
    /** Required node-affinity terms, or-ed; each is a conjunction. Empty when there is none. */
    nodeAffinity: seq<seq<SelectorRequirement>>,
    podAffinity: Option<PodAffinity>,
    topologySpread: seq<TopologySpread>,
    ready: bool,
    owner: Option<OwnerRef>,
    terminating: bool,
    doNotDisrupt: bool)
  {
    function Key(): string { namespace + "/" + name }

    /** What the pod takes from a node: its requests and one pod slot. */
    function Footprint(): Resources { requests.Add(ONE_POD) }

    predicate Finished() { phase == Succeeded || phase == Failed }

    predicate PinnedToNode() {
      owner.Some? && (owner.value.kind == "DaemonSet" || owner.value.kind == "Node")
    }

    predicate IsMovable() {
      !terminating && !Finished() && !PinnedToNode() && !doNotDisrupt
    }
  }

  /** A pod that may be evicted to move it: pending or running, not on its way out, not protected, and neither a
      DaemonSet's nor its node's own. */
  predicate FreeToMove(p: Pod) {
    && (p.phase == Pending || p.phase == Running) && p.terminating == false && p.doNotDisrupt == false
    && match p.owner case None => true case Some(o) => o.kind != "DaemonSet" && o.kind != "Node"
  }

  lemma {:induction false} MovableExactly(p: Pod)
    ensures p.IsMovable() <==> FreeToMove(p)
  {
  }

  predicate SameKey(a: Pod, b: Pod) { a.namespace == b.namespace && a.name == b.name }

  // ----------------------------------------------------------------- snapshot

  datatype Budget = Budget(namespace: string, name: string, selector: Option<LabelSelector>,
                           disruptionsAllowed: int)
  {
    predicate Blocks() { disruptionsAllowed <= 0 }

    /** Whether this budget names the pod: same namespace, and a non-empty selector that matches. */
    predicate Covers(pod: Pod) {
      namespace == pod.namespace && !IsEmptySelector(selector) && SelectorMatches(selector, pod.labels)
    }
  }

  datatype Snapshot = Snapshot(takenAt: int, nodes: seq<Node>, pods: seq<Pod>, budgets: seq<Budget>)

  // ---------------------------------------------------------------- plan steps

  datatype Move = Move(namespace: string, pod: string, fromNode: string, toNode: string,
                       cpuMilli: int, memoryBytes: int)

  datatype PlanStep = PlanStep(sequenceNumber: int, targetNode: string, moves: seq<Move>)

  datatype Impact = Green | Yellow | Red | UnknownImpact

  /** A step with the classifier's rating. */
  datatype RatedStep = RatedStep(sequenceNumber: int, targetNode: string, moves: seq<Move>, impact: Impact)

  // ----------------------------------------------------------------- uniqueness

  ghost predicate Distinct<T>(s: seq<T>) {
    forall i, j | 0 <= i < j < |s| :: s[i] != s[j]
  }

  function NodeNames(nodes: seq<Node>): (names: seq<string>)
    ensures |names| == |nodes| && forall i | 0 <= i < |nodes| :: names[i] == nodes[i].name
  {
    seq(|nodes|, i requires 0 <= i < |nodes| => nodes[i].name)
  }

  /** The API server's own uniqueness guarantee for node names. */
  ghost predicate UniqueNodes(nodes: seq<Node>) {
    forall i, j | 0 <= i < j < |nodes| :: nodes[i].name != nodes[j].name
  }

  /** The API server's own uniqueness guarantee for namespaced pod names. */
  ghost predicate UniquePods(pods: seq<Pod>) {
    forall i, j | 0 <= i < j < |pods| :: pods[i].Key() != pods[j].Key()
  }

  lemma {:induction false} LastIsNew(occ: seq<Pod>)
    requires UniquePods(occ) && occ != []
    ensures occ[|occ| - 1] !in occ[..|occ| - 1] && UniquePods(occ[..|occ| - 1])
  {
    var front, last := occ[..|occ| - 1], occ[|occ| - 1];
    assert forall i | 0 <= i < |front| :: front[i].Key() != last.Key();
  }

  ghost predicate NonNegativeRequests(pods: seq<Pod>) {
    forall p | p in pods :: p.requests.NonNegative()
  }
}
