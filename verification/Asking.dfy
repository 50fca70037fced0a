/**
  Asking before or after removal gives the same answer. The planner asks where a pod may go while
  it still sits on its node; the safety guard empties the node first and asks then. For every
  destination other than the pod's own node the two orders agree.
 */
module Asking {
  import opened Model
  import opened Sums
  import opened Packings
  import opened Runs

  lemma {:induction false} MatchesLeft(v: Packing, p: Pod, m: string, term: PodAffinityTerm)
    requires Valid(v) && UniqueKeys(v) && Sits(v, p) && m in v.bins
    ensures m in Remove(v, p).bins
    ensures HasMatch(v.bins[m].occupants, p, term) == HasMatch(Remove(v, p).bins[m].occupants, p, term)
  {
    RemoveKeepsNodes(v, p);
    RemovedList(v, p);
  }

  lemma {:induction false} DomainMatchLeft(v: Packing, p: Pod, n: string, term: PodAffinityTerm)
    requires Valid(v) && UniqueKeys(v) && Sits(v, p) && n in v.bins
    ensures n in Remove(v, p).bins
    ensures DomainHasMatch(v, p, n, term) == DomainHasMatch(Remove(v, p), p, n, term)
  {
    var w := Remove(v, p);
    RemoveKeepsNodes(v, p);
    forall m | m in v.bins
      ensures InDomain(v, n, m, term.topologyKey) == InDomain(w, n, m, term.topologyKey)
      ensures HasMatch(v.bins[m].occupants, p, term) == HasMatch(w.bins[m].occupants, p, term)
    {
      MatchesLeft(v, p, m, term);
    }
  }

  /** Before removal the memo counts the pod exactly when it matches its own selector; afterwards never. */
  lemma {:induction false} CountsItselfExactly(v: Packing, p: Pod, tsc: TopologySpread)
    requires Valid(v) && UniqueKeys(v) && Sits(v, p)
    ensures CountsItself(v, p, tsc)
       <==> tsc.topologyKey in v.bins[p.nodeName].node.labels && Counts(p, p.namespace, tsc.labelSelector)
    ensures !CountsItself(Remove(v, p), p, tsc)
  {
    RemovedList(v, p);
    forall o | o in v.bins[p.nodeName].occupants && SameKey(p, o) ensures o == p {
      assert Sits(v, o);
      if o != p { DistinctKeys(v, p, o); }
    }
  }

  lemma {:induction false} CountWithoutLeft(v: Packing, p: Pod, tsc: TopologySpread, d: string)
    requires Valid(v) && UniqueKeys(v) && Sits(v, p)
    ensures CountWithout(v, p, tsc, d) == CountWithout(Remove(v, p), p, tsc, d)
  {
    var w, n := Remove(v, p), p.nodeName;
    CountsItselfExactly(v, p, tsc);
    FoundByKey(v, p);
    RemoveDiffers(v, p, p.namespace, tsc.labelSelector);
    var f := Weight(p.namespace, tsc.labelSelector);
    assert Sum(w.bins[n].occupants, f) == Sum(v.bins[n].occupants, f) - f(p);
    DomainCountChange(v, w, n, p.namespace, tsc.topologyKey, tsc.labelSelector, d, -f(p));
  }

  lemma {:induction false} SpreadLeft(v: Packing, p: Pod, n: string, tsc: TopologySpread)
    requires Valid(v) && UniqueKeys(v) && Sits(v, p) && n in v.bins
    ensures n in Remove(v, p).bins
    ensures SpreadOk(v, p, n, tsc) == SpreadOk(Remove(v, p), p, n, tsc)
  {
    var w := Remove(v, p);
    RemoveKeepsNodes(v, p);
    SameDomains(v, w, tsc.topologyKey);
    if tsc.topologyKey in v.bins[n].node.labels {
      var target := v.bins[n].node.labels[tsc.topologyKey];
      forall d ensures CountAfter(v, p, tsc, target, d) == CountAfter(w, p, tsc, target, d) {
        CountWithoutLeft(v, p, tsc, d);
      }
    }
  }

  /** The verdict on any other node is the same whether or not the pod was removed first. */
  lemma {:induction false} AskBeforeOrAfterRemoval(v: Packing, p: Pod, n: string)
    requires Valid(v) && UniqueKeys(v) && Sits(v, p) && n != p.nodeName
    ensures CanPlace(v, p, n) == CanPlace(Remove(v, p), p, n)
  {
    RemoveKeepsNodes(v, p);
    if n in v.bins {
      forall t ensures DomainHasMatch(v, p, n, t) == DomainHasMatch(Remove(v, p), p, n, t) {
        DomainMatchLeft(v, p, n, t);
      }
      forall t ensures SpreadOk(v, p, n, t) == SpreadOk(Remove(v, p), p, n, t) {
        SpreadLeft(v, p, n, t);
      }
    }
  }
}
