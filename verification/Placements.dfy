/**
  The placement engine as it runs (internal/constraints/placement.go, spreadindex.go): a mutable
  assignment on the heap whose feasibility check fills a memo of topology-spread tallies.
  Every method is proved against the memo-free meaning in module Packings, so the memo is
  invisible: whatever calls were made before, in whatever order, the verdict is the recount's.
 */
module Placements {
  import opened Model
  import opened Sums
  import opened Packings
  import opened Fingerprints

  class NodeState {
    const node: Node
    var free: Resources
    var occupants: seq<Pod>

    constructor (node: Node, free: Resources, occupants: seq<Pod>)
      ensures this.node == node && this.free == free && this.occupants == occupants
    {
      this.node, this.free, this.occupants := node, free, occupants;
    }
  }

  /** One memoised question. */
  datatype SpreadKey = SpreadKey(topologyKey: string, namespace: string, selector: string)

  class SpreadEntry {
    var counts: map<string, int>
    const selector: Option<LabelSelector>

    constructor (counts: map<string, int>, selector: Option<LabelSelector>)
      ensures this.counts == counts && this.selector == selector
    {
      this.counts, this.selector := counts, selector;
    }
  }

  class SpreadIndex {
    var entries: map<SpreadKey, SpreadEntry>

    constructor ()
      ensures entries == map[]
    {
      entries := map[];
    }

    /** A deep copy: counting on in either index leaves the other alone. */
    method Clone() returns (out: SpreadIndex)
      requires Separate(entries)
      ensures fresh(out) && fresh(out.entries.Values) && Separate(out.entries)
      ensures out.entries.Keys == entries.Keys
      ensures forall k | k in entries ::
        out.entries[k].counts == entries[k].counts && out.entries[k].selector == entries[k].selector
    {
      out := new SpreadIndex();
      var todo := entries.Keys;
      while todo != {}
        invariant fresh(out) && (forall k | k in out.entries :: fresh(out.entries[k])) && Separate(out.entries)
        invariant todo <= entries.Keys && out.entries.Keys == entries.Keys - todo
        invariant forall k | k in out.entries ::
          out.entries[k].counts == entries[k].counts && out.entries[k].selector == entries[k].selector
        decreases todo
      {
        var k :| k in todo;
        todo := todo - {k};
        var e := new SpreadEntry(entries[k].counts, entries[k].selector);
        out.entries := out.entries[k := e];
      }
    }
  }

  /** The pods an admissible workload may bring: every spread selector passed API validation. */
  predicate AdmittedPod(pod: Pod) {
    forall t | t in pod.topologySpread :: Admitted(t.labelSelector)
  }

  function BinsOf(nodes: map<string, NodeState>): map<string, Bin>
    reads nodes.Values
  {
    map n | n in nodes :: Bin(nodes[n].node, nodes[n].free, nodes[n].occupants)
  }

  ghost predicate Separate<K, V>(m: map<K, V>) {
    forall a, b | a in m && b in m && a != b :: m[a] != m[b]
  }

  class Placement {
    const nodes: map<string, NodeState>
    const nodeOrder: seq<string>
    const spread: SpreadIndex

    constructor (nodes: map<string, NodeState>, nodeOrder: seq<string>, spread: SpreadIndex)
      ensures this.nodes == nodes && this.nodeOrder == nodeOrder && this.spread == spread
    {
      this.nodes, this.nodeOrder, this.spread := nodes, nodeOrder, spread;
    }

    /** The objects this placement owns. */
    ghost function Repr(): set<object>
      reads spread
    {
      var states: set<object> := nodes.Values;
      var memo: set<object> := spread.entries.Values;
      states + memo + {spread}
    }

    /** What the placement says about the cluster, the memo left out. */
    function View(): Packing
      reads nodes.Values
    {
      Packing(nodeOrder, BinsOf(nodes))
    }

    /** A memoised entry equals a full recount of assignment v. */
    ghost predicate Recounts(k: SpreadKey, v: Packing)
      requires k in spread.entries
      reads spread, spread.entries.Values
    {
      var e := spread.entries[k];
      && Admitted(e.selector)
      && Fingerprint(e.selector) == k.selector
      && Tallies(e.counts, v, k.namespace, k.topologyKey, e.selector)
    }

    /** A memoised entry equals a full recount of the current assignment. */
    ghost predicate Coherent(k: SpreadKey)
      requires k in spread.entries
      reads spread, spread.entries.Values, nodes.Values
    {
      Recounts(k, View())
    }

    ghost predicate Valid()
      reads Repr()
    {
      && Packings.Valid(View())
      && Separate(nodes)
      && Separate(spread.entries)
      && forall k | k in spread.entries :: Coherent(k)
    }

    // --------------------------------------------------------- copies and queries

    /** An independent copy: nothing done to it reaches this placement, or the other way round. */
    method Clone() returns (out: Placement)
      requires Valid()
      ensures fresh(out) && fresh(out.Repr())
      ensures out.Valid() && out.View() == View()
    {
      var copied := CopyNodes();
      var index := spread.Clone();
      out := new Placement(copied, nodeOrder, index);
      assert out.View() == View();
      forall k | k in index.entries ensures out.Coherent(k) { assert Coherent(k); }
    }

    method CopyNodes() returns (copied: map<string, NodeState>)
      ensures fresh(copied.Values) && Separate(copied) && BinsOf(copied) == BinsOf(nodes)
    {
      copied := map[];
      var todo := nodes.Keys;
      while todo != {}
        invariant todo <= nodes.Keys && copied.Keys == nodes.Keys - todo
        invariant (forall n | n in copied :: fresh(copied[n])) && Separate(copied)
        invariant forall n | n in copied :: SameState(copied[n], nodes[n])
        decreases todo
      {
        var n :| n in todo;
        todo := todo - {n};
        var s := new NodeState(nodes[n].node, nodes[n].free, nodes[n].occupants);
        copied := copied[n := s];
      }
    }

    method Free(nodeName: string) returns (free: Resources)
      ensures free == Packings.Free(View(), nodeName)
    {
      if nodeName in nodes { return nodes[nodeName].free; }
      return ZERO;
    }

    method Occupants(nodeName: string) returns (occupants: seq<Pod>)
      ensures occupants == Packings.Occupants(View(), nodeName)
    {
      if nodeName in nodes { return nodes[nodeName].occupants; }
      return [];
    }

    /** No movable workload; pods pinned to the node do not count. */
    method IsEmpty(nodeName: string) returns (empty: bool)
      ensures empty == Packings.IsEmpty(View(), nodeName)
    {
      var occupants := Occupants(nodeName);
      for i := 0 to |occupants|
        invariant forall p | p in occupants[..i] :: !p.IsMovable()
      {
        if occupants[i].IsMovable() { return false; }
      }
      assert occupants[..|occupants|] == occupants;
      return true;
    }

    // ------------------------------------------------------------ place, remove

    /** Node n's free capacity and occupants, replaced in place; no other node is touched. */
    method Hold(n: string, free: Resources, occupants: seq<Pod>)
      requires Separate(nodes) && n in nodes
      modifies nodes[n]
      ensures BinsOf(nodes) == old(BinsOf(nodes))[n := Bin(nodes[n].node, free, occupants)]
    {
      nodes[n].free, nodes[n].occupants := free, occupants;
    }

    /** The pod joins node n and takes its footprint from what is free there. */
    method Seat(pod: Pod, n: string)
      requires Separate(nodes) && n in nodes
      modifies nodes[n]
      ensures View() == Packings.Place(old(View()), pod, n)
    {
      var ns := nodes[n];
      Hold(n, ns.free.Sub(pod.requests.Add(ONE_POD)), ns.occupants + [pod.(nodeName := n)]);
    }

    /** Every memoised tally follows a pod that has just joined node n. */
    method CountArrival(pod: Pod, n: string, ghost v: Packing)
      requires Packings.Valid(v) && n in v.bins && n in nodes && nodes[n].node == v.bins[n].node
      requires Separate(spread.entries) && forall k | k in spread.entries :: Recounts(k, v)
      modifies spread.entries.Values
      ensures forall k | k in spread.entries :: Recounts(k, Packings.Place(v, pod, n))
    {
      AdjustSpread(pod, n, 1);
      forall k | k in spread.entries ensures Recounts(k, Packings.Place(v, pod, n)) {
        var e := spread.entries[k];
        assert old(Recounts(k, v));
        TalliesPlace(old(e.counts), v, pod, n, k.namespace, k.topologyKey, e.selector);
      }
    }

    /** Every memoised tally follows the occupant that has just left. */
    method CountDeparture(pod: Pod, occupant: Pod, ghost v: Packing)
      requires Packings.Valid(v) && pod.nodeName in v.bins && 0 <= IndexOf(v.bins[pod.nodeName].occupants, pod)
      requires pod.nodeName in nodes && nodes[pod.nodeName].node == v.bins[pod.nodeName].node
        && occupant == Leaving(v, pod)
      requires Separate(spread.entries) && forall k | k in spread.entries :: Recounts(k, v)
      modifies spread.entries.Values
      ensures forall k | k in spread.entries :: Recounts(k, Packings.Remove(v, pod))
    {
      AdjustSpread(occupant, pod.nodeName, -1);
      forall k | k in spread.entries ensures Recounts(k, Packings.Remove(v, pod)) {
        var e := spread.entries[k];
        assert old(Recounts(k, v));
        TalliesRemove(old(e.counts), v, pod, k.namespace, k.topologyKey, e.selector);
      }
    }

    /** The i-th occupant of the pod's node leaves and the caller's requests are free again. */
    method Unseat(pod: Pod, i: nat) returns (occupant: Pod)
      requires Separate(nodes) && pod.nodeName in nodes
      requires i == IndexOf(View().bins[pod.nodeName].occupants, pod)
      modifies nodes[pod.nodeName]
      ensures View() == Packings.Remove(old(View()), pod)
      ensures occupant == Leaving(old(View()), pod)
    {
      var ns := nodes[pod.nodeName];
      occupant := ns.occupants[i];
      Hold(pod.nodeName, ns.free.Add(pod.requests).Add(ONE_POD), ns.occupants[..i] + ns.occupants[i + 1..]);
    }

    method Place(pod: Pod, nodeName: string)
      requires Valid()
      modifies Repr()
      ensures Valid() && spread.entries == old(spread.entries)
      ensures View() == Packings.Place(old(View()), pod, nodeName)
    {
      if nodeName !in nodes { return; }
      ghost var v := View();
      assert forall k | k in spread.entries :: Coherent(k);
      Seat(pod, nodeName);
      PlaceValid(v, pod, nodeName);
      CountArrival(pod, nodeName, v);
      assert View() == Packings.Place(v, pod, nodeName);
    }

    method Remove(pod: Pod)
      requires Valid()
      modifies Repr()
      ensures Valid() && spread.entries == old(spread.entries)
      ensures View() == Packings.Remove(old(View()), pod)
    {
      if pod.nodeName !in nodes { return; }
      var ns := nodes[pod.nodeName];
      var i := 0;
      while i < |ns.occupants|
        invariant 0 <= i <= |ns.occupants|
        invariant forall j | 0 <= j < i :: !SameKey(ns.occupants[j], pod)
      {
        if SameKey(ns.occupants[i], pod) {
          TakeOut(pod, i);
          return;
        }
        i := i + 1;
      }
    }

    /** Assigns a snapshot pod to the node it names, before any question has been memoised. */
    method Admit(pod: Pod)
      requires Valid() && spread.entries == map[]
      modifies nodes.Values
      ensures Valid() && View() == Packings.Place(old(View()), pod, pod.nodeName)
    {
      if pod.nodeName !in nodes { return; }
      ghost var v := View();
      Seat(pod, pod.nodeName);
      PlaceValid(v, pod, pod.nodeName);
    }

    /** The body of Remove's search once the occupant is found. */
    method TakeOut(pod: Pod, i: nat)
      requires Valid() && pod.nodeName in nodes
      requires i == IndexOf(View().bins[pod.nodeName].occupants, pod)
      modifies Repr()
      ensures Valid() && spread.entries == old(spread.entries)
      ensures View() == Packings.Remove(old(View()), pod)
    {
      ghost var v := View();
      assert forall k | k in spread.entries :: Coherent(k);
      var occupant := Unseat(pod, i);
      RemoveValid(v, pod);
      CountDeparture(pod, occupant, v);
      assert View() == Packings.Remove(v, pod);
    }

    /** Moves one pod's contribution in or out of every entry it counts towards. */
    method AdjustSpread(pod: Pod, nodeName: string, delta: int)
      requires nodeName in nodes && Separate(spread.entries)
      modifies spread.entries.Values
      ensures forall k | k in spread.entries ::
        spread.entries[k].counts == old(
          if Counts(pod, k.namespace, spread.entries[k].selector)
          then Adjusted(spread.entries[k].counts, nodes[nodeName].node.labels, k.topologyKey, delta)
          else spread.entries[k].counts)
    {
      var ns := nodes[nodeName];
      var todo := spread.entries.Keys;
      while todo != {}
        invariant todo <= spread.entries.Keys
        invariant forall k | k in todo :: spread.entries[k].counts == old(spread.entries[k].counts)
        invariant forall k | k in spread.entries && k !in todo ::
          spread.entries[k].counts == old(
            if Counts(pod, k.namespace, spread.entries[k].selector)
            then Adjusted(spread.entries[k].counts, nodes[nodeName].node.labels, k.topologyKey, delta)
            else spread.entries[k].counts)
        decreases todo
      {
        var key :| key in todo;
        var entry := spread.entries[key];
        todo := todo - {key};
        if key.namespace != pod.namespace { continue; }
        if key.topologyKey !in ns.node.labels { continue; }
        if !SelectorMatches(entry.selector, pod.labels) { continue; }
        var domain := ns.node.labels[key.topologyKey];
        entry.counts := Bumped(entry.counts, domain, delta);
      }
    }

    // ------------------------------------------------------------- the memo

    /** Per-domain tally for a constraint: from the memo, or by one pass over the cluster. */
    method SpreadCounts(namespace: string, tsc: TopologySpread) returns (counts: map<string, int>)
      requires Valid() && Admitted(tsc.labelSelector)
      modifies spread
      ensures Valid() && View() == old(View()) && fresh(Repr() - old(Repr()))
      ensures Tallies(counts, View(), namespace, tsc.topologyKey, tsc.labelSelector)
    {
      var selector := SelectorFingerprint(tsc.labelSelector);
      var key := SpreadKey(tsc.topologyKey, namespace, selector);
      if key in spread.entries {
        assert Coherent(key);
        var e := spread.entries[key];
        EqualFingerprintsMatchAlike(e.selector, tsc.labelSelector);
        TalliesMatchAlike(e.counts, View(), namespace, tsc.topologyKey, e.selector, tsc.labelSelector);
        return e.counts;
      }
      counts := CountAfresh(namespace, tsc);
      Remember(key, counts, tsc.labelSelector);
    }

    /** Keeps a fresh tally for the next time it is asked for. */
    method Remember(key: SpreadKey, counts: map<string, int>, selector: Option<LabelSelector>)
      requires Valid() && key !in spread.entries && Admitted(selector) && key.selector == Fingerprint(selector)
      requires Tallies(counts, View(), key.namespace, key.topologyKey, selector)
      modifies spread
      ensures Valid() && View() == old(View()) && fresh(Repr() - old(Repr()))
    {
      var e := new SpreadEntry(counts, selector);
      spread.entries := spread.entries[key := e];
      assert View() == old(View());
      forall k | k in spread.entries ensures Coherent(k) {
        if k != key { assert old(Coherent(k)); }
      }
    }

    /** First use of a question: every domain seeded at zero, then one step per matching occupant. */
    method CountAfresh(namespace: string, tsc: TopologySpread) returns (counts: map<string, int>)
      requires Packings.Valid(View())
      ensures Tallies(counts, View(), namespace, tsc.topologyKey, tsc.labelSelector)
    {
      counts := map[];
      for i := 0 to |nodeOrder|
        invariant TalliesUpTo(counts, View(), i, namespace, tsc.topologyKey, tsc.labelSelector)
      {
        assert nodeOrder[i] in View().order;
        TalliesStep(counts, View(), i, namespace, tsc.topologyKey, tsc.labelSelector);
        counts := CountNode(nodes[nodeOrder[i]], counts, namespace, tsc);
      }
      TalliesDone(counts, View(), namespace, tsc.topologyKey, tsc.labelSelector);
    }

    method CountNode(ns: NodeState, before: map<string, int>, namespace: string, tsc: TopologySpread)
      returns (counts: map<string, int>)
      ensures counts == Stepped(before, Bin(ns.node, ns.free, ns.occupants),
                                namespace, tsc.topologyKey, tsc.labelSelector)
    {
      counts := before;
      if tsc.topologyKey !in ns.node.labels { return; }
      var domain := ns.node.labels[tsc.topologyKey];
      if domain !in counts {
        SeededBump(counts, domain, Sum(ns.occupants, Weight(namespace, tsc.labelSelector)));
        counts := counts[domain := 0];
      }
      counts := CountOccupants(ns, counts, domain, namespace, tsc);
    }

    method CountOccupants(ns: NodeState, seeded: map<string, int>, domain: string, namespace: string,
                          tsc: TopologySpread)
      returns (counts: map<string, int>)
      requires domain in seeded
      ensures counts == Bumped(seeded, domain, Sum(ns.occupants, Weight(namespace, tsc.labelSelector)))
    {
      counts := seeded;
      for j := 0 to |ns.occupants|
        invariant counts == Bumped(seeded, domain, Sum(ns.occupants[..j], Weight(namespace, tsc.labelSelector)))
      {
        assert ns.occupants[..j + 1][..j] == ns.occupants[..j];
        if ns.occupants[j].namespace == namespace && SelectorMatches(tsc.labelSelector, ns.occupants[j].labels) {
          counts := Bumped(counts, domain, 1);
        }
      }
      assert ns.occupants[..|ns.occupants|] == ns.occupants;
    }

    /** The tally without the pod under consideration. */
    method DomainCounts(pod: Pod, tsc: TopologySpread) returns (counts: map<string, int>)
      requires Valid() && Admitted(tsc.labelSelector)
      modifies spread
      ensures Valid() && View() == old(View()) && fresh(Repr() - old(Repr()))
      ensures TalliesWithout(counts, View(), pod, tsc)
    {
      counts := SpreadCounts(pod.namespace, tsc);
      WithoutFromTally(counts, View(), pod, tsc);
      var counted := CountedItself(pod, tsc);
      if counted {
        var domain := nodes[pod.nodeName].node.labels[tsc.topologyKey];
        counts := Bumped(counts, domain, -1);
      }
    }

    /** Whether the memo counted the pod being moved, on the node it names. */
    method CountedItself(pod: Pod, tsc: TopologySpread) returns (counted: bool)
      ensures counted == CountsItself(View(), pod, tsc)
    {
      if pod.nodeName !in nodes || tsc.topologyKey !in nodes[pod.nodeName].node.labels { return false; }
      var occupants := nodes[pod.nodeName].occupants;
      for i := 0 to |occupants|
        invariant forall o | o in occupants[..i] ::
          !(SameKey(pod, o) && Counts(o, pod.namespace, tsc.labelSelector))
      {
        if SameKey(pod, occupants[i]) && SelectorMatches(tsc.labelSelector, occupants[i].labels)
           && occupants[i].namespace == pod.namespace
        {
          return true;
        }
      }
      assert occupants[..|occupants|] == occupants;
      return false;
    }

    // ------------------------------------------------------- the hard predicates

    predicate InSameTopologyDomain(a: string, b: string, key: string) {
      if key == LABEL_HOSTNAME then a == b
      else a in nodes && b in nodes
           && key in nodes[a].node.labels && key in nodes[b].node.labels
           && nodes[a].node.labels[key] == nodes[b].node.labels[key]
    }

    /** Whether some other occupant of the node matches the term. */
    method FindMatch(ns: NodeState, pod: Pod, term: PodAffinityTerm) returns (found: bool)
      ensures found == HasMatch(ns.occupants, pod, term)
    {
      for i := 0 to |ns.occupants|
        invariant !HasMatch(ns.occupants[..i], pod, term)
      {
        var occupant := ns.occupants[i];
        if !SameKey(pod, occupant) && TermMatches(term, occupant, pod.namespace) {
          return true;
        }
      }
      assert ns.occupants[..|ns.occupants|] == ns.occupants;
      return false;
    }

    method ConflictInDomain(pod: Pod, node: Node, term: PodAffinityTerm) returns (conflict: bool)
      requires Packings.Valid(View())
      ensures conflict == (term.topologyKey in node.labels && exists m | m in nodes && m != node.name ::
        Lookup(nodes[m].node.labels, term.topologyKey) == node.labels[term.topologyKey]
        && HasMatch(nodes[m].occupants, pod, term))
    {
      if term.topologyKey !in node.labels { return false; }
      var domain := node.labels[term.topologyKey];
      for i := 0 to |nodeOrder|
        invariant forall m | m in nodeOrder[..i] && m != node.name ::
          m in nodes && !(Lookup(nodes[m].node.labels, term.topologyKey) == domain
                          && HasMatch(nodes[m].occupants, pod, term))
      {
        var name := nodeOrder[i];
        assert name in View().order;
        if name == node.name { continue; }
        var other := nodes[name];
        if Lookup(other.node.labels, term.topologyKey) != domain { continue; }
        var found := FindMatch(other, pod, term);
        if found { return true; }
      }
      forall m | m in nodes ensures m in nodeOrder[..|nodeOrder|] { assert m in View().bins; }
      return false;
    }

    method FitsPodAntiAffinity(pod: Pod, nodeName: string) returns (ok: bool)
      requires Packings.Valid(View()) && nodeName in nodes
      ensures ok == AntiAffinityOk(View(), pod, nodeName)
    {
      if pod.podAffinity.None? { return true; }
      var terms := pod.podAffinity.value.requiredAntiAffinity;
      var ns := nodes[nodeName];
      for t := 0 to |terms|
        invariant forall term | term in terms[..t] :: !DomainHasMatch(View(), pod, nodeName, term)
      {
        var term := terms[t];
        for i := 0 to |ns.occupants|
          invariant InSameTopologyDomain(nodeName, nodeName, term.topologyKey) ==>
            !HasMatch(ns.occupants[..i], pod, term)
        {
          var occupant := ns.occupants[i];
          assert occupant in View().bins[nodeName].occupants;
          if SameKey(pod, occupant) { continue; }
          if !InSameTopologyDomain(nodeName, occupant.nodeName, term.topologyKey) { continue; }
          if !TermMatches(term, occupant, pod.namespace) { continue; }
          assert InDomain(View(), nodeName, nodeName, term.topologyKey);
          assert HasMatch(ns.occupants, pod, term);
          assert DomainHasMatch(View(), pod, nodeName, term);
          return false;
        }
        assert ns.occupants[..|ns.occupants|] == ns.occupants;
        // A key wider than the host also reaches the domain's other nodes.
        if term.topologyKey != LABEL_HOSTNAME {
          var conflict := ConflictInDomain(pod, ns.node, term);
          if conflict {
            ghost var m :| m in nodes && m != ns.node.name
              && Lookup(nodes[m].node.labels, term.topologyKey) == ns.node.labels[term.topologyKey]
              && HasMatch(nodes[m].occupants, pod, term);
            assert InDomain(View(), nodeName, m, term.topologyKey) && HasMatch(View().bins[m].occupants, pod, term);
            assert DomainHasMatch(View(), pod, nodeName, term);
            return false;
          }
        }
        assert forall m | m in View().bins && InDomain(View(), nodeName, m, term.topologyKey) ::
          !HasMatch(View().bins[m].occupants, pod, term);
      }
      return true;
    }

    method FitsPodAffinity(pod: Pod, nodeName: string) returns (ok: bool)
      requires Packings.Valid(View()) && nodeName in nodes
      ensures ok == AffinityOk(View(), pod, nodeName)
    {
      if pod.podAffinity.None? { return true; }
      var terms := pod.podAffinity.value.requiredAffinity;
      for t := 0 to |terms|
        invariant forall term | term in terms[..t] :: DomainHasMatch(View(), pod, nodeName, term)
      {
        var found := AnyInDomain(pod, nodeName, terms[t]);
        if !found { return false; }
      }
      return true;
    }

    method AnyInDomain(pod: Pod, nodeName: string, term: PodAffinityTerm) returns (found: bool)
      requires Packings.Valid(View()) && nodeName in nodes
      ensures found == DomainHasMatch(View(), pod, nodeName, term)
    {
      var labels := nodes[nodeName].node.labels;
      for i := 0 to |nodeOrder|
        invariant forall m | m in nodeOrder[..i] ::
          m in nodes && !(InDomain(View(), nodeName, m, term.topologyKey) && HasMatch(nodes[m].occupants, pod, term))
      {
        var name := nodeOrder[i];
        assert name in View().order;
        var other := nodes[name];
        if term.topologyKey == LABEL_HOSTNAME {
          if name != nodeName { continue; }
        } else if term.topologyKey !in labels
               || Lookup(other.node.labels, term.topologyKey) != labels[term.topologyKey] {
          continue;
        }
        found := FindMatch(other, pod, term);
        if found {
          assert InDomain(View(), nodeName, name, term.topologyKey) && HasMatch(View().bins[name].occupants, pod, term);
          return;
        }
      }
      forall m | m in nodes ensures m in nodeOrder[..|nodeOrder|] { assert m in View().bins; }
      return false;
    }

    /** Every hard constraint is judged on the counts that include the new arrival. */
    method FitsTopologySpread(pod: Pod, nodeName: string) returns (ok: bool)
      requires Valid() && AdmittedPod(pod) && nodeName in nodes
      modifies spread
      ensures Valid() && View() == old(View()) && fresh(Repr() - old(Repr()))
      ensures ok == forall t | t in pod.topologySpread :: SpreadOk(View(), pod, nodeName, t)
    {
      for t := 0 to |pod.topologySpread|
        invariant Valid() && View() == old(View()) && fresh(Repr() - old(Repr()))
        invariant forall c | c in pod.topologySpread[..t] :: SpreadOk(View(), pod, nodeName, c)
      {
        var tsc := pod.topologySpread[t];
        if !tsc.hard { continue; }
        ok := FitsSpread(pod, nodeName, tsc);
        if !ok { return; }
      }
      return true;
    }

    method FitsSpread(pod: Pod, nodeName: string, tsc: TopologySpread) returns (ok: bool)
      requires Valid() && Admitted(tsc.labelSelector) && nodeName in nodes && tsc.hard
      modifies spread
      ensures Valid() && View() == old(View()) && fresh(Repr() - old(Repr()))
      ensures ok == SpreadOk(View(), pod, nodeName, tsc)
    {
      var target := nodes[nodeName];
      if tsc.topologyKey !in target.node.labels { return false; }
      var domain := target.node.labels[tsc.topologyKey];
      var without := DomainCounts(pod, tsc);
      var counts := Bumped(without, domain, 1); // the candidate placement
      assert domain in counts;
      assert View().bins[nodeName].node.labels[tsc.topologyKey] == domain;
      AfterNonNegative(without, View(), pod, tsc, domain);
      var minCount := Minimum(counts);
      VerdictFromCounts(without, View(), pod, nodeName, tsc, minCount);
      var skew := counts[domain] - minCount;
      ok := skew <= tsc.maxSkew;
    }

    /** The minimum loop, with -1 standing for "none yet". */
    static method Minimum(counts: map<string, int>) returns (minCount: int)
      requires counts != map[] && NonNegativeCounts(counts)
      ensures forall d | d in counts :: minCount <= counts[d]
      ensures exists d :: d in counts && counts[d] == minCount
    {
      minCount := -1;
      var todo := counts.Keys;
      while todo != {}
        invariant todo <= counts.Keys
        invariant minCount == -1 ==> todo == counts.Keys
        invariant minCount != -1 ==> exists d :: d in counts && counts[d] == minCount
        invariant minCount != -1 ==> forall d | d in counts && d !in todo :: minCount <= counts[d]
        decreases todo
      {
        var d :| d in todo;
        todo := todo - {d};
        if minCount == -1 || counts[d] < minCount { minCount := counts[d]; }
      }
      if minCount < 0 { minCount := 0; }
    }

    /** Whether pod may legally occupy the node; the checks run cheapest first. */
    method CanPlace(pod: Pod, nodeName: string) returns (ok: bool)
      requires Valid() && AdmittedPod(pod)
      modifies spread
      ensures Valid() && View() == old(View()) && fresh(Repr() - old(Repr()))
      ensures ok == Packings.CanPlace(View(), pod, nodeName)
    {
      if nodeName !in nodes { return false; }
      var ns := nodes[nodeName];
      if ns.node.unschedulable { return false; }
      if !ns.node.ready { return false; }
      if !FitsTaints(pod, ns.node) { return false; }
      if !FitsNodeSelector(pod, ns.node) { return false; }
      if !FitsNodeAffinity(pod, ns.node) { return false; }
      if !pod.requests.Add(ONE_POD).Fits(ns.free) { return false; }
      ok := FitsPodAntiAffinity(pod, nodeName);
      if !ok { return; }
      ok := FitsPodAffinity(pod, nodeName);
      if !ok { return; }
      ok := FitsTopologySpread(pod, nodeName);
    }
  }

  ghost predicate SameState(a: NodeState, b: NodeState)
    reads a, b
  {
    a.node == b.node && a.free == b.free && a.occupants == b.occupants
  }

  /** A placement of the snapshot's current state, with every node's capacity scaled by the ceiling. */
  method NewPlacementCeiling(snap: Snapshot, ceiling: real) returns (p: Placement)
    requires UniqueNodes(snap.nodes)
    ensures fresh(p) && fresh(p.Repr())
    ensures p.Valid() && p.View() == Packed(snap, ceiling)
  {
    p := BarePlacement(snap, ceiling);
    for i := 0 to |snap.pods|
      invariant fresh(p.Repr()) && p.Valid() && p.spread.entries == map[]
      invariant p.View() == Load(Bare(snap, ceiling), snap.pods[..i])
    {
      assert snap.pods[..i + 1][..i] == snap.pods[..i];
      var pod := snap.pods[i];
      if pod.nodeName == "" { continue; }
      p.Admit(pod);
    }
    assert snap.pods[..|snap.pods|] == snap.pods;
  }

  /** The nodes at their scaled capacity, nothing assigned and nothing memoised. */
  method BarePlacement(snap: Snapshot, ceiling: real) returns (p: Placement)
    requires UniqueNodes(snap.nodes)
    ensures fresh(p) && fresh(p.Repr())
    ensures p.Valid() && p.View() == Bare(snap, ceiling) && p.spread.entries == map[]
  {
    var nodes := BuildNodes(snap, ceiling);
    var index := new SpreadIndex();
    p := new Placement(nodes, NodeNames(snap.nodes), index);
    assert p.View() == Bare(snap, ceiling);
    BareValid(snap, ceiling);
  }

  method BuildNodes(snap: Snapshot, ceiling: real) returns (nodes: map<string, NodeState>)
    ensures fresh(nodes.Values) && Separate(nodes) && BinsOf(nodes) == BareBins(snap.nodes, ceiling)
  {
    nodes := map[];
    for i := 0 to |snap.nodes|
      invariant (forall n | n in nodes :: fresh(nodes[n])) && Separate(nodes)
      invariant BinsOf(nodes) == BareBins(snap.nodes[..i], ceiling)
    {
      assert snap.nodes[..i + 1][..i] == snap.nodes[..i];
      var n := snap.nodes[i];
      var s := new NodeState(n, Basis(n, ceiling), []);
      nodes := nodes[n.name := s];
    }
    assert snap.nodes[..|snap.nodes|] == snap.nodes;
  }
}
