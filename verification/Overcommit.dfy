/**
  What a node already above its packing ceiling still accepts (internal/constraints/placement.go).
  Free capacity is clamped at zero in each dimension, so such a node goes on admitting pods that ask
  for nothing in the dimensions it is over.
 */
module Overcommit {
  import opened Model
  import opened Sums
  import opened Packings
  import opened Planning
  import opened Runs
  import opened PlanSafety

  // ------------------------------------------------------------ resource vectors

  /** In some dimension the request asks for more than zero and does not fit beside what is used. */
  predicate Overruns(used: Resources, need: Resources, basis: Resources) {
    || (0 < need.milliCPU && basis.milliCPU < used.milliCPU + need.milliCPU)
    || (0 < need.memoryBytes && basis.memoryBytes < used.memoryBytes + need.memoryBytes)
    || (0 < need.pods && basis.pods < used.pods + need.pods)
  }

  /** What is left of the capacity, below zero where more is used than there is. */
  function Signed(basis: Resources, used: Resources): Resources {
    Resources(basis.milliCPU - used.milliCPU, basis.memoryBytes - used.memoryBytes, basis.pods - used.pods)
  }

  lemma {:induction false} ClampedRefusal(basis: Resources, used: Resources, free: Resources, need: Resources)
    requires basis.NonNegative() && need.NonNegative()
    requires free == basis.Sub(used) || (used == ZERO && free == basis)
    ensures !need.Fits(free) <==> Overruns(used, need, basis)
    ensures free == Signed(basis, used) <==> used.Fits(basis)
  {
  }

  /** Every pod is refused exactly when no slot is left: CPU and memory need not be asked for. */
  lemma {:induction false} SlotsDecide(basis: Resources, used: Resources)
    requires basis.NonNegative()
    ensures (forall p: Pod | p.requests.NonNegative() :: Overruns(used, p.Footprint(), basis))
       <==> basis.pods <= used.pods
  {
    if used.pods < basis.pods {
      var idle := Pod("a", "idle", "", map[], Running, ZERO, map[], [], [], None, [], true, None, false, false);
      assert idle.requests.NonNegative() && !Overruns(used, idle.Footprint(), basis);
    } else {
      forall p: Pod | p.requests.NonNegative() ensures Overruns(used, p.Footprint(), basis) {
        assert p.Footprint().pods == p.requests.pods + 1;
      }
    }
  }

  /** A request is refused by whatever node is above its capacity exactly when it asks for something in
      every dimension. */
  lemma {:induction false} RefusedByEveryFullNode(need: Resources)
    requires need.NonNegative()
    ensures (forall basis: Resources, used: Resources
               | basis.NonNegative() && used.NonNegative() && !used.Fits(basis) :: Overruns(used, need, basis))
       <==> 0 < need.milliCPU && 0 < need.memoryBytes && 0 < need.pods
  {
    var room := need.Add(Resources(1, 1, 1));
    if 0 == need.milliCPU {
      assert !Overruns(Resources(1, 0, 0), need, room.(milliCPU := 0));
    } else if 0 == need.memoryBytes {
      assert !Overruns(Resources(0, 1, 0), need, room.(memoryBytes := 0));
    } else if 0 == need.pods {
      assert !Overruns(Resources(0, 0, 1), need, room.(pods := 0));
    }
  }

  // ------------------------------------------------------------ at any point of a plan

  /** The assignment after the first i moves of the plan. */
  ghost function Midway(snap: Snapshot, analysis: Analysis, opts: Options, i: nat): Packing
    requires i <= |AllMoves(PlanFor(snap, analysis, opts).steps)|
  {
    Replay(Packed(snap, opts.packCeiling), AllMoves(PlanFor(snap, analysis, opts).steps)[..i])
  }

  /** None of the first i moves left the node, whose capacity is not negative. */
  ghost predicate Untouched(snap: Snapshot, analysis: Analysis, opts: Options, i: nat, n: string) {
    && i <= |AllMoves(PlanFor(snap, analysis, opts).steps)|
    && n in Midway(snap, analysis, opts, i).bins
    && n !in Sources(AllMoves(PlanFor(snap, analysis, opts).steps)[..i])
    && Midway(snap, analysis, opts, i).bins[n].node.allocatable.NonNegative()
  }

  /** The capacity planned against: CPU and memory scaled by a ceiling between 0 and 1 and rounded down, pod slots
      whole; any other ceiling means all that is allocatable. */
  lemma {:induction false} BasisIsScaled(node: Node, ceiling: real)
    requires node.allocatable.NonNegative()
    ensures var a, b := node.allocatable, Basis(node, ceiling);
      && b.pods == a.pods
      && if 0.0 < ceiling && ceiling < 1.0
         then b.milliCPU as real <= a.milliCPU as real * ceiling < b.milliCPU as real + 1.0
              && b.memoryBytes as real <= a.memoryBytes as real * ceiling < b.memoryBytes as real + 1.0
         else b == a
  {
    if 0.0 < ceiling < 1.0 {
      assert 0.0 <= node.allocatable.milliCPU as real * ceiling;
      assert 0.0 <= node.allocatable.memoryBytes as real * ceiling;
    }
  }

  lemma {:induction false} BasisNonNegative(node: Node, ceiling: real)
    requires node.allocatable.NonNegative()
    ensures Basis(node, ceiling).NonNegative()
  {
    if 0.0 < ceiling < 1.0 {
      assert 0.0 <= node.allocatable.milliCPU as real * ceiling;
      assert 0.0 <= node.allocatable.memoryBytes as real * ceiling;
    }
  }

  lemma {:induction false} UntouchedIsExact(snap: Snapshot, analysis: Analysis, opts: Options, i: nat, n: string)
    requires Admissible(snap) && Untouched(snap, analysis, opts, i, n)
    ensures FreeIsExact(Midway(snap, analysis, opts, i), n, opts.packCeiling)
    ensures Basis(Midway(snap, analysis, opts, i).bins[n].node, opts.packCeiling).NonNegative()
  {
    var v0, moves := Packed(snap, opts.packCeiling), AllMoves(PlanFor(snap, analysis, opts).steps);
    PackedSound(snap, opts.packCeiling);
    PlanIsLegal(snap, analysis, opts);
    LegalPrefix(v0, moves, i);
    LegalRunSound(v0, opts.packCeiling, moves[..i]);
    BasisNonNegative(Midway(snap, analysis, opts, i).bins[n].node, opts.packCeiling);
  }

  /** After any number of a plan's moves, a node none of them left refuses a pod for want of resources exactly
      when the pod overruns what the node's pods leave of its ceiling; and then it may not be placed. */
  lemma {:induction false} RefusedExactly(snap: Snapshot, analysis: Analysis, opts: Options, i: nat, n: string,
                                          pod: Pod)
    requires Admissible(snap) && Untouched(snap, analysis, opts, i, n) && pod.requests.NonNegative()
    ensures var v := Midway(snap, analysis, opts, i);
            var full := Overruns(UsedOn(v, n), pod.Footprint(), Basis(v.bins[n].node, opts.packCeiling));
      (!pod.Footprint().Fits(v.bins[n].free) <==> full) && (full ==> !CanPlace(v, pod, n))
  {
    var v := Midway(snap, analysis, opts, i);
    UntouchedIsExact(snap, analysis, opts, i, n);
    ClampedRefusal(Basis(v.bins[n].node, opts.packCeiling), UsedOn(v, n), v.bins[n].free, pod.Footprint());
  }

  /** Free capacity is the signed difference of capacity and use exactly when no dimension is used beyond
      its ceiling. */
  lemma {:induction false} SignedExactly(snap: Snapshot, analysis: Analysis, opts: Options, i: nat, n: string)
    requires Admissible(snap) && Untouched(snap, analysis, opts, i, n)
    ensures var v := Midway(snap, analysis, opts, i);
            var basis := Basis(v.bins[n].node, opts.packCeiling);
      v.bins[n].free == Signed(basis, UsedOn(v, n)) <==> UsedOn(v, n).Fits(basis)
  {
    var v := Midway(snap, analysis, opts, i);
    UntouchedIsExact(snap, analysis, opts, i, n);
    ClampedRefusal(Basis(v.bins[n].node, opts.packCeiling), UsedOn(v, n), v.bins[n].free, ZERO);
  }

  /** Such a node refuses every pod exactly when it has no pod slot left. */
  lemma {:induction false} AcceptsNothingExactly(snap: Snapshot, analysis: Analysis, opts: Options, i: nat, n: string)
    requires Admissible(snap) && Untouched(snap, analysis, opts, i, n)
    ensures var v := Midway(snap, analysis, opts, i);
      (forall p: Pod | p.requests.NonNegative() :: !p.Footprint().Fits(v.bins[n].free))
        <==> v.bins[n].node.allocatable.pods <= UsedOn(v, n).pods
  {
    var v := Midway(snap, analysis, opts, i);
    UntouchedIsExact(snap, analysis, opts, i, n);
    SlotsDecide(Basis(v.bins[n].node, opts.packCeiling), UsedOn(v, n));
    forall p: Pod | p.requests.NonNegative()
      ensures !p.Footprint().Fits(v.bins[n].free)
         <==> Overruns(UsedOn(v, n), p.Footprint(), Basis(v.bins[n].node, opts.packCeiling))
    {
      RefusedExactly(snap, analysis, opts, i, n, p);
    }
  }

  // ------------------------------------------------------------ a node above its ceiling

  /** An open node with 1000m, planned against up to half, whose only pod requests 600m. */
  ghost predicate HalfFull(node: Node, heavy: Pod, ceiling: real) {
    && node.name == heavy.nodeName != "" && node.ready && !node.unschedulable && node.taints == []
    && node.allocatable == Resources(1000, 1000, 10) && heavy.requests == Resources(600, 0, 0) && ceiling == 0.5
  }

  /** A pod that requests nothing and has no wishes about its node: any BestEffort pod without constraints. */
  predicate Unassuming(pod: Pod) {
    pod.requests == ZERO && pod.nodeSelector == map[] && pod.nodeAffinity == [] && pod.podAffinity.None?
    && pod.topologySpread == []
  }

  /** The assignment of a snapshot with one node and one pod on it. */
  lemma {:induction false} OneOnOne(node: Node, pod: Pod, ceiling: real)
    requires pod.nodeName == node.name != ""
    ensures Packed(Snapshot(0, [node], [pod], []), ceiling).bins
         == map[node.name := Bin(node, Basis(node, ceiling).Sub(pod.Footprint()), [pod])]
  {
    var v0 := Bare(Snapshot(0, [node], [pod], []), ceiling);
    assert [node][..0] == [] && [pod][..0] == [];
    assert BareBins([node], ceiling) == map[node.name := Bin(node, Basis(node, ceiling), [])];
    assert Load(v0, [pod]) == Place(Load(v0, [pod][..0]), pod, node.name);
    assert Load(v0, [pod][..0]) == v0;
    assert [] + [pod.(nodeName := node.name)] == [pod];
    assert Place(v0, pod, node.name).bins[node.name] == Bin(node, Basis(node, ceiling).Sub(pod.Footprint()), [pod]);
  }

  lemma {:induction false} HalfBasis(node: Node, heavy: Pod, ceiling: real)
    requires HalfFull(node, heavy, ceiling)
    ensures Basis(node, ceiling) == Resources(500, 500, 10)
    ensures Basis(node, ceiling).Sub(heavy.Footprint()) == Resources(0, 500, 9)
  {
    assert Truncate(1000.0 * ceiling) == 500;
  }

  lemma {:induction false} OpenNodeAdmits(v: Packing, n: string, pod: Pod)
    requires n in v.bins && Unassuming(pod) && pod.Footprint().Fits(v.bins[n].free)
    requires v.bins[n].node.ready && !v.bins[n].node.unschedulable && v.bins[n].node.taints == []
    ensures CanPlace(v, pod, n)
  {
  }

  /** The node is used beyond its ceiling, with no CPU free, and still admits a pod that requests nothing. */
  lemma {:induction false} FullNodeAccepts(node: Node, heavy: Pod, light: Pod, ceiling: real)
    requires HalfFull(node, heavy, ceiling) && Unassuming(light)
    ensures var v := Packed(Snapshot(0, [node], [heavy], []), ceiling);
      && node.name in v.bins && UsedOn(v, node.name).milliCPU == 600 && Basis(node, ceiling).milliCPU == 500
      && v.bins[node.name].free.milliCPU == 0 && CanPlace(v, light, node.name)
  {
    OneOnOne(node, heavy, ceiling);
    HalfBasis(node, heavy, ceiling);
    SumSingle(heavy, Cpu());
    OpenNodeAdmits(Packed(Snapshot(0, [node], [heavy], []), ceiling), node.name, light);
  }

  // ------------------------------------------------------------ how full a node is

  /** Where nothing is over its ceiling, what is free and what is used add up to what is planned against; a node's
      fullness is the share its tightest dimension has left, and its requested ratio the largest share of what is
      allocatable that is used or kept back. */
  lemma {:induction false} FullnessExactly(v: Packing, n: string, ceiling: real)
    requires Valid(v) && n in v.bins && FreeIsExact(v, n, ceiling)
    requires UsedOn(v, n).Fits(Basis(v.bins[n].node, ceiling))
    requires Basis(v.bins[n].node, ceiling).NonNegative()
    requires Basis(v.bins[n].node, ceiling).Fits(v.bins[n].node.allocatable) && UsedOn(v, n).NonNegative()
    ensures var basis, used, all := Basis(v.bins[n].node, ceiling), UsedOn(v, n), v.bins[n].node.allocatable;
      && FreeBasis(v, n) == basis
      && Fullness(v, n) == 1.0 - Signed(basis, used).DominantRatio(basis)
      && RequestedRatio(v, v.bins[n].node) == Signed(all, Signed(basis, used)).DominantRatio(all)
  {
  }
}
