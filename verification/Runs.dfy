/**
  Safety of a run of moves. A move is legal when the pod it names sits where the move says, is
  movable, and may join a destination that no earlier move has emptied. Whatever strategy chose
  the moves, a legal run conserves pods, respects capacity and keeps self-repelling groups apart.
 */
module Runs {
  import opened Model
  import opened Sums
  import opened Packings
  import opened Planning

  // --------------------------------------------------------------- who sits where

  /** Names identify a pod within a list of unique keys. */
  lemma {:induction false} FoundInList(occ: seq<Pod>, p: Pod)
    requires UniquePods(occ) && p in occ
    ensures 0 <= IndexOf(occ, p) && occ[IndexOf(occ, p)] == p
    ensures IndexOfKey(occ, p.namespace, p.name) == IndexOf(occ, p)
  {
    var k :| 0 <= k < |occ| && occ[k] == p;
    var i, j := IndexOfKey(occ, p.namespace, p.name), IndexOf(occ, p);
    assert occ[i].Key() == p.Key() && occ[j].Key() == p.Key();
  }

  lemma {:induction false} WithoutOne(occ: seq<Pod>, i: nat)
    requires UniquePods(occ) && i < |occ|
    ensures UniquePods(occ[..i] + occ[i + 1..])
    ensures forall q :: q in occ[..i] + occ[i + 1..] <==> q in occ && q != occ[i]
  {
    WithoutUnique(occ, i);
    WithoutMembers(occ, i);
  }

  lemma {:induction false} WithoutUnique(occ: seq<Pod>, i: nat)
    requires UniquePods(occ) && i < |occ|
    ensures UniquePods(occ[..i] + occ[i + 1..])
  {
    var left := occ[..i] + occ[i + 1..];
    assert forall x | 0 <= x < |left| :: left[x] == if x < i then occ[x] else occ[x + 1];
  }

  lemma {:induction false} WithoutMembers(occ: seq<Pod>, i: nat)
    requires UniquePods(occ) && i < |occ|
    ensures forall q :: q in occ[..i] + occ[i + 1..] <==> q in occ && q != occ[i]
  {
    var left := occ[..i] + occ[i + 1..];
    assert forall x | 0 <= x < |left| :: left[x] == if x < i then occ[x] else occ[x + 1];
    forall q ensures q in left <==> q in occ && q != occ[i] {
      if q in occ && q != occ[i] {
        var k :| 0 <= k < |occ| && occ[k] == q;
        assert left[if k < i then k else k - 1] == q;
      }
      if q in left {
        var x :| 0 <= x < |left| && left[x] == q;
        assert occ[if x < i then x else x + 1] == q;
      }
    }
  }

  /** With unique keys a pod is found again by its name, wherever it stands in the list. */
  lemma {:induction false} FoundByKey(v: Packing, p: Pod)
    requires UniqueKeys(v) && Sits(v, p)
    ensures FindPod(v, p.nodeName, p.namespace, p.name) == Some(p)
    ensures 0 <= IndexOf(v.bins[p.nodeName].occupants, p) && Leaving(v, p) == p
  {
    FoundInList(v.bins[p.nodeName].occupants, p);
  }

  lemma {:induction false} RemoveKeepsNodes(v: Packing, p: Pod)
    ensures Remove(v, p).order == v.order && Remove(v, p).bins.Keys == v.bins.Keys
    ensures forall n | n in v.bins :: Remove(v, p).bins[n].node == v.bins[n].node
    ensures forall n | n in v.bins && n != p.nodeName :: Remove(v, p).bins[n] == v.bins[n]
  {
  }

  lemma {:induction false} RemovedList(v: Packing, p: Pod)
    requires UniqueKeys(v) && Sits(v, p)
    ensures var i := IndexOf(v.bins[p.nodeName].occupants, p);
            0 <= i && Remove(v, p).bins[p.nodeName].occupants
                      == v.bins[p.nodeName].occupants[..i] + v.bins[p.nodeName].occupants[i + 1..]
    ensures UniquePods(Remove(v, p).bins[p.nodeName].occupants)
    ensures forall q :: q in Remove(v, p).bins[p.nodeName].occupants <==> q in v.bins[p.nodeName].occupants && q != p
  {
    FoundByKey(v, p);
    WithoutOne(v.bins[p.nodeName].occupants, IndexOf(v.bins[p.nodeName].occupants, p));
  }

  lemma {:induction false} RemovedMembers(v: Packing, p: Pod, q: Pod, n: string)
    requires Valid(v) && UniqueKeys(v) && Sits(v, p)
    ensures q in Occupants(Remove(v, p), n) <==> q in Occupants(v, n) && q != p
  {
    RemoveKeepsNodes(v, p);
    RemovedList(v, p);
  }

  /** After a relocation every node holds what it held, less the pod that left, plus the one that came. */
  lemma {:induction false} RelocatedMembers(v: Packing, p: Pod, t: string, q: Pod, n: string)
    requires Valid(v) && UniqueKeys(v) && Sits(v, p) && t in v.bins
    ensures q in Occupants(Relocated(v, p, t), n)
       <==> (q in Occupants(v, n) && q != p) || (n == t && q == p.(nodeName := t))
  {
    RemovedMembers(v, p, q, n);
    RemoveKeepsNodes(v, p);
    PlacedMembers(Remove(v, p), p, t, q, n);
  }

  lemma {:induction false} PlacedMembers(v: Packing, p: Pod, t: string, q: Pod, n: string)
    requires t in v.bins
    ensures q in Occupants(Place(v, p, t), n) <==> q in Occupants(v, n) || (n == t && q == p.(nodeName := t))
  {
  }

  // ------------------------------------------------------------------ unique keys

  lemma {:induction false} DistinctKeys(v: Packing, p: Pod, q: Pod)
    requires UniqueKeys(v) && Sits(v, p) && Sits(v, q) && p != q
    ensures p.Key() != q.Key()
  {
    if p.nodeName == q.nodeName {
      var occ := v.bins[p.nodeName].occupants;
      var i :| 0 <= i < |occ| && occ[i] == p;
      var j :| 0 <= j < |occ| && occ[j] == q;
      assert i < j || j < i;
    }
  }

  lemma {:induction false} RemoveUnique(v: Packing, p: Pod)
    requires Valid(v) && UniqueKeys(v) && Sits(v, p)
    ensures UniqueKeys(Remove(v, p))
    ensures forall q | Sits(Remove(v, p), q) :: Sits(v, q) && q.Key() != p.Key()
  {
    var w := Remove(v, p);
    RemoveKeepsNodes(v, p);
    RemovedList(v, p);
    forall q | Sits(w, q) ensures Sits(v, q) && q.Key() != p.Key() {
      RemovedMembers(v, p, q, q.nodeName);
      DistinctKeys(v, p, q);
    }
  }

  lemma {:induction false} PlaceUnique(v: Packing, p: Pod, t: string)
    requires Valid(v) && UniqueKeys(v) && t in v.bins && forall q | Sits(v, q) :: q.Key() != p.Key()
    ensures UniqueKeys(Place(v, p, t))
  {
    var w, arrived := Place(v, p, t), p.(nodeName := t);
    forall q | q in v.bins[t].occupants ensures q.Key() != arrived.Key() { assert Sits(v, q); }
    assert UniquePods(w.bins[t].occupants);
    forall q | Sits(w, q) ensures q == arrived || (Sits(v, q) && q.Key() != arrived.Key()) {
      PlacedMembers(v, p, t, q, q.nodeName);
    }
  }

  lemma {:induction false} RelocatedUnique(v: Packing, p: Pod, t: string)
    requires Valid(v) && UniqueKeys(v) && Sits(v, p) && t in v.bins
    ensures Valid(Relocated(v, p, t)) && UniqueKeys(Relocated(v, p, t))
  {
    RemoveValid(v, p);
    RemoveUnique(v, p);
    RemoveKeepsNodes(v, p);
    PlaceValid(Remove(v, p), p, t);
    PlaceUnique(Remove(v, p), p, t);
  }

  // -------------------------------------------------------------------- legal runs

  /** Judged against the assignment the move is applied to, and the nodes emptied so far. */
  ghost predicate LegalMove(v: Packing, gone: set<string>, m: Move) {
    exists p :: Sits(v, p) && LegalFor(v, gone, m, p)
  }

  ghost predicate LegalFor(v: Packing, gone: set<string>, m: Move, p: Pod) {
    && m == MoveOf(p, p.nodeName, m.toNode)
    && p.IsMovable()
    && m.toNode != m.fromNode && m.toNode !in gone
    && CanPlace(v, p, m.toNode)
  }

  function Sources(moves: seq<Move>): set<string> { set m | m in moves :: m.fromNode }

  /** Every move is legal where the moves before it lead. */
  ghost predicate LegalRun(v0: Packing, moves: seq<Move>) {
    moves != [] ==>
      var front := moves[..|moves| - 1];
      LegalRun(v0, front) && LegalMove(Replay(v0, front), Sources(front), moves[|moves| - 1])
  }

  lemma {:induction false} LegalPrefix(v0: Packing, moves: seq<Move>, i: nat)
    requires LegalRun(v0, moves) && i <= |moves|
    ensures LegalRun(v0, moves[..i])
  {
    if i < |moves| {
      LegalPrefix(v0, moves[..|moves| - 1], i);
      assert moves[..|moves| - 1][..i] == moves[..i];
    } else {
      assert moves[..i] == moves;
    }
  }

  lemma {:induction false} LastMove(v0: Packing, moves: seq<Move>)
    requires moves != []
    ensures var front, last := moves[..|moves| - 1], moves[|moves| - 1];
      Replay(v0, moves) == ApplyMove(Replay(v0, front), last) && Sources(moves) == Sources(front) + {last.fromNode}
  {
    SourcesConcat(moves[..|moves| - 1], [moves[|moves| - 1]]);
    assert moves == moves[..|moves| - 1] + [moves[|moves| - 1]];
  }

  lemma {:induction false} FrontOrLast(moves: seq<Move>)
    requires moves != []
    ensures forall m | m in moves :: m in moves[..|moves| - 1] || m == moves[|moves| - 1]
  {
    assert moves == moves[..|moves| - 1] + [moves[|moves| - 1]];
  }

  lemma {:induction false} SourcesConcat(a: seq<Move>, b: seq<Move>)
    ensures Sources(a + b) == Sources(a) + Sources(b)
  {
  }

  lemma {:induction false} ApplyLegal(v: Packing, gone: set<string>, m: Move) returns (p: Pod)
    requires Valid(v) && UniqueKeys(v) && LegalMove(v, gone, m)
    ensures Sits(v, p) && LegalFor(v, gone, m, p)
    ensures ApplyMove(v, m) == Relocated(v, p, m.toNode)
    ensures m.toNode in v.bins && m.fromNode in v.bins
  {
    p :| Sits(v, p) && LegalFor(v, gone, m, p);
    FoundByKey(v, p);
  }

  // ------------------------------------------------------------------ conservation

  ghost predicate SameNodes(v: Packing, w: Packing) {
    && v.order == w.order && v.bins.Keys == w.bins.Keys
    && forall n | n in v.bins :: v.bins[n].node == w.bins[n].node
  }

  /** The pod is assigned somewhere; only the node it names is left open. */
  ghost predicate Holds(v: Packing, p: Pod) { exists n :: Sits(v, p.(nodeName := n)) }

  /** The two assignments hold the same pods, unchanged but for the node; with unique keys, each exactly once. */
  ghost predicate SamePods(v: Packing, w: Packing) { forall p :: Holds(v, p) <==> Holds(w, p) }

  /** w is v with pod p taken from where it sat and put on node t. */
  ghost predicate Moved(v: Packing, w: Packing, p: Pod, t: string) {
    && SameNodes(v, w)
    && forall q :: Sits(w, q) <==> (Sits(v, q) && q != p) || q == p.(nodeName := t)
  }

  lemma {:induction false} RelocatedMoves(v: Packing, p: Pod, t: string)
    requires Valid(v) && UniqueKeys(v) && Sits(v, p) && t in v.bins
    ensures Moved(v, Relocated(v, p, t), p, t)
  {
    RemoveKeepsNodes(v, p);
    forall q ensures Sits(Relocated(v, p, t), q) <==> (Sits(v, q) && q != p) || q == p.(nodeName := t) {
      RelocatedMembers(v, p, t, q, q.nodeName);
    }
  }

  lemma {:induction false} MovedHolds(v: Packing, w: Packing, p: Pod, t: string, q: Pod)
    requires Sits(v, p) && Moved(v, w, p, t)
    ensures Holds(v, q) <==> Holds(w, q)
  {
    var arrived := p.(nodeName := t);
    if Holds(v, q) {
      var n :| Sits(v, q.(nodeName := n));
      if q.(nodeName := n) == p {
        assert q.(nodeName := t) == arrived;
        assert Sits(w, q.(nodeName := t));
      } else {
        assert Sits(w, q.(nodeName := n));
      }
    }
    if Holds(w, q) {
      var n :| Sits(w, q.(nodeName := n));
      if q.(nodeName := n) == arrived {
        assert q.(nodeName := p.nodeName) == p;
        assert Sits(v, q.(nodeName := p.nodeName));
      } else {
        assert Sits(v, q.(nodeName := n));
      }
    }
  }

  lemma {:induction false} MovedSamePods(v0: Packing, v: Packing, w: Packing, p: Pod, t: string)
    requires Sits(v, p) && Moved(v, w, p, t) && SamePods(v0, v)
    ensures SamePods(v0, w)
  {
    forall q ensures Holds(v0, q) <==> Holds(w, q) { MovedHolds(v, w, p, t, q); }
  }

  // ---------------------------------------------------------------------- capacity

  ghost predicate NonNegativePods(v: Packing) {
    forall p | Sits(v, p) :: p.requests.NonNegative()
  }

  ghost function UsedOn(v: Packing, n: string): Resources { Used(Occupants(v, n)) }

  /** What is free is what the pods leave of the capacity, clamped at zero. */
  ghost predicate FreeIsExact(v: Packing, n: string, ceiling: real)
    requires n in v.bins
  {
    var basis := Basis(v.bins[n].node, ceiling);
    v.bins[n].free == basis.Sub(UsedOn(v, n)) || (v.bins[n].occupants == [] && v.bins[n].free == basis)
  }

  /** No dimension of a exceeds the larger of b and c. */
  ghost predicate AtMost(a: Resources, b: Resources, c: Resources) {
    && a.milliCPU <= Max(b.milliCPU, c.milliCPU)
    && a.memoryBytes <= Max(b.memoryBytes, c.memoryBytes)
    && a.pods <= Max(b.pods, c.pods)
  }

  ghost predicate WithinCeiling(v0: Packing, v: Packing, ceiling: real) {
    forall n | n in v.bins :: AtMost(UsedOn(v, n), UsedOn(v0, n), Basis(v.bins[n].node, ceiling))
  }

  lemma {:induction false} UsedPlace(v: Packing, p: Pod, t: string)
    requires t in v.bins
    ensures UsedOn(Place(v, p, t), t) == UsedOn(v, t).Add(p.Footprint())
    ensures forall n | n != t :: UsedOn(Place(v, p, t), n) == UsedOn(v, n)
  {
    var occ, arrived := v.bins[t].occupants, p.(nodeName := t);
    SumConcat(occ, [arrived], Cpu());
    SumConcat(occ, [arrived], Mem());
    SumConcat(occ, [arrived], Slots());
    SumSingle(arrived, Cpu());
    SumSingle(arrived, Mem());
    SumSingle(arrived, Slots());
  }

  lemma {:induction false} UsedRemove(v: Packing, p: Pod)
    requires Valid(v) && UniqueKeys(v) && Sits(v, p)
    ensures UsedOn(v, p.nodeName) == UsedOn(Remove(v, p), p.nodeName).Add(p.Footprint())
    ensures forall n | n != p.nodeName :: UsedOn(Remove(v, p), n) == UsedOn(v, n)
  {
    RemoveKeepsNodes(v, p);
    RemovedList(v, p);
    FoundByKey(v, p);
    UsedWithout(v.bins[p.nodeName].occupants, IndexOf(v.bins[p.nodeName].occupants, p));
  }

  lemma {:induction false} UsedWithout(occ: seq<Pod>, i: nat)
    requires i < |occ|
    ensures Used(occ) == Used(occ[..i] + occ[i + 1..]).Add(occ[i].Footprint())
  {
    SumRemove(occ, i, Cpu());
    SumRemove(occ, i, Mem());
    SumRemove(occ, i, Slots());
  }

  /** Clamping twice is clamping once: what is free after one more pod is the capacity less all of them. */
  lemma {:induction false} FreeAfter(free: Resources, basis: Resources, used: Resources, need: Resources)
    requires need.NonNegative()
    requires free == basis.Sub(used) || (used == ZERO && free == basis)
    ensures free.Sub(need) == basis.Sub(used.Add(need))
  {
  }

  /** A pod that fits what is free stays within the capacity, whatever the clamp hid. */
  lemma {:induction false} FittingStaysWithin(free: Resources, basis: Resources, used: Resources, need: Resources)
    requires need.NonNegative() && need.Fits(free)
    requires free == basis.Sub(used) || (used == ZERO && free == basis)
    ensures AtMost(used.Add(need), used, basis)
  {
  }

  // ---------------------------------------------------------------- the invariant

  /** What holds between the assignment a run starts from and any assignment it passes through. */
  ghost predicate Sound(v0: Packing, v: Packing, ceiling: real, gone: set<string>) {
    && Valid(v) && UniqueKeys(v) && NonNegativePods(v)
    && SameNodes(v0, v) && SamePods(v0, v)
    && WithinCeiling(v0, v, ceiling)
    && forall n | n in v.bins && n !in gone :: FreeIsExact(v, n, ceiling)
  }

  lemma {:induction false} RelocatedFree(v: Packing, p: Pod, t: string, ceiling: real)
    requires Valid(v) && UniqueKeys(v) && Sits(v, p) && t in v.bins && t != p.nodeName
    requires p.requests.NonNegative() && FreeIsExact(v, t, ceiling) && p.Footprint().Fits(v.bins[t].free)
    ensures FreeIsExact(Relocated(v, p, t), t, ceiling)
    ensures AtMost(UsedOn(Relocated(v, p, t), t), UsedOn(v, t), Basis(v.bins[t].node, ceiling))
  {
    RemoveKeepsNodes(v, p);
    UsedPlace(Remove(v, p), p, t);
    FreeAfter(v.bins[t].free, Basis(v.bins[t].node, ceiling), UsedOn(v, t), p.Footprint());
    FittingStaysWithin(v.bins[t].free, Basis(v.bins[t].node, ceiling), UsedOn(v, t), p.Footprint());
  }

  lemma {:induction false} RelocatedWithin(v0: Packing, v: Packing, p: Pod, t: string, ceiling: real, n: string)
    requires Valid(v) && UniqueKeys(v) && Sits(v, p) && t in v.bins && t != p.nodeName
    requires p.requests.NonNegative() && FreeIsExact(v, t, ceiling) && p.Footprint().Fits(v.bins[t].free)
    requires n in v.bins && AtMost(UsedOn(v, n), UsedOn(v0, n), Basis(v.bins[n].node, ceiling))
    ensures AtMost(UsedOn(Relocated(v, p, t), n), UsedOn(v0, n), Basis(v.bins[n].node, ceiling))
  {
    RemoveKeepsNodes(v, p);
    UsedPlace(Remove(v, p), p, t);
    UsedRemove(v, p);
    if n == t { RelocatedFree(v, p, t, ceiling); }
  }

  lemma {:induction false} RelocatedKeepsFree(v: Packing, p: Pod, t: string, ceiling: real, n: string)
    requires n in v.bins && n != t && n != p.nodeName && FreeIsExact(v, n, ceiling)
    ensures n in Relocated(v, p, t).bins && FreeIsExact(Relocated(v, p, t), n, ceiling)
    ensures Relocated(v, p, t).bins[n] == v.bins[n]
  {
    RemoveKeepsNodes(v, p);
  }

  /** One move keeps every node within the larger of its starting use and its ceiling. */
  lemma {:induction false} CapacityStep(v0: Packing, v: Packing, ceiling: real, gone: set<string>, p: Pod, t: string)
    requires Valid(v) && UniqueKeys(v) && Sits(v, p) && p.requests.NonNegative()
    requires t in v.bins && t != p.nodeName && t !in gone && p.Footprint().Fits(v.bins[t].free)
    requires WithinCeiling(v0, v, ceiling)
    requires forall n | n in v.bins && n !in gone :: FreeIsExact(v, n, ceiling)
    ensures WithinCeiling(v0, Relocated(v, p, t), ceiling)
    ensures forall n | n in Relocated(v, p, t).bins && n !in gone + {p.nodeName} ::
              FreeIsExact(Relocated(v, p, t), n, ceiling)
  {
    var w := Relocated(v, p, t);
    RemoveKeepsNodes(v, p);
    forall n | n in w.bins ensures AtMost(UsedOn(w, n), UsedOn(v0, n), Basis(w.bins[n].node, ceiling)) {
      RelocatedWithin(v0, v, p, t, ceiling, n);
    }
    forall n | n in w.bins && n !in gone + {p.nodeName} ensures FreeIsExact(w, n, ceiling) {
      if n == t { RelocatedFree(v, p, t, ceiling); } else { RelocatedKeepsFree(v, p, t, ceiling, n); }
    }
  }

  lemma {:induction false} SoundStep(v0: Packing, v: Packing, ceiling: real, gone: set<string>, m: Move)
    requires Sound(v0, v, ceiling, gone) && LegalMove(v, gone, m)
    ensures Sound(v0, ApplyMove(v, m), ceiling, gone + {m.fromNode})
  {
    var p := ApplyLegal(v, gone, m);
    assert Sits(v, p);
    SoundRelocation(v0, v, ceiling, gone, p, m.toNode);
  }

  lemma {:induction false} SoundRelocation(v0: Packing, v: Packing, ceiling: real, gone: set<string>, p: Pod, t: string)
    requires Sound(v0, v, ceiling, gone) && Sits(v, p)
    requires t in v.bins && t != p.nodeName && t !in gone && p.Footprint().Fits(v.bins[t].free)
    ensures Sound(v0, Relocated(v, p, t), ceiling, gone + {p.nodeName})
  {
    RelocatedUnique(v, p, t);
    RelocatedMoves(v, p, t);
    CapacityStep(v0, v, ceiling, gone, p, t);
    SoundAssembled(v0, v, Relocated(v, p, t), ceiling, gone, p, t);
  }

  lemma {:induction false} SoundAssembled(v0: Packing, v: Packing, w: Packing, ceiling: real, gone: set<string>,
                                          p: Pod, t: string)
    requires Sound(v0, v, ceiling, gone) && Sits(v, p) && Moved(v, w, p, t)
    requires Valid(w) && UniqueKeys(w) && WithinCeiling(v0, w, ceiling)
    requires forall n | n in w.bins && n !in gone + {p.nodeName} :: FreeIsExact(w, n, ceiling)
    ensures Sound(v0, w, ceiling, gone + {p.nodeName})
  {
    MovedSamePods(v0, v, w, p, t);
    forall q | Sits(w, q) ensures q.requests.NonNegative() {
      if q == p.(nodeName := t) { assert Sits(v, p); } else { assert Sits(v, q); }
    }
  }

  /** A legal run ends in a sound assignment, and so does each prefix of it. */
  lemma {:induction false} LegalRunSound(v0: Packing, ceiling: real, moves: seq<Move>)
    requires Sound(v0, v0, ceiling, {}) && LegalRun(v0, moves)
    ensures Sound(v0, Replay(v0, moves), ceiling, Sources(moves))
  {
    if moves == [] {
      assert Sources(moves) == {};
    } else {
      var front := moves[..|moves| - 1];
      LegalRunSound(v0, ceiling, front);
      SoundStep(v0, Replay(v0, front), ceiling, Sources(front), moves[|moves| - 1]);
      LastMove(v0, moves);
    }
  }

  /** Applying the move takes this pod of the assignment where the move says. */
  ghost predicate Relocates(v: Packing, m: Move, q: Pod) {
    && Sits(v, q) && q.IsMovable() && m == MoveOf(q, q.nodeName, m.toNode)
    && m.toNode in v.bins && ApplyMove(v, m) == Relocated(v, q, m.toNode)
  }

  /** The last move of a legal run, with the pod it takes. */
  lemma {:induction false} LastRelocates(v0: Packing, ceiling: real, moves: seq<Move>) returns (q: Pod)
    requires Sound(v0, v0, ceiling, {}) && LegalRun(v0, moves) && moves != []
    ensures var v := Replay(v0, moves[..|moves| - 1]);
      Valid(v) && UniqueKeys(v) && SameNodes(v0, v) && Relocates(v, moves[|moves| - 1], q)
    ensures moves[|moves| - 1].fromNode in v0.bins
  {
    var front := moves[..|moves| - 1];
    LegalRunSound(v0, ceiling, front);
    q := ApplyLegal(Replay(v0, front), Sources(front), moves[|moves| - 1]);
  }

  // --------------------------------------------------------- self-repelling groups

  /** Two nodes share a domain of the key: the same host, or the same label value. */
  ghost predicate Shares(v: Packing, m: string, n: string, key: string)
    requires m in v.bins && n in v.bins
  {
    if key == LABEL_HOSTNAME then m == n
    else key in v.bins[m].node.labels && key in v.bins[n].node.labels
         && v.bins[m].node.labels[key] == v.bins[n].node.labels[key]
  }

  /** The pod repels every pod its namespace's selector picks, over the key. */
  ghost predicate Repels(p: Pod, ns: string, sel: Option<LabelSelector>, key: string) {
    p.podAffinity.Some? && exists t | t in p.podAffinity.value.requiredAntiAffinity ::
      t.topologyKey == key && t.labelSelector == sel && (t.namespaces == [] || ns in t.namespaces)
  }

  ghost predicate SelfRepelling(v: Packing, ns: string, sel: Option<LabelSelector>, key: string) {
    forall p | Sits(v, p) && Counts(p, ns, sel) :: Repels(p, ns, sel, key)
  }

  /** No two pods of the group share a domain. */
  ghost predicate Apart(v: Packing, ns: string, sel: Option<LabelSelector>, key: string) {
    forall a, b | Sits(v, a) && Sits(v, b) && a != b && Counts(a, ns, sel) && Counts(b, ns, sel) ::
      !(a.nodeName in v.bins && b.nodeName in v.bins && Shares(v, a.nodeName, b.nodeName, key))
  }

  /** Joining node t means no other group member shares a domain with t. */
  lemma {:induction false} AdmissionRepels(v: Packing, p: Pod, t: string, ns: string, sel: Option<LabelSelector>,
                                           key: string, b: Pod)
    requires Valid(v) && UniqueKeys(v) && Sits(v, p) && Sits(v, b) && b != p
    requires CanPlace(v, p, t) && Counts(p, ns, sel) && Counts(b, ns, sel) && Repels(p, ns, sel, key)
    ensures b.nodeName in v.bins && !Shares(v, t, b.nodeName, key)
  {
    var term :| term in p.podAffinity.value.requiredAntiAffinity
      && term.topologyKey == key && term.labelSelector == sel && (term.namespaces == [] || ns in term.namespaces);
    DistinctKeys(v, p, b);
    assert !SameKey(p, b);
    assert TermMatches(term, b, p.namespace);
    assert HasMatch(v.bins[b.nodeName].occupants, p, term);
    assert !DomainHasMatch(v, p, t, term);
    assert !InDomain(v, t, b.nodeName, key);
  }

  lemma {:induction false} RepellingMoved(v: Packing, w: Packing, p: Pod, t: string, ns: string,
                                          sel: Option<LabelSelector>, key: string)
    requires Sits(v, p) && Moved(v, w, p, t) && SelfRepelling(v, ns, sel, key)
    ensures SelfRepelling(w, ns, sel, key)
  {
    var arrived := p.(nodeName := t);
    forall a | Sits(w, a) && Counts(a, ns, sel) ensures Repels(a, ns, sel, key) {
      assert a == arrived || Sits(v, a);
      assert Repels(p, ns, sel, key) == Repels(arrived, ns, sel, key);
    }
  }

  lemma {:induction false} ApartMoved(v: Packing, w: Packing, p: Pod, t: string, ns: string,
                                      sel: Option<LabelSelector>, key: string)
    requires Valid(v) && UniqueKeys(v) && Sits(v, p) && CanPlace(v, p, t) && Moved(v, w, p, t)
    requires SelfRepelling(v, ns, sel, key) && Apart(v, ns, sel, key)
    ensures Apart(w, ns, sel, key)
  {
    forall a, b | Sits(w, a) && Sits(w, b) && a != b && Counts(a, ns, sel) && Counts(b, ns, sel)
      ensures !(a.nodeName in w.bins && b.nodeName in w.bins && Shares(w, a.nodeName, b.nodeName, key))
    {
      PairMoved(v, w, p, t, ns, sel, key, a, b);
    }
  }

  lemma {:induction false} PairMoved(v: Packing, w: Packing, p: Pod, t: string, ns: string, sel: Option<LabelSelector>,
                                     key: string, a: Pod, b: Pod)
    requires Valid(v) && UniqueKeys(v) && Sits(v, p) && CanPlace(v, p, t) && Moved(v, w, p, t)
    requires SelfRepelling(v, ns, sel, key) && Apart(v, ns, sel, key)
    requires Sits(w, a) && Sits(w, b) && a != b && Counts(a, ns, sel) && Counts(b, ns, sel)
    ensures !(a.nodeName in w.bins && b.nodeName in w.bins && Shares(w, a.nodeName, b.nodeName, key))
  {
    var arrived := p.(nodeName := t);
    if a == arrived {
      AdmissionRepels(v, p, t, ns, sel, key, b);
    } else if b == arrived {
      AdmissionRepels(v, p, t, ns, sel, key, a);
    } else {
      assert Sits(v, a) && Sits(v, b);
    }
  }

  /** The group repels itself and is apart. */
  ghost predicate GroupApart(v: Packing, ns: string, sel: Option<LabelSelector>, key: string) {
    SelfRepelling(v, ns, sel, key) && Apart(v, ns, sel, key)
  }

  /** The last move of a legal run, with the pod that was admitted. */
  lemma {:induction false} LastAdmits(v0: Packing, moves: seq<Move>) returns (p: Pod)
    requires LegalRun(v0, moves) && moves != []
    requires Valid(Replay(v0, moves[..|moves| - 1])) && UniqueKeys(Replay(v0, moves[..|moves| - 1]))
    ensures var v, w, t := Replay(v0, moves[..|moves| - 1]), Replay(v0, moves), moves[|moves| - 1].toNode;
      && Sits(v, p) && CanPlace(v, p, t) && t in v.bins
      && w == Relocated(v, p, t) && Valid(w) && UniqueKeys(w)
  {
    var front, m := moves[..|moves| - 1], moves[|moves| - 1];
    p := ApplyLegal(Replay(v0, front), Sources(front), m);
    RelocatedUnique(Replay(v0, front), p, m.toNode);
    LastMove(v0, moves);
  }

  lemma {:induction false} GroupMoved(v: Packing, p: Pod, t: string, ns: string, sel: Option<LabelSelector>,
                                      key: string)
    requires Valid(v) && UniqueKeys(v) && Sits(v, p) && CanPlace(v, p, t) && t in v.bins && GroupApart(v, ns, sel, key)
    ensures GroupApart(Relocated(v, p, t), ns, sel, key)
  {
    RelocatedMoves(v, p, t);
    RepellingMoved(v, Relocated(v, p, t), p, t, ns, sel, key);
    ApartMoved(v, Relocated(v, p, t), p, t, ns, sel, key);
  }

  /** Self-repelling groups are still apart after any legal run, for hosts and wider domains alike. */
  lemma {:induction false} GroupsStayApart(v0: Packing, moves: seq<Move>, ns: string, sel: Option<LabelSelector>,
                                           key: string)
    requires Valid(v0) && UniqueKeys(v0) && LegalRun(v0, moves) && GroupApart(v0, ns, sel, key)
    ensures Valid(Replay(v0, moves)) && UniqueKeys(Replay(v0, moves)) && GroupApart(Replay(v0, moves), ns, sel, key)
  {
    if moves != [] {
      var front := moves[..|moves| - 1];
      GroupsStayApart(v0, front, ns, sel, key);
      var p := LastAdmits(v0, moves);
      GroupMoved(Replay(v0, front), p, moves[|moves| - 1].toNode, ns, sel, key);
    }
  }
}
