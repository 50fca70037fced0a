/**
  The capacity ceiling (hack/capture/headroom.py) and the proof that the planner never beats it:
  a second, independent computation of how many nodes could come out, which ignores every
  constraint but CPU room.
 */
module Headroom {
  import opened Model
  import opened Sums
  import opened Sorting
  import opened Packings
  import opened Planning
  import opened Runs
  import opened PlanSafety
  import opened Cordons

  // --------------------------------------------------------------- the script's figures

  ghost function Id(): int -> int { (x: int) => x }

  /** What the script reads: a cluster, and for each pod the CPU its app containers ask for. */
  datatype Capture = Capture(snap: Snapshot, app: Pod -> int)

  predicate OnNodes(p: Pod, names: seq<string>) { p.nodeName != "" && p.nodeName in names && !p.Finished() }

  ghost function PinnedOn(app: Pod -> int, names: seq<string>, n: string): Pod -> int {
    (p: Pod) => if OnNodes(p, names) && p.nodeName == n && p.PinnedToNode() then app(p) else 0
  }

  ghost function MovableIn(app: Pod -> int, names: seq<string>): Pod -> int {
    (p: Pod) => if OnNodes(p, names) && !p.PinnedToNode() then app(p) else 0
  }

  /** CPU that can never leave node n. */
  ghost function PinnedCpu(cap: Capture, n: string): int {
    Sum(cap.snap.pods, PinnedOn(cap.app, NodeNames(cap.snap.nodes), n))
  }

  /** CPU that would have to find room somewhere. */
  ghost function MovableCpu(cap: Capture): int { Sum(cap.snap.pods, MovableIn(cap.app, NodeNames(cap.snap.nodes))) }

  /** What one more pod adds to the script's figures: its CPU, once, if it is unfinished and on a node read. */
  lemma {:induction false} EachPodCounts(cap: Capture, p: Pod, n: string)
    ensures var more := cap.(snap := cap.snap.(pods := cap.snap.pods + [p]));
      var counts := p.phase != Succeeded && p.phase != Failed && |p.nodeName| > 0
                    && exists m | m in cap.snap.nodes :: m.name == p.nodeName;
      var pinned := p.owner.Some? && (p.owner.value.kind == "DaemonSet" || p.owner.value.kind == "Node");
      && MovableCpu(more) == MovableCpu(cap) + (if counts && !pinned then cap.app(p) else 0)
      && PinnedCpu(more, n) == PinnedCpu(cap, n) + if counts && pinned && p.nodeName == n then cap.app(p) else 0
  {
    var names := NodeNames(cap.snap.nodes);
    NamesOf(cap.snap.nodes);
    SumConcat(cap.snap.pods, [p], MovableIn(cap.app, names));
    SumConcat(cap.snap.pods, [p], PinnedOn(cap.app, names, n));
    SumSingle(p, MovableIn(cap.app, names));
    SumSingle(p, PinnedOn(cap.app, names, n));
    assert p.nodeName in names <==> exists m | m in cap.snap.nodes :: m.name == p.nodeName;
    var more := cap.(snap := cap.snap.(pods := cap.snap.pods + [p]));
    assert MovableCpu(more) == MovableCpu(cap) + MovableIn(cap.app, names)(p);
    assert PinnedCpu(more, n) == PinnedCpu(cap, n) + PinnedOn(cap.app, names, n)(p);
    assert p.PinnedToNode() <==> p.owner.Some? && (p.owner.value.kind == "DaemonSet" || p.owner.value.kind == "Node");
    assert OnNodes(p, names) <==> p.phase != Succeeded && p.phase != Failed && |p.nodeName| > 0 && p.nodeName in names;
  }

  /** Allocatable minus what can never leave, times the ceiling. */
  function RoomFor(alloc: int, pinned: int, ceiling: real): int { Truncate((alloc - pinned) as real * ceiling) }

  /** What is left of a node's CPU, scaled, and rounded towards zero. */
  lemma {:induction false} RoomIsRounded(alloc: int, pinned: int, ceiling: real)
    ensures var left := (alloc - pinned) as real * ceiling;
            var room := RoomFor(alloc, pinned, ceiling) as real;
      if left >= 0.0 then room <= left < room + 1.0 else room - 1.0 < left <= room
  {
  }

  ghost function Room(cap: Capture, ceiling: real, node: Node): int {
    RoomFor(node.allocatable.milliCPU, PinnedCpu(cap, node.name), ceiling)
  }

  /** One room per schedulable node. */
  ghost function Rooms(cap: Capture, ceiling: real, nodes: seq<Node>): seq<int> {
    if nodes == [] then [] else
      var rest := Rooms(cap, ceiling, nodes[..|nodes| - 1]);
      if nodes[|nodes| - 1].unschedulable then rest else rest + [Room(cap, ceiling, nodes[|nodes| - 1])]
  }

  /** A choice of some of the rooms that holds the total. */
  ghost predicate Covers(rooms: seq<int>, chosen: seq<int>, total: int) {
    multiset(chosen) <= multiset(rooms) && Sum(chosen, Id()) >= total
  }

  // ----------------------------------------------------------------------- the script

  predicate Descends(a: int, b: int) { a > b }

  /** The greedy count over rooms sorted downwards: how many are needed to hold the total. */
  method NeedOf(rooms: seq<int>, total: int) returns (need: nat, acc: int)
    ensures need <= |rooms| && acc == Sum(rooms[..need], Id())
    ensures forall k | 0 <= k < need :: Sum(rooms[..k], Id()) < total
    ensures acc < total ==> need == |rooms|
  {
    need, acc := 0, 0;
    while need < |rooms|
      invariant 0 <= need <= |rooms| && acc == Sum(rooms[..need], Id())
      invariant forall k | 0 <= k < need :: Sum(rooms[..k], Id()) < total
    {
      if acc >= total { break; }
      assert rooms[..need + 1][..need] == rooms[..need];
      acc := acc + rooms[need];
      need := need + 1;
    }
  }

  method PodTotals(cap: Capture) returns (pinnedByNode: map<string, int>, movableTotal: int)
    ensures movableTotal == MovableCpu(cap)
    ensures forall n :: (if n in pinnedByNode then pinnedByNode[n] else 0) == PinnedCpu(cap, n)
  {
    var snap, names := cap.snap, NodeNames(cap.snap.nodes);
    pinnedByNode, movableTotal := map[], 0;
    for i := 0 to |snap.pods|
      invariant movableTotal == Sum(snap.pods[..i], MovableIn(cap.app, names))
      invariant forall n ::
          (if n in pinnedByNode then pinnedByNode[n] else 0) == Sum(snap.pods[..i], PinnedOn(cap.app, names, n))
    {
      assert snap.pods[..i + 1][..i] == snap.pods[..i];
      var p := snap.pods[i];
      if p.nodeName == "" || p.nodeName !in names { continue; }
      if p.Finished() { continue; }
      if p.PinnedToNode() {
        pinnedByNode := Bumped(pinnedByNode, p.nodeName, cap.app(p));
      } else {
        movableTotal := movableTotal + cap.app(p);
      }
    }
    assert snap.pods[..|snap.pods|] == snap.pods;
  }

  method LiveRooms(cap: Capture, ceiling: real, pinnedByNode: map<string, int>) returns (rooms: seq<int>)
    requires forall n :: (if n in pinnedByNode then pinnedByNode[n] else 0) == PinnedCpu(cap, n)
    ensures rooms == Rooms(cap, ceiling, cap.snap.nodes)
  {
    rooms := [];
    for i := 0 to |cap.snap.nodes|
      invariant rooms == Rooms(cap, ceiling, cap.snap.nodes[..i])
    {
      assert cap.snap.nodes[..i + 1][..i] == cap.snap.nodes[..i];
      var n := cap.snap.nodes[i];
      if n.unschedulable {
        RoomsStep(cap, ceiling, cap.snap.nodes, i);
        continue;
      }
      var pinned := if n.name in pinnedByNode then pinnedByNode[n.name] else 0;
      RoomsStep(cap, ceiling, cap.snap.nodes, i);
      rooms := rooms + [RoomFor(n.allocatable.milliCPU, pinned, ceiling)];
    }
    assert cap.snap.nodes[..|cap.snap.nodes|] == cap.snap.nodes;
  }

  lemma {:induction false} RoomsStep(cap: Capture, ceiling: real, nodes: seq<Node>, i: nat)
    requires i < |nodes|
    ensures Rooms(cap, ceiling, nodes[..i + 1])
         == Rooms(cap, ceiling, nodes[..i]) + if nodes[i].unschedulable then [] else [Room(cap, ceiling, nodes[i])]
  {
    assert nodes[..i + 1][..i] == nodes[..i];
  }

  /** What the verdict means: the live nodes less the fewest whose rooms hold all movable CPU; zero if none do. */
  ghost predicate IsDrainable(rooms: seq<int>, total: int, drainable: int) {
    && (forall chosen | Covers(rooms, chosen, total) ::
          |rooms| - drainable <= |chosen| && exists best :: Covers(rooms, best, total) && |best| == |rooms| - drainable)
    && ((forall chosen :: !Covers(rooms, chosen, total)) ==> drainable == 0)
  }

  /** The script: None when no node is schedulable. */
  method Drainable(cap: Capture, ceiling: real) returns (drainable: Option<int>)
    ensures drainable.None? <==> Rooms(cap, ceiling, cap.snap.nodes) == []
    ensures drainable.Some? ==> IsDrainable(Rooms(cap, ceiling, cap.snap.nodes), MovableCpu(cap), drainable.value)
  {
    var pinnedByNode, movableTotal := PodTotals(cap);
    var rooms := LiveRooms(cap, ceiling, pinnedByNode);
    if rooms == [] { return None; }
    ghost var unsorted := rooms;
    rooms := StableSort(rooms, Descends);
    SortPermutes(unsorted, Descends);
    SortedDown(unsorted);
    var need, acc := NeedOf(rooms, movableTotal);
    drainable := Some(if acc >= movableTotal then |rooms| - need else 0);
    NeedIsLeast(unsorted, rooms, movableTotal, need, acc);
  }

  // --------------------------------------------------------- need is the least cover

  ghost predicate Downwards(rooms: seq<int>) { forall i, j | 0 <= i < j < |rooms| :: rooms[i] >= rooms[j] }

  lemma {:induction false} SortedDown(rooms: seq<int>)
    ensures Downwards(StableSort(rooms, Descends))
  {
    var d := set x | x in rooms;
    SortSorts(rooms, Descends, d);
    var s := StableSort(rooms, Descends);
    forall i, j | 0 <= i < j < |s| ensures s[i] >= s[j] { assert !Descends(s[j], s[i]); }
  }

  lemma {:induction false} SumHead(s: seq<int>)
    requires s != []
    ensures Sum(s, Id()) == s[0] + Sum(s[1..], Id())
  {
    SumConcat([s[0]], s[1..], Id());
    assert [s[0]] + s[1..] == s && [s[0]][..0] == [];
  }

  lemma {:induction false} TailHolds(rooms: seq<int>, chosen: seq<int>, i: nat)
    requires rooms != [] && i < |chosen| && multiset(chosen) <= multiset(rooms)
    requires chosen[i] == rooms[0] || rooms[0] !in chosen
    ensures multiset(chosen[..i] + chosen[i + 1..]) <= multiset(rooms[1..])
  {
    RemoveAt(chosen, i);
    assert rooms == [rooms[0]] + rooms[1..];
    LessOne(multiset(chosen), multiset(rooms), chosen[i], rooms[0]);
  }

  lemma {:induction false} LessOne(chosen: multiset<int>, rooms: multiset<int>, taken: int, largest: int)
    requires chosen <= rooms && taken in chosen && (taken == largest || largest !in chosen)
    ensures chosen - multiset{taken} <= rooms - multiset{largest}
  {
  }

  lemma {:induction false} NoMoreThan(rooms: seq<int>, chosen: seq<int>)
    requires multiset(chosen) <= multiset(rooms)
    ensures |chosen| <= |rooms|
  {
    assert multiset(rooms) == multiset(chosen) + (multiset(rooms) - multiset(chosen));
    assert |multiset(rooms)| == |multiset(chosen)| + |multiset(rooms) - multiset(chosen)|;
  }

  /** The place of the largest room among the chosen, or the front when it was not chosen. */
  ghost function Largest(rooms: seq<int>, chosen: seq<int>): (i: nat)
    requires rooms != [] && chosen != []
    ensures i < |chosen| && (chosen[i] == rooms[0] || rooms[0] !in chosen)
  {
    if rooms[0] in chosen then
      var i :| 0 <= i < |chosen| && chosen[i] == rooms[0]; i
    else 0
  }

  lemma {:induction false} AtMostLargest(rooms: seq<int>, chosen: seq<int>, i: nat)
    requires Downwards(rooms) && multiset(chosen) <= multiset(rooms) && i < |chosen|
    ensures rooms != [] && chosen[i] <= rooms[0]
  {
    assert chosen[i] in multiset(rooms);
    var j :| 0 <= j < |rooms| && rooms[j] == chosen[i];
  }

  lemma {:induction false} SumFirst(rooms: seq<int>, k: nat)
    requires k < |rooms|
    ensures Sum(rooms[..k + 1], Id()) == rooms[0] + Sum(rooms[1..][..k], Id())
  {
    SumHead(rooms[..k + 1]);
    assert rooms[..k + 1][1..] == rooms[1..][..k];
  }

  /** No choice of k rooms holds more than the k largest. */
  lemma {:induction false} LargestHoldMost(rooms: seq<int>, chosen: seq<int>)
    requires Downwards(rooms) && multiset(chosen) <= multiset(rooms)
    ensures |chosen| <= |rooms| && Sum(chosen, Id()) <= Sum(rooms[..|chosen|], Id())
    decreases |rooms|
  {
    NoMoreThan(rooms, chosen);
    if chosen != [] {
      var i := Largest(rooms, chosen);
      AtMostLargest(rooms, chosen, i);
      TailHolds(rooms, chosen, i);
      LargestHoldMost(rooms[1..], chosen[..i] + chosen[i + 1..]);
      SumRemove(chosen, i, Id());
      SumFirst(rooms, |chosen| - 1);
    }
  }

  lemma {:induction false} FirstNeedCover(unsorted: seq<int>, rooms: seq<int>, total: int, need: nat)
    requires multiset(unsorted) == multiset(rooms) && need <= |rooms| && Sum(rooms[..need], Id()) >= total
    ensures Covers(unsorted, rooms[..need], total)
  {
    assert rooms == rooms[..need] + rooms[need..];
  }

  lemma {:induction false} CoverNeedsNeed(unsorted: seq<int>, rooms: seq<int>, total: int, need: nat, acc: int,
                                          chosen: seq<int>)
    requires multiset(unsorted) == multiset(rooms) && Downwards(rooms)
    requires need <= |rooms| && acc == Sum(rooms[..need], Id())
    requires forall k | 0 <= k < need :: Sum(rooms[..k], Id()) < total
    requires acc < total ==> need == |rooms|
    requires Covers(unsorted, chosen, total)
    ensures acc >= total && need <= |chosen|
  {
    LargestHoldMost(rooms, chosen);
    assert Sum(rooms[..|chosen|], Id()) >= total;
  }

  lemma {:induction false} NeedIsLeast(unsorted: seq<int>, rooms: seq<int>, total: int, need: nat, acc: int)
    requires multiset(unsorted) == multiset(rooms) && Downwards(rooms)
    requires need <= |rooms| && acc == Sum(rooms[..need], Id())
    requires forall k | 0 <= k < need :: Sum(rooms[..k], Id()) < total
    requires acc < total ==> need == |rooms|
    ensures IsDrainable(unsorted, total, if acc >= total then |rooms| - need else 0)
  {
    assert |multiset(unsorted)| == |multiset(rooms)|;
    if acc >= total { FirstNeedCover(unsorted, rooms, total, need); }
    forall chosen | Covers(unsorted, chosen, total)
      ensures acc >= total && need <= |chosen| && exists best :: Covers(unsorted, best, total) && |best| == need
    {
      CoverNeedsNeed(unsorted, rooms, total, need, acc, chosen);
      assert |rooms[..need]| == need;
    }
  }

  // ------------------------------------------------ what moves and what never does

  ghost function MovingCpu(): Pod -> int { (p: Pod) => if p.IsMovable() then p.Footprint().milliCPU else 0 }
  ghost function StayingCpu(): Pod -> int { (p: Pod) => if p.IsMovable() then 0 else p.Footprint().milliCPU }

  ghost function MovingOn(v: Packing): string -> int { (n: string) => Sum(Occupants(v, n), MovingCpu()) }

  ghost function TotalMoving(v: Packing): int { Sum(v.order, MovingOn(v)) }

  ghost function Staying(v: Packing, n: string): int { Sum(Occupants(v, n), StayingCpu()) }

  lemma {:induction false} SplitCpu(v: Packing, n: string)
    ensures UsedOn(v, n).milliCPU == MovingOn(v)(n) + Staying(v, n)
  {
    SumPlus(Occupants(v, n), MovingCpu(), StayingCpu(), Cpu());
  }

  lemma {:induction false} PlaceSums(v: Packing, p: Pod, t: string, f: Pod -> int, n: string)
    requires t in v.bins && f(p.(nodeName := t)) == f(p)
    ensures Sum(Occupants(Place(v, p, t), n), f) == Sum(Occupants(v, n), f) + if n == t then f(p) else 0
  {
    if n == t {
      SumConcat(v.bins[t].occupants, [p.(nodeName := t)], f);
      SumSingle(p.(nodeName := t), f);
    }
  }

  lemma {:induction false} RemoveSums(v: Packing, p: Pod, f: Pod -> int, n: string)
    requires Valid(v) && UniqueKeys(v) && Sits(v, p)
    ensures Sum(Occupants(Remove(v, p), n), f) == Sum(Occupants(v, n), f) - if n == p.nodeName then f(p) else 0
  {
    RemoveKeepsNodes(v, p);
    RemovedList(v, p);
    FoundByKey(v, p);
    if n == p.nodeName {
      SumRemove(v.bins[n].occupants, IndexOf(v.bins[n].occupants, p), f);
    }
  }

  lemma {:induction false} PlaceTotal(v: Packing, p: Pod, t: string)
    requires Valid(v) && t in v.bins
    ensures TotalMoving(Place(v, p, t)) == TotalMoving(v) + MovingCpu()(p)
  {
    var w := Place(v, p, t);
    forall n | n in v.order ensures MovingOn(w)(n) == MovingOn(v)(n) + if n == t then MovingCpu()(p) else 0 {
      PlaceSums(v, p, t, MovingCpu(), n);
    }
    SumChange(v.order, t, MovingOn(v), MovingOn(w));
  }

  lemma {:induction false} RemoveTotal(v: Packing, p: Pod)
    requires Valid(v) && UniqueKeys(v) && Sits(v, p)
    ensures TotalMoving(Remove(v, p)) == TotalMoving(v) - MovingCpu()(p)
  {
    var w := Remove(v, p);
    RemoveKeepsNodes(v, p);
    forall n | n in v.order ensures MovingOn(w)(n) == MovingOn(v)(n) - if n == p.nodeName then MovingCpu()(p) else 0 {
      RemoveSums(v, p, MovingCpu(), n);
    }
    SumChange(v.order, p.nodeName, MovingOn(v), MovingOn(w));
  }

  /** Moving a movable pod keeps the movable total and every node's immovable load. */
  lemma {:induction false} RelocationKeepsTotals(v: Packing, p: Pod, t: string)
    requires Valid(v) && UniqueKeys(v) && Sits(v, p) && t in v.bins && p.IsMovable()
    ensures TotalMoving(Relocated(v, p, t)) == TotalMoving(v)
    ensures forall n :: Staying(Relocated(v, p, t), n) == Staying(v, n)
  {
    var w := Remove(v, p);
    RemoveKeepsNodes(v, p);
    MovingBack(v, p, t);
    forall n ensures Staying(Place(w, p, t), n) == Staying(v, n) {
      StayingKept(v, w, p, t, n);
    }
  }

  lemma {:induction false} MovingBack(v: Packing, p: Pod, t: string)
    requires Valid(v) && UniqueKeys(v) && Sits(v, p) && t in v.bins
    ensures TotalMoving(Relocated(v, p, t)) == TotalMoving(v)
  {
    RemoveValid(v, p);
    RemoveKeepsNodes(v, p);
    RemoveTotal(v, p);
    PlaceTotal(Remove(v, p), p, t);
  }

  lemma {:induction false} StayingKept(v: Packing, w: Packing, p: Pod, t: string, n: string)
    requires Valid(v) && UniqueKeys(v) && Sits(v, p) && w == Remove(v, p) && t in w.bins && p.IsMovable()
    ensures Staying(Place(w, p, t), n) == Staying(v, n)
  {
    RemoveSums(v, p, StayingCpu(), n);
    PlaceSums(w, p, t, StayingCpu(), n);
  }

  /** What a run has kept of the assignment it started from. */
  ghost predicate TotalsKept(v0: Packing, v: Packing) {
    TotalMoving(v) == TotalMoving(v0) && forall n :: Staying(v, n) == Staying(v0, n)
  }

  lemma {:induction false} KeptByLast(v0: Packing, moves: seq<Move>, q: Pod)
    requires moves != [] && TotalsKept(v0, Replay(v0, moves[..|moves| - 1]))
    requires var v := Replay(v0, moves[..|moves| - 1]); Valid(v) && UniqueKeys(v) && Relocates(v, moves[|moves| - 1], q)
    ensures TotalsKept(v0, Replay(v0, moves))
  {
    RelocationKeepsTotals(Replay(v0, moves[..|moves| - 1]), q, moves[|moves| - 1].toNode);
    LastMove(v0, moves);
  }

  lemma {:induction false} RunKeepsTotals(v0: Packing, ceiling: real, moves: seq<Move>)
    requires Sound(v0, v0, ceiling, {}) && LegalRun(v0, moves)
    ensures TotalsKept(v0, Replay(v0, moves))
  {
    if moves != [] {
      RunKeepsTotals(v0, ceiling, moves[..|moves| - 1]);
      var q := LastRelocates(v0, ceiling, moves);
      KeptByLast(v0, moves, q);
    }
  }

  // ------------------------------------------------- the two readings of a snapshot

  /** The script's split is the planner's split. */
  ghost predicate PinnedOrMovable(snap: Snapshot) {
    forall p | p in snap.pods :: p.PinnedToNode() || p.IsMovable()
  }

  /** What holds of an assignment loaded with these pods. */
  ghost predicate Loaded(v: Packing, app: Pod -> int, order: seq<string>, pods: seq<Pod>, n: string) {
    && Valid(v) && v.order == order
    && Sum(pods, MovableIn(app, order)) <= TotalMoving(v)
    && 0 <= Sum(pods, PinnedOn(app, order, n)) <= Staying(v, n)
  }

  /** The script's figure for a pod is at most the planner's, which also counts init containers,
      sidecars and overhead. */
  ghost predicate Understated(p: Pod, app: Pod -> int) { 0 <= app(p) <= p.requests.milliCPU }

  lemma {:induction false} LoadTotals(v0: Packing, app: Pod -> int, pods: seq<Pod>, n: string)
    requires Valid(v0) && (forall m | m in v0.bins :: v0.bins[m].occupants == [])
    requires forall p | p in pods :: Understated(p, app) && (p.PinnedToNode() || p.IsMovable())
    ensures Loaded(Load(v0, pods), app, v0.order, pods, n)
  {
    if pods == [] {
      NothingLoaded(v0, app, n);
    } else {
      var rest, p := pods[..|pods| - 1], pods[|pods| - 1];
      assert pods == rest + [p] && p in pods && forall q | q in rest :: q in pods;
      LoadTotals(v0, app, rest, n);
      LoadedOneMore(Load(v0, rest), app, v0.order, rest, p, n);
    }
  }

  lemma {:induction false} NothingLoaded(v0: Packing, app: Pod -> int, n: string)
    requires Valid(v0) && forall m | m in v0.bins :: v0.bins[m].occupants == []
    ensures Loaded(v0, app, v0.order, [], n)
  {
    EmptyTotals(v0);
    assert Occupants(v0, n) == [];
  }

  lemma {:induction false} LoadedOneMore(v: Packing, app: Pod -> int, order: seq<string>, rest: seq<Pod>, p: Pod,
                                         n: string)
    requires Loaded(v, app, order, rest, n) && Understated(p, app) && (p.PinnedToNode() || p.IsMovable())
    ensures Loaded(if p.nodeName == "" then v else Place(v, p, p.nodeName), app, order, rest + [p], n)
  {
    assert (rest + [p])[..|rest|] == rest;
    LoadOne(v, app, p, n);
  }

  /** One more pod adds to exactly one of the two figures. */
  lemma {:induction false} LoadOne(v: Packing, app: Pod -> int, p: Pod, n: string)
    requires Valid(v) && Understated(p, app) && (p.PinnedToNode() || p.IsMovable())
    ensures var w := if p.nodeName == "" then v else Place(v, p, p.nodeName);
      && Valid(w) && w.order == v.order
      && TotalMoving(w) >= TotalMoving(v) + MovableIn(app, v.order)(p)
      && Staying(w, n) >= Staying(v, n) + PinnedOn(app, v.order, n)(p)
    ensures 0 <= PinnedOn(app, v.order, n)(p)
  {
    if p.nodeName != "" && p.nodeName in v.bins {
      PlaceValid(v, p, p.nodeName);
      PlaceTotal(v, p, p.nodeName);
      PlaceSums(v, p, p.nodeName, StayingCpu(), n);
      OneFigure(p, app, v.order, n);
    }
  }

  lemma {:induction false} OneFigure(p: Pod, app: Pod -> int, names: seq<string>, n: string)
    requires p.nodeName in names && p.nodeName != "" && Understated(p, app) && (p.PinnedToNode() || p.IsMovable())
    ensures MovableIn(app, names)(p) <= MovingCpu()(p)
    ensures 0 <= PinnedOn(app, names, n)(p) <= if n == p.nodeName then StayingCpu()(p) else 0
  {
  }

  lemma {:induction false} EmptyTotals(v0: Packing)
    requires forall m | m in v0.bins :: v0.bins[m].occupants == []
    ensures TotalMoving(v0) == 0
  {
    forall n | n in v0.order ensures MovingOn(v0)(n) == 0 { assert Occupants(v0, n) == []; }
    SumZero(v0.order, MovingOn(v0));
  }

  // ------------------------------------------------------------------- the theorem

  /** A cordoned node holds nothing movable. */
  ghost predicate CordonsSettled(snap: Snapshot) {
    forall n, p | n in snap.nodes && n.unschedulable && p in snap.pods && p.nodeName == n.name :: !p.IsMovable()
  }

  /** No schedulable node starts above its CPU ceiling. */
  ghost predicate UnderCeiling(snap: Snapshot, ceiling: real) {
    forall n | n in snap.nodes && !n.unschedulable ::
      UsedOn(Packed(snap, ceiling), n.name).milliCPU <= Basis(n, ceiling).milliCPU
  }

  /** Every pod is pinned or movable, cordoned nodes hold nothing movable, no other node starts above its CPU ceiling,
      and the script reads no pod larger than the planner does. */
  ghost predicate Comparable(cap: Capture, ceiling: real) {
    && Admissible(cap.snap) && PinnedOrMovable(cap.snap) && ceiling > 0.0
    && CordonsSettled(cap.snap) && UnderCeiling(cap.snap, ceiling)
    && (forall p | p in cap.snap.pods :: Understated(p, cap.app))
  }

  lemma {:induction false} FloorShift(x: real, y: real, k: int)
    requires y >= x - k as real
    ensures y.Floor >= x.Floor - k
  {
  }

  lemma {:induction false} ScaledDown(a: real, p: real, left: real, c: real)
    requires 0.0 < c < 1.0 && 0.0 <= p && left == a - p
    ensures left * c >= a * c - p
  {
    assert left * c == (a - p) * c == a * c - p * c;
    assert p * (1.0 - c) >= 0.0;
    assert p * (1.0 - c) == p - p * c;
  }

  lemma {:induction false} ScaledUp(x: real, c: real)
    requires 1.0 <= c && 0.0 <= x
    ensures x * c >= x
  {
    assert x * (c - 1.0) >= 0.0;
    assert x * (c - 1.0) == x * c - x;
  }

  /** CPU a node may be packed to. */
  function Packable(alloc: int, ceiling: real): int {
    if ceiling < 1.0 then Truncate(alloc as real * ceiling) else alloc
  }

  lemma {:induction false} BasisIsPackable(node: Node, ceiling: real)
    requires 0.0 < ceiling
    ensures Basis(node, ceiling).milliCPU == Packable(node.allocatable.milliCPU, ceiling)
  {
  }

  lemma {:induction false} TruncateAbove(whole: real, left: real, pinned: int)
    requires 0 < pinned <= Truncate(whole) && left >= whole - pinned as real
    ensures Truncate(whole) - pinned <= Truncate(left)
  {
    FloorShift(whole, left, pinned);
  }

  lemma {:induction false} ScaledBelowOne(alloc: int, pinned: int, ceiling: real)
    requires 0.0 < ceiling < 1.0 && 0 < pinned <= Truncate(alloc as real * ceiling)
    ensures Truncate(alloc as real * ceiling) - pinned <= RoomFor(alloc, pinned, ceiling)
  {
    var whole, left := alloc as real * ceiling, (alloc - pinned) as real * ceiling;
    assert left >= whole - pinned as real by {
      ScaledDown(alloc as real, pinned as real, (alloc - pinned) as real, ceiling);
    }
    TruncateAbove(whole, left, pinned);
  }

  lemma {:induction false} ScaledAboveOne(alloc: int, pinned: int, ceiling: real)
    requires 1.0 <= ceiling && 0 <= pinned <= alloc
    ensures alloc - pinned <= RoomFor(alloc, pinned, ceiling)
  {
    ScaledUp((alloc - pinned) as real, ceiling);
    FloorShift((alloc - pinned) as real, (alloc - pinned) as real * ceiling, 0);
  }

  /** Scaling what is left leaves at least what is left after scaling. */
  lemma {:induction false} ScaledRoom(alloc: int, pinned: int, ceiling: real)
    requires 0.0 < ceiling && 0 <= pinned <= Packable(alloc, ceiling)
    ensures Packable(alloc, ceiling) - pinned <= RoomFor(alloc, pinned, ceiling)
  {
    if 1.0 <= ceiling {
      ScaledAboveOne(alloc, pinned, ceiling);
    } else if 0 < pinned {
      ScaledBelowOne(alloc, pinned, ceiling);
    }
  }

  /** The two readings of one node: what stays is at least what the script calls pinned, what moves at least what it
      calls movable. */
  lemma {:induction false} PinnedStays(cap: Capture, ceiling: real, n: string)
    requires Comparable(cap, ceiling)
    ensures 0 <= PinnedCpu(cap, n) <= Staying(Packed(cap.snap, ceiling), n)
    ensures MovableCpu(cap) <= TotalMoving(Packed(cap.snap, ceiling))
  {
    BareValid(cap.snap, ceiling);
    BareFree(cap.snap, ceiling);
    LoadTotals(Bare(cap.snap, ceiling), cap.app, cap.snap.pods, n);
  }

  /** A surviving node holds no more movable CPU than the script's room for it. */
  lemma {:induction false} SurvivorFitsRoom(cap: Capture, ceiling: real, v: Packing, node: Node)
    requires Comparable(cap, ceiling) && node in cap.snap.nodes && !node.unschedulable
    requires SameNodes(Packed(cap.snap, ceiling), v) && WithinCeiling(Packed(cap.snap, ceiling), v, ceiling)
    requires Staying(v, node.name) == Staying(Packed(cap.snap, ceiling), node.name)
    ensures MovingOn(v)(node.name) <= Room(cap, ceiling, node)
  {
    var n, v0 := node.name, Packed(cap.snap, ceiling);
    NodeOf(cap.snap, ceiling, node);
    SplitCpu(v, n);
    SplitCpu(v0, n);
    PinnedStays(cap, ceiling, n);
    MovingNonNegative(cap.snap, ceiling, n);
    RoomBound(cap, ceiling, node, MovingOn(v)(n), Staying(v, n));
  }

  lemma {:induction false} RoomBound(cap: Capture, ceiling: real, node: Node, moving: int, staying: int)
    requires ceiling > 0.0 && 0 <= PinnedCpu(cap, node.name) <= staying
    requires moving + staying <= Basis(node, ceiling).milliCPU && staying <= Basis(node, ceiling).milliCPU
    ensures moving <= Room(cap, ceiling, node)
  {
    BasisIsPackable(node, ceiling);
    ScaledRoom(node.allocatable.milliCPU, PinnedCpu(cap, node.name), ceiling);
  }

  lemma {:induction false} MovingNonNegative(snap: Snapshot, ceiling: real, n: string)
    requires Admissible(snap)
    ensures 0 <= MovingOn(Packed(snap, ceiling))(n)
  {
    PackedSound(snap, ceiling);
    var occ := Occupants(Packed(snap, ceiling), n);
    forall p | p in occ ensures 0 <= MovingCpu()(p) { assert Sits(Packed(snap, ceiling), p); }
    SumNonNegative(occ, MovingCpu());
  }

  lemma {:induction false} NodeOf(snap: Snapshot, ceiling: real, node: Node)
    requires UniqueNodes(snap.nodes) && node in snap.nodes
    ensures node.name in Packed(snap, ceiling).bins && Packed(snap, ceiling).bins[node.name].node == node
  {
    BareBinsAt(snap.nodes, ceiling);
    LoadNodes(Bare(snap, ceiling), snap.pods);
  }

  /** The nodes the script looks at. */
  ghost function Live(nodes: seq<Node>): seq<Node> {
    if nodes == [] then [] else
      var rest := Live(nodes[..|nodes| - 1]);
      if nodes[|nodes| - 1].unschedulable then rest else rest + [nodes[|nodes| - 1]]
  }

  ghost function Cordoned(nodes: seq<Node>): set<string> { set n | n in nodes && n.unschedulable :: n.name }

  lemma {:induction false} LiveMembers(nodes: seq<Node>)
    ensures forall n :: n in Live(nodes) <==> n in nodes && !n.unschedulable
    ensures UniqueNodes(nodes) ==> UniqueNodes(Live(nodes))
  {
    if nodes != [] {
      var front := nodes[..|nodes| - 1];
      LiveMembers(front);
      assert nodes == front + [nodes[|nodes| - 1]];
    }
  }

  /** Cordoned nodes add no room, and what moves on none of them adds to no sum. */
  lemma {:induction false} LiveSums(cap: Capture, ceiling: real, nodes: seq<Node>, moving: string -> int)
    requires forall n | n in nodes && n.unschedulable :: moving(n.name) == 0
    ensures Rooms(cap, ceiling, Live(nodes)) == Rooms(cap, ceiling, nodes)
    ensures Sum(NodeNames(Live(nodes)), moving) == Sum(NodeNames(nodes), moving)
  {
    if nodes != [] {
      var front, last := nodes[..|nodes| - 1], nodes[|nodes| - 1];
      assert nodes == front + [last];
      LiveSums(cap, ceiling, front, moving);
      NamesStep(front, last, moving);
      if !last.unschedulable {
        NamesStep(Live(front), last, moving);
        assert (Live(front) + [last])[..|Live(front)|] == Live(front);
      }
    }
  }

  lemma {:induction false} NamesStep(front: seq<Node>, last: Node, f: string -> int)
    ensures Sum(NodeNames(front + [last]), f) == Sum(NodeNames(front), f) + f(last.name)
  {
    assert NodeNames(front + [last]) == NodeNames(front) + [last.name];
    assert (NodeNames(front) + [last.name])[..|front|] == NodeNames(front);
  }

  /** Names kept, and the rooms of the nodes kept. */
  ghost function Kept(nodes: seq<Node>, drained: set<string>): seq<Node> {
    if nodes == [] then [] else
      var rest := Kept(nodes[..|nodes| - 1], drained);
      if nodes[|nodes| - 1].name in drained then rest else rest + [nodes[|nodes| - 1]]
  }

  lemma {:induction false} KeptCount(nodes: seq<Node>, drained: set<string>)
    requires UniqueNodes(nodes)
    ensures |Kept(nodes, drained)| + |drained * (set n | n in NodeNames(nodes))| == |nodes|
  {
    if nodes == [] {
      assert drained * (set n | n in NodeNames(nodes)) == {};
    } else {
      var front, last := nodes[..|nodes| - 1], nodes[|nodes| - 1];
      KeptCount(front, drained);
      assert NodeNames(nodes) == NodeNames(front) + [last.name];
      var a, b := set n | n in NodeNames(front), set n | n in NodeNames(nodes);
      assert last.name !in a;
      assert drained * b == if last.name in drained then drained * a + {last.name} else drained * a;
    }
  }

  /** Rooms of the kept nodes are some of the rooms, one each. */
  lemma {:induction false} KeptRooms(cap: Capture, ceiling: real, nodes: seq<Node>, drained: set<string>)
    requires forall n | n in nodes :: !n.unschedulable
    ensures multiset(Rooms(cap, ceiling, Kept(nodes, drained))) <= multiset(Rooms(cap, ceiling, nodes))
    ensures |Rooms(cap, ceiling, Kept(nodes, drained))| == |Kept(nodes, drained)|
  {
    if nodes != [] {
      var front, last := nodes[..|nodes| - 1], nodes[|nodes| - 1];
      assert last in nodes && forall n | n in front :: n in nodes;
      KeptRooms(cap, ceiling, front, drained);
      OneMoreKept(cap, ceiling, front, last, drained, _ => 0);
    }
  }

  /** Rooms of the kept nodes hold whatever moves on the nodes. */
  lemma {:induction false} KeptFit(cap: Capture, ceiling: real, nodes: seq<Node>, drained: set<string>,
                                   moving: string -> int)
    requires forall n | n in nodes :: !n.unschedulable && moving(n.name) <= Room(cap, ceiling, n)
    requires forall n | n in nodes && n.name in drained :: moving(n.name) <= 0
    ensures Sum(NodeNames(nodes), moving) <= Sum(Rooms(cap, ceiling, Kept(nodes, drained)), Id())
  {
    if nodes != [] {
      var front, last := nodes[..|nodes| - 1], nodes[|nodes| - 1];
      assert last in nodes && forall n | n in front :: n in nodes;
      KeptFit(cap, ceiling, front, drained, moving);
      FitOneMore(cap, ceiling, front, last, drained, moving);
      assert nodes == front + [last];
    }
  }

  lemma {:induction false} FitOneMore(cap: Capture, ceiling: real, front: seq<Node>, last: Node, drained: set<string>,
                                      moving: string -> int)
    requires !last.unschedulable && moving(last.name) <= Room(cap, ceiling, last)
    requires last.name in drained ==> moving(last.name) <= 0
    requires Sum(NodeNames(front), moving) <= Sum(Rooms(cap, ceiling, Kept(front, drained)), Id())
    ensures Sum(NodeNames(front + [last]), moving) <= Sum(Rooms(cap, ceiling, Kept(front + [last], drained)), Id())
  {
    assert NodeNames(front + [last]) == NodeNames(front) + [last.name];
    OneMoreKept(cap, ceiling, front, last, drained, moving);
  }

  lemma {:induction false} OneMoreKept(cap: Capture, ceiling: real, front: seq<Node>, last: Node, drained: set<string>,
                                       moving: string -> int)
    requires !last.unschedulable
    ensures Kept(front + [last], drained) == Kept(front, drained) + if last.name in drained then [] else [last]
    ensures Rooms(cap, ceiling, front + [last]) == Rooms(cap, ceiling, front) + [Room(cap, ceiling, last)]
    ensures last.name !in drained ==>
      var was, now := Rooms(cap, ceiling, Kept(front, drained)), Rooms(cap, ceiling, Kept(front + [last], drained));
      now == was + [Room(cap, ceiling, last)] && Sum(now, Id()) == Sum(was, Id()) + Room(cap, ceiling, last)
    ensures Sum(NodeNames(front) + [last.name], moving) == Sum(NodeNames(front), moving) + moving(last.name)
  {
    assert (front + [last])[..|front|] == front;
    assert (NodeNames(front) + [last.name])[..|front|] == NodeNames(front);
    if last.name !in drained {
      var kept := Kept(front, drained);
      var rooms := Rooms(cap, ceiling, kept);
      assert (kept + [last])[..|kept|] == kept;
      assert (rooms + [Room(cap, ceiling, last)])[..|rooms|] == rooms;
    }
  }

  lemma {:induction false} DrainedAreNodes(st: Progress, candidates: seq<Node>, snap: Snapshot, analysis: Analysis,
                                           opts: Options, names: set<string>)
    requires st.drained <= names && forall c | c in candidates :: c.name in names
    ensures RunPlan(st, candidates, snap, analysis, opts).drained <= names
    decreases |candidates|
  {
    if candidates != [] && !LimitReached(opts, |st.steps|) {
      assert candidates[0] in candidates && forall c | c in candidates[1..] :: c in candidates;
      var next := Consider(st, candidates[0], snap, analysis, opts);
      assert next.drained <= st.drained + {candidates[0].name};
      DrainedAreNodes(next, candidates[1..], snap, analysis, opts, names);
    }
  }

  lemma {:induction false} OutcomeDrainsNodes(snap: Snapshot, analysis: Analysis, opts: Options)
    ensures Outcome(snap, analysis, opts).drained <= (set n | n in NodeNames(snap.nodes))
  {
    var names := set n | n in NodeNames(snap.nodes);
    var found := DrainCandidates(snap.nodes, opts, Now(snap, opts));
    CandidateMembers(snap.nodes, opts, Now(snap, opts));
    SortPermutes(found, DrainOrder(Packed(snap, opts.packCeiling)));
    forall c | c in Candidates(snap, opts) ensures c.name in names {
      assert c in found && c in snap.nodes;
      var i :| 0 <= i < |snap.nodes| && snap.nodes[i] == c;
      assert NodeNames(snap.nodes)[i] == c.name;
    }
    DrainedAreNodes(Start(snap, opts), Candidates(snap, opts), snap, analysis, opts, names);
  }

  lemma {:induction false} StartsSettled(snap: Snapshot, ceiling: real, node: Node)
    requires Admissible(snap) && CordonsSettled(snap) && node in snap.nodes && node.unschedulable
    ensures IsCordoned(Packed(snap, ceiling), node.name) && Settled(Packed(snap, ceiling), node.name)
  {
    NodeOf(snap, ceiling, node);
    BareFree(snap, ceiling);
    forall q | Sits(Packed(snap, ceiling), q) && q.nodeName == node.name ensures !q.IsMovable() {
      LoadMembers(Bare(snap, ceiling), snap.pods, q);
    }
  }

  /** Nothing movable is on a cordoned node in the end, and no step drained one. */
  lemma {:induction false} CordonedHoldsNothing(snap: Snapshot, analysis: Analysis, opts: Options, node: Node)
    requires Admissible(snap) && CordonsSettled(snap) && node in snap.nodes && node.unschedulable
    ensures MovingOn(Outcome(snap, analysis, opts).work)(node.name) == 0
    ensures forall s | s in PlanFor(snap, analysis, opts).steps :: s.targetNode != node.name
  {
    StartsSettled(snap, opts.packCeiling, node);
    PlanAvoidsCordoned(snap, analysis, opts, node.name);
    OutcomeInvariant(snap, analysis, opts);
    SettledHoldsNothing(Outcome(snap, analysis, opts).work, node.name);
  }

  lemma {:induction false} SettledHoldsNothing(v: Packing, n: string)
    requires Valid(v) && Settled(v, n)
    ensures MovingOn(v)(n) == 0
  {
    var occ := Occupants(v, n);
    forall p | p in occ ensures MovingCpu()(p) == 0 {
      assert p in v.bins[n].occupants && Sits(v, p);
    }
    SumZero(occ, MovingCpu());
  }

  /** At the end of the plan, drained and cordoned nodes hold nothing movable and the others fit the script's rooms. */
  lemma {:induction false} OutcomeFitsRooms(cap: Capture, analysis: Analysis, opts: Options)
    requires Comparable(cap, opts.packCeiling)
    ensures var end := Outcome(cap.snap, analysis, opts);
      && end.work.order == NodeNames(cap.snap.nodes)
      && TotalMoving(end.work) >= MovableCpu(cap)
      && (forall n | n in cap.snap.nodes && n.name in end.drained :: MovingOn(end.work)(n.name) <= 0)
      && (forall n | n in cap.snap.nodes && n.unschedulable :: MovingOn(end.work)(n.name) == 0)
      && forall n | n in cap.snap.nodes && !n.unschedulable ::
           MovingOn(end.work)(n.name) <= Room(cap, opts.packCeiling, n)
  {
    var snap, c := cap.snap, opts.packCeiling;
    var end := Outcome(snap, analysis, opts);
    OutcomeTotals(snap, analysis, opts);
    PinnedStays(cap, c, "");
    LoadNodes(Bare(snap, c), snap.pods);
    forall n | n in snap.nodes && !n.unschedulable ensures MovingOn(end.work)(n.name) <= Room(cap, c, n) {
      SurvivorFitsRoom(cap, c, end.work, n);
    }
    forall n | n in snap.nodes && n.unschedulable ensures MovingOn(end.work)(n.name) == 0 {
      CordonedHoldsNothing(snap, analysis, opts, n);
    }
    OutcomeInvariant(snap, analysis, opts);
    forall n | n in snap.nodes && n.name in end.drained ensures MovingOn(end.work)(n.name) <= 0 {
      SettledHoldsNothing(end.work, n.name);
    }
  }

  lemma {:induction false} OutcomeTotals(snap: Snapshot, analysis: Analysis, opts: Options)
    requires Admissible(snap)
    ensures var v0, v := Packed(snap, opts.packCeiling), Outcome(snap, analysis, opts).work;
      && SameNodes(v0, v) && WithinCeiling(v0, v, opts.packCeiling)
      && TotalMoving(v) == TotalMoving(v0)
      && forall n :: Staying(v, n) == Staying(v0, n)
  {
    var v0, moves := Packed(snap, opts.packCeiling), AllMoves(Outcome(snap, analysis, opts).steps);
    OutcomeInvariant(snap, analysis, opts);
    PackedSound(snap, opts.packCeiling);
    WholeRunTotals(v0, opts.packCeiling, moves);
  }

  lemma {:induction false} WholeRunTotals(v0: Packing, ceiling: real, moves: seq<Move>)
    requires Sound(v0, v0, ceiling, {}) && LegalRun(v0, moves)
    ensures var v := Replay(v0, moves);
      && SameNodes(v0, v) && WithinCeiling(v0, v, ceiling)
      && TotalMoving(v) == TotalMoving(v0)
      && forall n :: Staying(v, n) == Staying(v0, n)
  {
    LegalRunSound(v0, ceiling, moves);
    RunKeepsTotals(v0, ceiling, moves);
  }

  /** As many different members as list entries. */
  lemma {:induction false} DistinctWithin(s: seq<string>, d: set<string>)
    requires Distinct(s) && forall x | x in s :: x in d
    ensures |s| <= |d|
  {
    if s != [] {
      var last := s[|s| - 1];
      assert s == s[..|s| - 1] + [last];
      forall x | x in s[..|s| - 1] ensures x in d - {last} {
        var i :| 0 <= i < |s| - 1 && s[i] == x;
      }
      DistinctWithin(s[..|s| - 1], d - {last});
    }
  }

  lemma {:induction false} StepTarget(snap: Snapshot, analysis: Analysis, opts: Options, s: PlanStep)
    requires Admissible(snap) && CordonsSettled(snap) && s in PlanFor(snap, analysis, opts).steps
    ensures s.targetNode !in Cordoned(snap.nodes)
  {
    forall n | n in snap.nodes && n.unschedulable ensures n.name != s.targetNode {
      CordonedHoldsNothing(snap, analysis, opts, n);
    }
  }

  /** Steps drain different nodes, none of them cordoned. */
  lemma {:induction false} StepsAreDrained(snap: Snapshot, analysis: Analysis, opts: Options)
    requires Admissible(snap) && CordonsSettled(snap)
    ensures |PlanFor(snap, analysis, opts).steps| <= |Outcome(snap, analysis, opts).drained - Cordoned(snap.nodes)|
  {
    var end := Outcome(snap, analysis, opts);
    var targets := seq(|end.steps|, i requires 0 <= i < |end.steps| => end.steps[i].targetNode);
    OutcomeInvariant(snap, analysis, opts);
    forall x | x in targets ensures x in end.drained - Cordoned(snap.nodes) {
      var i :| 0 <= i < |targets| && targets[i] == x;
      StepTarget(snap, analysis, opts, end.steps[i]);
      assert x in end.drained;
    }
    DistinctWithin(targets, end.drained - Cordoned(snap.nodes));
  }

  lemma {:induction false} LiveNames(nodes: seq<Node>, drained: set<string>)
    requires UniqueNodes(nodes) && drained <= (set n | n in NodeNames(nodes))
    ensures drained * (set n | n in NodeNames(Live(nodes))) == drained - Cordoned(nodes)
  {
    LiveMembers(nodes);
    NamesOf(nodes);
    NamesOf(Live(nodes));
  }

  lemma {:induction false} NamesOf(nodes: seq<Node>)
    ensures forall x :: x in NodeNames(nodes) <==> exists n | n in nodes :: n.name == x
  {
    forall x ensures x in NodeNames(nodes) <==> exists n | n in nodes :: n.name == x {
      if x in NodeNames(nodes) {
        var i :| 0 <= i < |nodes| && NodeNames(nodes)[i] == x;
        assert nodes[i] in nodes && nodes[i].name == x;
      }
      if n :| n in nodes && n.name == x {
        var i :| 0 <= i < |nodes| && nodes[i] == n;
        assert NodeNames(nodes)[i] == x;
      }
    }
  }

  /** The rooms of the live nodes that are kept cover what moves. */
  lemma {:induction false} KeptCovers(cap: Capture, ceiling: real, drained: set<string>, moving: string -> int)
    requires forall n | n in cap.snap.nodes && n.unschedulable :: moving(n.name) == 0
    requires forall n | n in cap.snap.nodes && !n.unschedulable :: moving(n.name) <= Room(cap, ceiling, n)
    requires forall n | n in cap.snap.nodes && n.name in drained :: moving(n.name) <= 0
    requires Sum(NodeNames(cap.snap.nodes), moving) >= MovableCpu(cap)
    ensures Covers(Rooms(cap, ceiling, cap.snap.nodes), Rooms(cap, ceiling, Kept(Live(cap.snap.nodes), drained)),
                   MovableCpu(cap))
    ensures |Rooms(cap, ceiling, Kept(Live(cap.snap.nodes), drained))| == |Kept(Live(cap.snap.nodes), drained)|
    ensures |Rooms(cap, ceiling, cap.snap.nodes)| == |Live(cap.snap.nodes)|
  {
    var nodes := cap.snap.nodes;
    LiveMembers(nodes);
    LiveSums(cap, ceiling, nodes, moving);
    KeptRooms(cap, ceiling, Live(nodes), drained);
    KeptFit(cap, ceiling, Live(nodes), drained, moving);
    RoomsLength(cap, ceiling, Live(nodes));
  }

  /** The planner never beats the capacity ceiling: the steps of a plan, and the nodes it counts as drained apart from
      cordoned ones, are at most the script's figure. */
  lemma {:induction false} PlannerNeverBeatsHeadroom(cap: Capture, analysis: Analysis, opts: Options, drainable: int)
    requires Comparable(cap, opts.packCeiling)
    requires IsDrainable(Rooms(cap, opts.packCeiling, cap.snap.nodes), MovableCpu(cap), drainable)
    ensures |Outcome(cap.snap, analysis, opts).drained - Cordoned(cap.snap.nodes)| <= drainable
    ensures |PlanFor(cap.snap, analysis, opts).steps| <= drainable
  {
    var nodes, end := cap.snap.nodes, Outcome(cap.snap, analysis, opts);
    OutcomeFitsRooms(cap, analysis, opts);
    KeptCovers(cap, opts.packCeiling, end.drained, MovingOn(end.work));
    LiveMembers(nodes);
    KeptCount(Live(nodes), end.drained);
    OutcomeDrainsNodes(cap.snap, analysis, opts);
    LiveNames(nodes, end.drained);
    StepsAreDrained(cap.snap, analysis, opts);
  }

  lemma {:induction false} RoomsLength(cap: Capture, ceiling: real, nodes: seq<Node>)
    requires forall n | n in nodes :: !n.unschedulable
    ensures |Rooms(cap, ceiling, nodes)| == |nodes|
  {
    if nodes != [] { RoomsLength(cap, ceiling, nodes[..|nodes| - 1]); }
  }
}
