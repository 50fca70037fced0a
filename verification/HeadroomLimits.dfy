/**
  Why PlannerNeverBeatsHeadroom asks what it does of the cluster: for each of its three assumptions about the
  cluster there is one that fails only that, where the script (hack/capture/headroom.py) says nothing can come
  out and a plan drains a node.
 */
module HeadroomLimits {
  import opened Model
  import opened Sums
  import opened Sorting
  import opened Packings
  import opened Planning
  import opened Runs
  import opened PlanSafety
  import opened Policies
  import opened Headroom

  // ------------------------------------------------------------- two nodes, three pods

  function PlainNode(name: string, cpu: int, cordoned: bool): Node {
    Node(name, map[], map[], [], Resources(cpu, 1000, 10), cordoned, true, None)
  }

  function PlainPod(name: string, node: string, cpu: int, owner: Option<OwnerRef>, stays: bool): Pod {
    Pod("a", name, node, map[], Running, Resources(cpu, 0, 0), map[], [], [], None, [], true, owner, false, stays)
  }

  /** Node a with a pod that can move and one that cannot, a daemon's or one not to be disrupted; node b with
      another pod; and what each of them has or asks for. */
  datatype Scene = Scene(cpuA: int, cordoned: bool, cpuB: int, movesCpu: int, staysCpu: int, daemon: bool,
                         otherCpu: int)
  {
    function A(): Node { PlainNode("a", cpuA, cordoned) }

    function B(): Node { PlainNode("b", cpuB, false) }

    function Moves(): Pod { PlainPod("p", "a", movesCpu, None, false) }

    function Stays(): Pod {
      PlainPod("q", "a", staysCpu, if daemon then Some(OwnerRef("DaemonSet", "d")) else None, !daemon)
    }

    function Other(): Pod { PlainPod("r", "b", otherCpu, None, false) }

    function Snap(): Snapshot { Snapshot(0, [A(), B()], [Moves(), Stays(), Other()], []) }

    function Cap(): Capture { Capture(Snap(), (p: Pod) => p.requests.milliCPU) }

    function FreeA(ceiling: real): Resources {
      Basis(A(), ceiling).Sub(Moves().Footprint()).Sub(Stays().Footprint())
    }

    function FreeB(ceiling: real): Resources { Basis(B(), ceiling).Sub(Other().Footprint()) }
  }

  function PlainOptions(ceiling: real): Options { Options(0, [], [], 0, None, ceiling) }

  /** The pod joins the bin it names, and the others stay as they are. */
  lemma {:induction false} LoadLast(v0: Packing, rest: seq<Pod>, p: Pod)
    requires p.nodeName != "" && p.nodeName in Load(v0, rest).bins
    ensures var v, w := Load(v0, rest), Load(v0, rest + [p]);
      && w.order == v.order && w.bins.Keys == v.bins.Keys
      && w.bins[p.nodeName] == Joined(v.bins[p.nodeName], p)
      && forall n | n in v.bins && n != p.nodeName :: w.bins[n] == v.bins[n]
  {
    assert (rest + [p])[..|rest|] == rest;
    assert p.(nodeName := p.nodeName) == p;
  }

  function Joined(b: Bin, p: Pod): Bin { Bin(b.node, b.free.Sub(p.Footprint()), b.occupants + [p]) }

  lemma {:induction false} BarePair(a: Node, b: Node, ceiling: real)
    requires a.name != b.name
    ensures Bare(Snapshot(0, [a, b], [], []), ceiling)
         == Packing([a.name, b.name],
                    map[a.name := Bin(a, Basis(a, ceiling), []), b.name := Bin(b, Basis(b, ceiling), [])])
  {
    assert [a, b][..1] == [a] && [a][..0] == [];
    assert BareBins([a], ceiling) == map[a.name := Bin(a, Basis(a, ceiling), [])];
    assert NodeNames([a, b]) == [a.name, b.name];
  }

  lemma {:induction false} ScenePacked(s: Scene, ceiling: real)
    ensures var v := Packed(s.Snap(), ceiling);
      && v.order == ["a", "b"] && v.bins.Keys == {"a", "b"}
      && v.bins["a"] == Bin(s.A(), s.FreeA(ceiling), [s.Moves(), s.Stays()])
      && v.bins["b"] == Bin(s.B(), s.FreeB(ceiling), [s.Other()])
  {
    LoadThree(s.A(), s.B(), s.Moves(), s.Stays(), s.Other(), ceiling);
  }

  lemma {:induction false} LoadThree(a: Node, b: Node, p: Pod, q: Pod, r: Pod, ceiling: real)
    requires a.name != "" && b.name != "" && a.name != b.name
    requires p.nodeName == q.nodeName == a.name && r.nodeName == b.name
    ensures var v := Packed(Snapshot(0, [a, b], [p, q, r], []), ceiling);
      && v.order == [a.name, b.name] && v.bins.Keys == {a.name, b.name}
      && v.bins[a.name] == Bin(a, Basis(a, ceiling).Sub(p.Footprint()).Sub(q.Footprint()), [p, q])
      && v.bins[b.name] == Bin(b, Basis(b, ceiling).Sub(r.Footprint()), [r])
  {
    BarePair(a, b, ceiling);
    var v0 := Bare(Snapshot(0, [a, b], [p, q, r], []), ceiling);
    LoadOther(v0, p, q, r);
  }

  lemma {:induction false} LoadOther(v0: Packing, p: Pod, q: Pod, r: Pod)
    requires p.nodeName == q.nodeName != "" && p.nodeName in v0.bins && v0.bins[p.nodeName].occupants == []
    requires r.nodeName != "" && r.nodeName != p.nodeName && r.nodeName in v0.bins
    requires v0.bins[r.nodeName].occupants == []
    ensures var w, a, b := Load(v0, [p, q, r]), v0.bins[p.nodeName], v0.bins[r.nodeName];
      && w.order == v0.order && w.bins.Keys == v0.bins.Keys
      && w.bins[p.nodeName] == Bin(a.node, a.free.Sub(p.Footprint()).Sub(q.Footprint()), [p, q])
      && w.bins[r.nodeName] == Bin(b.node, b.free.Sub(r.Footprint()), [r])
  {
    LoadTwo(v0, p, q);
    LoadLast(v0, [p, q], r);
    assert [p, q] + [r] == [p, q, r] && [] + [r] == [r];
  }

  lemma {:induction false} LoadTwo(v0: Packing, p: Pod, q: Pod)
    requires p.nodeName == q.nodeName != "" && p.nodeName in v0.bins && v0.bins[p.nodeName].occupants == []
    ensures var w, b := Load(v0, [p, q]), v0.bins[p.nodeName];
      && w.order == v0.order && w.bins.Keys == v0.bins.Keys
      && w.bins[p.nodeName] == Bin(b.node, b.free.Sub(p.Footprint()).Sub(q.Footprint()), [p, q])
      && forall n | n in v0.bins && n != p.nodeName :: w.bins[n] == v0.bins[n]
  {
    LoadLast(v0, [], p);
    LoadLast(v0, [p], q);
    assert [] + [p] == [p] && [p] + [q] == [p, q];
  }

  lemma {:induction false} SumThree<T(!new)>(a: T, b: T, c: T, f: T -> int)
    ensures Sum([a, b, c], f) == f(a) + f(b) + f(c)
  {
    SumConcat([a], [b], f);
    SumConcat([a] + [b], [c], f);
    SumSingle(a, f);
    SumSingle(b, f);
    SumSingle(c, f);
    assert [a, b, c] == [a] + [b] + [c];
  }

  // ---------------------------------------------------------------- a plan's first step

  /** If the first candidate can be drained, the plan has a step. */
  lemma {:induction false} FirstDrains(snap: Snapshot, analysis: Analysis, opts: Options)
    requires Candidates(snap, opts) != []
    requires var v, n := Packed(snap, opts.packCeiling), Candidates(snap, opts)[0].name;
      !IsEmpty(v, n) && TryDrain(v, n, {}, analysis, opts).Some?
    ensures PlanFor(snap, analysis, opts).steps != []
  {
    var first := Consider(Start(snap, opts), Candidates(snap, opts)[0], snap, analysis, opts);
    assert |first.steps| == 1;
    StepsGrow(first, Candidates(snap, opts)[1..], snap, analysis, opts);
  }

  lemma {:induction false} EmptierFirst(a: Node, b: Node, snap: Snapshot, opts: Options)
    requires snap.nodes == [a, b]
    requires IsCandidate(opts, a, Now(snap, opts)) && IsCandidate(opts, b, Now(snap, opts))
    requires var v := Packed(snap, opts.packCeiling); RequestedRatio(v, a) < RequestedRatio(v, b)
    ensures Candidates(snap, opts) == [a, b]
  {
    var less := DrainOrder(Packed(snap, opts.packCeiling));
    assert [a, b][..1] == [a] && [a][..0] == [];
    assert DrainCandidates([a][..0], opts, Now(snap, opts)) == [];
    assert DrainCandidates([a, b][..1], opts, Now(snap, opts)) == [a];
    assert DrainCandidates([a, b], opts, Now(snap, opts)) == [a, b];
    assert [a, b][1..] == [b] && [b][1..] == [];
    assert StableSort([b], less) == [b];
  }

  lemma {:induction false} OnePodDrains(v: Packing, p: Pod, source: string, t: string, analysis: Analysis,
                                        opts: Options)
    requires MovablePods(Occupants(v, source)) == [p] && !OffLimits(p.namespace, p.name, analysis, opts)
    requires t in v.order && MayReceive(v, p, source, {}, t) && "" !in v.order
    ensures !IsEmpty(v, source) && TryDrain(v, source, {}, analysis, opts).Some?
  {
    MovableMembers(Occupants(v, source));
    assert p in MovablePods(Occupants(v, source));
    assert [p][1..] == [] && StableSort([p][1..], PlacedBefore) == [];
    assert SortPodsBySizeDesc([p]) == [p];
    OffLimitsHoldsBack(p, analysis, opts);
    OneDestination(v, p, source, {}, t);
    LoneTrial(v, p, source, {});
  }

  lemma {:induction false} OneMovable(p: Pod, q: Pod)
    requires p.IsMovable() && !q.IsMovable()
    ensures MovablePods([p, q]) == [p]
  {
    assert [p, q][..1] == [p] && [p][..0] == [];
    assert MovablePods([p][..0]) == [];
    assert MovablePods([p, q][..1]) == [p];
  }

  lemma {:induction false} PlainAdmitted(v: Packing, s: Scene, ceiling: real)
    requires "b" in v.bins && v.bins["b"].node == s.B() && s.Moves().Footprint().Fits(v.bins["b"].free)
    ensures CanPlace(v, s.Moves(), "b")
  {
  }

  /** In a scene whose first node is the emptier one, and whose moving pod fits the other, a plan drains it. */
  lemma {:induction false} ScenePlans(s: Scene, ceiling: real)
    requires s.Moves().Footprint().Fits(s.FreeB(ceiling))
    requires var v := Packed(s.Snap(), ceiling); RequestedRatio(v, s.A()) < RequestedRatio(v, s.B())
    ensures PlanFor(s.Snap(), map[], PlainOptions(ceiling)).steps != []
  {
    var v := Packed(s.Snap(), ceiling);
    ScenePacked(s, ceiling);
    EmptierFirst(s.A(), s.B(), s.Snap(), PlainOptions(ceiling));
    OneMovable(s.Moves(), s.Stays());
    PlainAdmitted(v, s, ceiling);
    OnePodDrains(v, s.Moves(), "a", "b", map[], PlainOptions(ceiling));
    FirstDrains(s.Snap(), map[], PlainOptions(ceiling));
  }

  // ---------------------------------------------------------------- the script's figure

  ghost predicate NonNegativeScene(s: Scene) {
    0 <= s.cpuA && 0 <= s.cpuB && 0 <= s.movesCpu && 0 <= s.staysCpu && 0 <= s.otherCpu
  }

  /** The reader's guarantees, which the three clusters below meet. */
  ghost predicate WellRead(s: Scene) {
    Admissible(s.Snap()) && forall p | p in s.Snap().pods :: Understated(p, s.Cap().app)
  }

  lemma {:induction false} SceneAdmissible(s: Scene)
    requires NonNegativeScene(s)
    ensures WellRead(s)
  {
    var pods := s.Snap().pods;
    assert pods[0].Key() == "a/p" && pods[1].Key() == "a/q" && pods[2].Key() == "a/r";
    assert "a/p"[2] == 'p' && "a/q"[2] == 'q' && "a/r"[2] == 'r';
  }

  /** What one pod on a node adds to the script's figures. */
  lemma {:induction false} FigureOf(app: Pod -> int, names: seq<string>, p: Pod, n: string)
    requires OnNodes(p, names)
    ensures MovableIn(app, names)(p) == (if p.PinnedToNode() then 0 else app(p))
    ensures PinnedOn(app, names, n)(p) == (if p.nodeName == n && p.PinnedToNode() then app(p) else 0)
  {
  }

  lemma {:induction false} SceneFigureOf(s: Scene, n: string)
    requires s.daemon ==> s.staysCpu == 0
    ensures var app, names := s.Cap().app, NodeNames(s.Snap().nodes);
      && MovableIn(app, names)(s.Moves()) == s.movesCpu && PinnedOn(app, names, n)(s.Moves()) == 0
      && MovableIn(app, names)(s.Stays()) == s.staysCpu && PinnedOn(app, names, n)(s.Stays()) == 0
      && MovableIn(app, names)(s.Other()) == s.otherCpu && PinnedOn(app, names, n)(s.Other()) == 0
  {
    var app, names := s.Cap().app, NodeNames(s.Snap().nodes);
    assert names[0] == "a" && names[1] == "b";
    FigureOf(app, names, s.Moves(), n);
    FigureOf(app, names, s.Stays(), n);
    FigureOf(app, names, s.Other(), n);
  }

  /** What the script reads off a scene whose daemon asks for nothing. */
  lemma {:induction false} SceneFigures(s: Scene, ceiling: real)
    requires s.daemon ==> s.staysCpu == 0
    ensures MovableCpu(s.Cap()) == s.movesCpu + s.staysCpu + s.otherCpu
    ensures forall n :: PinnedCpu(s.Cap(), n) == 0
    ensures Rooms(s.Cap(), ceiling, s.Snap().nodes)
         == (if s.cordoned then [] else [RoomFor(s.cpuA, 0, ceiling)]) + [RoomFor(s.cpuB, 0, ceiling)]
  {
    var cap, names := s.Cap(), NodeNames(s.Snap().nodes);
    SceneFigureOf(s, "");
    SumThree(s.Moves(), s.Stays(), s.Other(), MovableIn(cap.app, names));
    forall n ensures PinnedCpu(cap, n) == 0 {
      SceneFigureOf(s, n);
      SumThree(s.Moves(), s.Stays(), s.Other(), PinnedOn(cap.app, names, n));
    }
    SceneRooms(s, ceiling);
  }

  lemma {:induction false} SceneRooms(s: Scene, ceiling: real)
    requires forall n :: PinnedCpu(s.Cap(), n) == 0
    ensures Rooms(s.Cap(), ceiling, s.Snap().nodes)
         == (if s.cordoned then [] else [RoomFor(s.cpuA, 0, ceiling)]) + [RoomFor(s.cpuB, 0, ceiling)]
  {
    var cap := s.Cap();
    var nodes := s.Snap().nodes;
    assert nodes[..0] == [] && nodes[..2] == nodes;
    RoomsStep(cap, ceiling, nodes, 0);
    RoomsStep(cap, ceiling, nodes, 1);
  }

  /** If all rooms but the last do not hold the total, and all of them do, nothing can come out. */
  lemma {:induction false} AllNeeded(rooms: seq<int>, total: int)
    requires Downwards(rooms) && Sum(rooms, Id()) >= total
    requires forall k | 0 <= k < |rooms| :: Sum(rooms[..k], Id()) < total
    ensures IsDrainable(rooms, total, 0)
  {
    assert rooms[..|rooms|] == rooms;
    NeedIsLeast(rooms, rooms, total, |rooms|, Sum(rooms, Id()));
  }

  lemma {:induction false} OneRoom(r: int, total: int)
    requires 0 < total <= r
    ensures IsDrainable([r], total, 0)
  {
    SumSingle(r, Id());
    assert [r][..0] == [];
    AllNeeded([r], total);
  }

  lemma {:induction false} TwoRooms(r: int, total: int)
    requires 0 < r < total <= r + r
    ensures IsDrainable([r, r], total, 0)
  {
    SumSingle(r, Id());
    SumConcat([r], [r], Id());
    assert [r, r] == [r] + [r] && [r, r][..0] == [] && [r, r][..1] == [r];
    AllNeeded([r, r], total);
  }

  lemma {:induction false} SceneUse(s: Scene, ceiling: real)
    ensures var v := Packed(s.Snap(), ceiling);
      && UsedOn(v, s.A().name).milliCPU == s.movesCpu + s.staysCpu
      && UsedOn(v, s.B().name).milliCPU == s.otherCpu
  {
    ScenePacked(s, ceiling);
    SumConcat([s.Moves()], [s.Stays()], Cpu());
    SumSingle(s.Moves(), Cpu());
    SumSingle(s.Stays(), Cpu());
    SumSingle(s.Other(), Cpu());
    assert [s.Moves(), s.Stays()] == [s.Moves()] + [s.Stays()];
  }

  // ---------------------------------------------------------------- the three clusters

  /** The script says that nothing can come out, and a plan drains a node. */
  ghost predicate Beaten(s: Scene, ceiling: real) {
    && IsDrainable(Rooms(s.Cap(), ceiling, s.Snap().nodes), MovableCpu(s.Cap()), 0)
    && PlanFor(s.Snap(), map[], PlainOptions(ceiling)).steps != []
  }

  /** How full the planner takes a node with this much free to be. */
  function UsedRatio(alloc: Resources, free: Resources): real { alloc.Sub(free).DominantRatio(alloc) }

  lemma {:induction false} SceneSizes(s: Scene)
    ensures s.Moves().Footprint() == Resources(s.movesCpu, 0, 1)
    ensures s.Stays().Footprint() == Resources(s.staysCpu, 0, 1)
    ensures s.Other().Footprint() == Resources(s.otherCpu, 0, 1)
    ensures s.A().allocatable == Resources(s.cpuA, 1000, 10) && s.B().allocatable == Resources(s.cpuB, 1000, 10)
  {
  }

  /** What is free on the two nodes of a scene. */
  ghost predicate Leaves(s: Scene, ceiling: real, freeA: Resources, freeB: Resources) {
    s.FreeA(ceiling) == freeA && s.FreeB(ceiling) == freeB
  }

  lemma {:induction false} EmptierPlans(s: Scene, ceiling: real, freeA: Resources, freeB: Resources)
    requires Leaves(s, ceiling, freeA, freeB) && Resources(s.movesCpu, 0, 1).Fits(freeB)
    requires UsedRatio(Resources(s.cpuA, 1000, 10), freeA) < UsedRatio(Resources(s.cpuB, 1000, 10), freeB)
    ensures PlanFor(s.Snap(), map[], PlainOptions(ceiling)).steps != []
  {
    SceneSizes(s);
    ScenePacked(s, ceiling);
    ScenePlans(s, ceiling);
  }

  lemma {:induction false} SceneBeaten(s: Scene, ceiling: real, rooms: seq<int>, total: int)
    requires s.daemon ==> s.staysCpu == 0
    requires PlanFor(s.Snap(), map[], PlainOptions(ceiling)).steps != []
    requires rooms == (if s.cordoned then [] else [RoomFor(s.cpuA, 0, ceiling)]) + [RoomFor(s.cpuB, 0, ceiling)]
    requires total == s.movesCpu + s.staysCpu + s.otherCpu && IsDrainable(rooms, total, 0)
    ensures Beaten(s, ceiling)
  {
    SceneFigures(s, ceiling);
    assert MovableCpu(s.Cap()) == total;
    assert Rooms(s.Cap(), ceiling, s.Snap().nodes) == rooms;
  }

  lemma {:induction false} OtherNeeded(s: Scene, ceiling: real, r: int)
    requires s.cordoned && RoomFor(s.cpuB, 0, ceiling) == r && (s.daemon ==> s.staysCpu == 0)
    requires 0 < s.movesCpu + s.staysCpu + s.otherCpu <= r
    requires PlanFor(s.Snap(), map[], PlainOptions(ceiling)).steps != []
    ensures Beaten(s, ceiling)
  {
    var total := s.movesCpu + s.staysCpu + s.otherCpu;
    OneRoom(r, total);
    SceneBeaten(s, ceiling, [r], total);
  }

  lemma {:induction false} BothNeeded(s: Scene, ceiling: real, r: int)
    requires !s.cordoned && RoomFor(s.cpuA, 0, ceiling) == r == RoomFor(s.cpuB, 0, ceiling)
    requires (s.daemon ==> s.staysCpu == 0) && 0 < r < s.movesCpu + s.staysCpu + s.otherCpu <= r + r
    requires PlanFor(s.Snap(), map[], PlainOptions(ceiling)).steps != []
    ensures Beaten(s, ceiling)
  {
    var total := s.movesCpu + s.staysCpu + s.otherCpu;
    TwoRooms(r, total);
    SceneBeaten(s, ceiling, [r, r], total);
  }

  lemma {:induction false} SceneSplit(s: Scene)
    ensures CordonsSettled(s.Snap()) <==> !s.cordoned
    ensures PinnedOrMovable(s.Snap()) <==> s.daemon
  {
    var snap := s.Snap();
    assert s.Moves() in snap.pods && s.Stays() in snap.pods && s.A() in snap.nodes;
  }

  lemma {:induction false} SceneUnderCeiling(s: Scene, snap: Snapshot, ceiling: real)
    requires snap.nodes == [s.A(), s.B()]
    requires UsedOn(Packed(snap, ceiling), s.A().name).milliCPU == s.movesCpu + s.staysCpu
    requires UsedOn(Packed(snap, ceiling), s.B().name).milliCPU == s.otherCpu
    ensures UnderCeiling(snap, ceiling)
       <==> (s.cordoned || s.movesCpu + s.staysCpu <= Basis(s.A(), ceiling).milliCPU)
            && s.otherCpu <= Basis(s.B(), ceiling).milliCPU
  {
    TwoNodes(snap, s.A(), s.B(), ceiling, s.movesCpu + s.staysCpu, s.otherCpu);
  }

  lemma {:induction false} TwoNodes(snap: Snapshot, a: Node, b: Node, ceiling: real, usedA: int, usedB: int)
    requires snap.nodes == [a, b] && !b.unschedulable
    requires UsedOn(Packed(snap, ceiling), a.name).milliCPU == usedA
    requires UsedOn(Packed(snap, ceiling), b.name).milliCPU == usedB
    ensures UnderCeiling(snap, ceiling)
       <==> (a.unschedulable || usedA <= Basis(a, ceiling).milliCPU) && usedB <= Basis(b, ceiling).milliCPU
  {
    assert snap.nodes[0] == a && snap.nodes[1] == b;
  }

  ghost predicate CordonedScene(s: Scene) {
    s.cpuA == 1000 && s.cpuB == 200 && s.movesCpu == 100 && s.staysCpu == 0 && s.otherCpu == 50
    && s.cordoned && s.daemon
  }

  lemma {:induction false} CordonedPlans(s: Scene)
    requires CordonedScene(s)
    ensures PlanFor(s.Snap(), map[], PlainOptions(1.0)).steps != []
  {
    SceneSizes(s);
    EmptierPlans(s, 1.0, Resources(900, 1000, 8), Resources(150, 1000, 9));
  }

  lemma {:induction false} CordonedScript(s: Scene)
    requires CordonedScene(s)
    ensures Beaten(s, 1.0)
  {
    CordonedPlans(s);
    OtherNeeded(s, 1.0, 200);
  }

  /** A cordoned node is no room to the script, but the planner drains it. */
  lemma {:induction false} CordonedNodeBeats(s: Scene)
    requires CordonedScene(s)
    ensures Beaten(s, 1.0) && WellRead(s) && !CordonsSettled(s.Snap())
    ensures PinnedOrMovable(s.Snap()) && UnderCeiling(s.Snap(), 1.0)
  {
    CordonedScript(s);
    SceneAdmissible(s);
    SceneSplit(s);
    SceneUse(s, 1.0);
    SceneUnderCeiling(s, s.Snap(), 1.0);
  }

  ghost predicate OverfullScene(s: Scene, ceiling: real) {
    s.cpuA == 100 && s.cpuB == 100 && s.movesCpu == 0 && s.staysCpu == 0 && s.otherCpu == 60
    && !s.cordoned && s.daemon && ceiling == 0.5
  }

  lemma {:induction false} OverfullPlans(s: Scene, ceiling: real)
    requires OverfullScene(s, ceiling)
    ensures PlanFor(s.Snap(), map[], PlainOptions(ceiling)).steps != []
  {
    SceneSizes(s);
    EmptierPlans(s, ceiling, Resources(50, 500, 8), Resources(0, 500, 9));
  }

  lemma {:induction false} HalfRoom(s: Scene, ceiling: real)
    requires OverfullScene(s, ceiling)
    ensures RoomFor(s.cpuA, 0, ceiling) == 50 == RoomFor(s.cpuB, 0, ceiling)
  {
    assert Truncate(100.0 * ceiling) == 50;
  }

  lemma {:induction false} OverfullScript(s: Scene, ceiling: real)
    requires OverfullScene(s, ceiling) && RoomFor(s.cpuA, 0, ceiling) == 50 == RoomFor(s.cpuB, 0, ceiling)
    ensures Beaten(s, ceiling)
  {
    OverfullPlans(s, ceiling);
    BothNeeded(s, ceiling, 50);
  }

  /** A node above its ceiling keeps more than its room, and still takes a pod that asks for nothing. */
  lemma {:induction false} OverfullNodeBeats(s: Scene, ceiling: real)
    requires OverfullScene(s, ceiling)
    ensures Beaten(s, ceiling) && WellRead(s) && !UnderCeiling(s.Snap(), ceiling)
    ensures PinnedOrMovable(s.Snap()) && CordonsSettled(s.Snap())
  {
    HalfRoom(s, ceiling);
    OverfullScript(s, ceiling);
    SceneAdmissible(s);
    SceneSplit(s);
    SceneUse(s, ceiling);
    SceneUnderCeiling(s, s.Snap(), ceiling);
  }

  ghost predicate HeldScene(s: Scene) {
    s.cpuA == 100 && s.cpuB == 100 && s.movesCpu == 10 && s.staysCpu == 60 && s.otherCpu == 75
    && !s.cordoned && !s.daemon
  }

  lemma {:induction false} HeldPlans(s: Scene)
    requires HeldScene(s)
    ensures PlanFor(s.Snap(), map[], PlainOptions(1.0)).steps != []
  {
    SceneSizes(s);
    EmptierPlans(s, 1.0, Resources(30, 1000, 8), Resources(25, 1000, 9));
  }

  lemma {:induction false} HeldScript(s: Scene)
    requires HeldScene(s)
    ensures Beaten(s, 1.0)
  {
    HeldPlans(s);
    BothNeeded(s, 1.0, 100);
  }

  /** A pod not to be disrupted needs room elsewhere to the script, but the planner leaves it where it is. */
  lemma {:induction false} HeldPodBeats(s: Scene)
    requires HeldScene(s)
    ensures Beaten(s, 1.0) && WellRead(s) && !PinnedOrMovable(s.Snap())
    ensures CordonsSettled(s.Snap()) && UnderCeiling(s.Snap(), 1.0)
  {
    HeldScript(s);
    SceneAdmissible(s);
    SceneSplit(s);
    SceneUse(s, 1.0);
    SceneUnderCeiling(s, s.Snap(), 1.0);
  }
}
