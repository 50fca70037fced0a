/**
  The two views of a plan in the browser (ui/src/layout.ts): the detail view recomputes everything from
  where each pod stands at a step, the density view adjusts the server's per-node figures move by
  move. They agree on counts and on emptied nodes; their loads differ by what finished pods request.
 */
module Layout {
  import opened Model
  import opened Sums
  import opened Planning

  // ---------------------------------------------------------------- what the server sends

  /** Pods drawn at all: those with a node to sit on. */
  function Drawn(pods: seq<Pod>): seq<Pod> {
    if pods == [] then [] else
      var rest, last := Drawn(pods[..|pods| - 1]), pods[|pods| - 1];
      if last.nodeName == "" then rest else rest + [last]
  }

  ghost function OnNode(n: string): Pod -> int { (p: Pod) => if p.nodeName == n then 1 else 0 }
  ghost function PinnedAt(n: string): Pod -> int { (p: Pod) => if p.nodeName == n && !p.IsMovable() then 1 else 0 }
  ghost function FinishedCpu(n: string): Pod -> int {
    (p: Pod) => if p.nodeName == n && p.Finished() then p.requests.milliCPU else 0
  }
  ghost function FinishedMem(n: string): Pod -> int {
    (p: Pod) => if p.nodeName == n && p.Finished() then p.requests.memoryBytes else 0
  }

  /** One node of the payload, as the server counted it. */
  datatype NodeInfo = NodeInfo(name: string, podCount: int, pinnedCount: int, cpuRequested: int, memRequested: int)

  /** The server's own count of what a snapshot puts on a node. */
  ghost predicate CountedBy(info: NodeInfo, pods: seq<Pod>) {
    && info.name != ""
    && info.podCount == Sum(pods, OnNode(info.name))
    && info.pinnedCount == Sum(pods, PinnedAt(info.name))
    && info.cpuRequested == RequestedOnNode(pods, info.name).milliCPU
    && info.memRequested == RequestedOnNode(pods, info.name).memoryBytes
  }

  function AtNode(m: map<string, int>, k: string): int { if k in m then m[k] else 0 }

  method CountOccupancy(pods: seq<Pod>) returns (count: map<string, int>, pinned: map<string, int>)
    ensures forall n | n != "" ::
      AtNode(count, n) == Sum(pods, OnNode(n)) && AtNode(pinned, n) == Sum(pods, PinnedAt(n))
  {
    count, pinned := map[], map[];
    for i := 0 to |pods|
      invariant forall n | n != "" ::
        AtNode(count, n) == Sum(pods[..i], OnNode(n)) && AtNode(pinned, n) == Sum(pods[..i], PinnedAt(n))
    {
      assert pods[..i + 1][..i] == pods[..i];
      var p := pods[i];
      if p.nodeName == "" { continue; }
      count := count[p.nodeName := AtNode(count, p.nodeName) + 1];
      if !p.IsMovable() { pinned := pinned[p.nodeName := AtNode(pinned, p.nodeName) + 1]; }
    }
    assert pods[..|pods|] == pods;
  }

  // ------------------------------------------------------------------ moves up to a step

  function KeyOf(m: Move): string { m.namespace + "/" + m.pod }

  /** The moves of the steps up to the first one numbered beyond `step`. */
  function Taken(steps: seq<PlanStep>, step: int): seq<Move> {
    if steps == [] || steps[0].sequenceNumber > step then [] else steps[0].moves + Taken(steps[1..], step)
  }

  function Reposition(place: map<string, string>, m: Move): map<string, string> { place[KeyOf(m) := m.toNode] }

  function HomesOf(pods: seq<Pod>): map<string, string> {
    if pods == [] then map[] else HomesOf(pods[..|pods| - 1])[pods[|pods| - 1].Key() := pods[|pods| - 1].nodeName]
  }

  /** Where each pod lives after the moves. */
  ghost function PlacedAt(pods: seq<Pod>, moves: seq<Move>): map<string, string> {
    Fold(Reposition, HomesOf(pods), moves)
  }

  function HostOf(place: map<string, string>, p: Pod): string {
    if p.Key() in place then place[p.Key()] else p.nodeName
  }

  method HomePlaces(pods: seq<Pod>) returns (place: map<string, string>)
    ensures place == HomesOf(pods)
  {
    place := map[];
    for i := 0 to |pods|
      invariant place == HomesOf(pods[..i])
    {
      assert pods[..i + 1][..i] == pods[..i];
      place := place[pods[i].Key() := pods[i].nodeName];
    }
    assert pods[..|pods|] == pods;
  }

  method PlacementAtStep(pods: seq<Pod>, steps: seq<PlanStep>, step: int) returns (place: map<string, string>)
    ensures place == PlacedAt(pods, Taken(steps, step))
  {
    place := HomePlaces(pods);
    ghost var done: seq<Move> := [];
    for i := 0 to |steps|
      invariant place == PlacedAt(pods, done) && Taken(steps, step) == done + Taken(steps[i..], step)
    {
      if steps[i].sequenceNumber > step { break; }
      place := RepositionAll(pods, place, done, steps[i].moves);
      done := done + steps[i].moves;
      assert steps[i..][1..] == steps[i + 1..];
    }
    assert Taken(steps, step) == done;
  }

  method RepositionAll(ghost pods: seq<Pod>, start: map<string, string>, ghost done: seq<Move>, moves: seq<Move>)
    returns (place: map<string, string>)
    requires start == PlacedAt(pods, done)
    ensures place == PlacedAt(pods, done + moves)
  {
    place := start;
    assert done + moves[..0] == done;
    for j := 0 to |moves|
      invariant place == PlacedAt(pods, done + moves[..j])
    {
      assert (done + moves[..j + 1])[..|done| + j] == done + moves[..j];
      place := place[KeyOf(moves[j]) := moves[j].toNode];
    }
    assert moves[..|moves|] == moves;
  }

  // ------------------------------------------------------------------- the detail view

  ghost function Here(place: map<string, string>, n: string, w: Pod -> int): Pod -> int {
    (p: Pod) => if HostOf(place, p) == n then w(p) else 0
  }

  ghost function One(): Pod -> int { (p: Pod) => 1 }
  ghost function PodCpu(): Pod -> int { (p: Pod) => p.requests.milliCPU }
  ghost function PodMem(): Pod -> int { (p: Pod) => p.requests.memoryBytes }
  ghost function IfMovable(): Pod -> int { (p: Pod) => if p.IsMovable() then 1 else 0 }
  ghost function IfPinned(): Pod -> int { (p: Pod) => if p.IsMovable() then 0 else 1 }

  /** What stands on node n, added up pod by pod. */
  ghost function Standing(pods: seq<Pod>, place: map<string, string>, n: string, w: Pod -> int): int {
    Sum(pods, Here(place, n, w))
  }

  datatype Tile = Tile(load: int, mem: int, movable: int)

  /** The pods standing on node n, in order. */
  function StandersOn(pods: seq<Pod>, place: map<string, string>, n: string): seq<Pod> {
    if pods == [] then [] else
      var rest, last := StandersOn(pods[..|pods| - 1], place, n), pods[|pods| - 1];
      if HostOf(place, last) == n then rest + [last] else rest
  }

  lemma {:induction false} StandersAddUp(pods: seq<Pod>, place: map<string, string>, n: string, w: Pod -> int)
    ensures Sum(StandersOn(pods, place, n), w) == Standing(pods, place, n, w)
  {
    if pods != [] {
      var rest := StandersOn(pods[..|pods| - 1], place, n);
      StandersAddUp(pods[..|pods| - 1], place, n, w);
      assert (rest + [pods[|pods| - 1]])[..|rest|] == rest;
    }
  }

  /** Pods by the node they stand on, for the nodes drawn. */
  method Occupy(nodes: seq<NodeInfo>, pods: seq<Pod>, place: map<string, string>)
      returns (occupants: map<string, seq<Pod>>)
    ensures forall n | n in nodes :: n.name in occupants
    ensures forall x | x in occupants :: occupants[x] == StandersOn(pods, place, x)
  {
    occupants := map[];
    for i := 0 to |nodes|
      invariant forall n | n in nodes[..i] :: n.name in occupants
      invariant forall x | x in occupants :: occupants[x] == []
    {
      occupants := occupants[nodes[i].name := []];
    }
    for i := 0 to |pods|
      invariant forall n | n in nodes :: n.name in occupants
      invariant forall x | x in occupants :: occupants[x] == StandersOn(pods[..i], place, x)
    {
      assert pods[..i + 1][..i] == pods[..i];
      var host := HostOf(place, pods[i]);
      if host in occupants { occupants := occupants[host := occupants[host] + [pods[i]]]; }
    }
    assert pods[..|pods|] == pods;
  }

  method DetailNode(here: seq<Pod>) returns (t: Tile)
    ensures t == Tile(Sum(here, PodCpu()), Sum(here, PodMem()), Sum(here, IfMovable()))
  {
    var load, mem, movable := 0, 0, 0;
    for i := 0 to |here|
      invariant load == Sum(here[..i], PodCpu()) && mem == Sum(here[..i], PodMem())
          && movable == Sum(here[..i], IfMovable())
    {
      assert here[..i + 1][..i] == here[..i];
      load, mem := load + here[i].requests.milliCPU, mem + here[i].requests.memoryBytes;
      if here[i].IsMovable() { movable := movable + 1; }
    }
    assert here[..|here|] == here;
    t := Tile(load, mem, movable);
  }

  /** Loads and emptied nodes at a step, from where the pods stand. */
  method DetailLayout(nodes: seq<NodeInfo>, pods: seq<Pod>, place: map<string, string>)
    returns (load: map<string, int>, mem: map<string, int>, emptied: set<string>)
    ensures forall n | n in nodes :: n.name in load && load[n.name] == Standing(pods, place, n.name, PodCpu())
    ensures forall n | n in nodes :: n.name in mem && mem[n.name] == Standing(pods, place, n.name, PodMem())
    ensures forall n | n in nodes :: n.name in emptied <==> Standing(pods, place, n.name, IfMovable()) == 0
  {
    var occupants := Occupy(nodes, pods, place);
    load, mem, emptied := map[], map[], {};
    for i := 0 to |nodes|
      invariant forall n | n in nodes[..i] :: n.name in load && load[n.name] == Standing(pods, place, n.name, PodCpu())
      invariant forall n | n in nodes[..i] :: n.name in mem && mem[n.name] == Standing(pods, place, n.name, PodMem())
      invariant forall n | n in nodes[..i] :: n.name in emptied <==> Standing(pods, place, n.name, IfMovable()) == 0
      invariant forall x | x in emptied :: Standing(pods, place, x, IfMovable()) == 0
    {
      assert nodes[..i + 1] == nodes[..i] + [nodes[i]] && nodes[i] in nodes;
      var t := DetailNode(occupants[nodes[i].name]);
      StandersAddUp(pods, place, nodes[i].name, PodCpu());
      StandersAddUp(pods, place, nodes[i].name, PodMem());
      StandersAddUp(pods, place, nodes[i].name, IfMovable());
      load, mem := load[nodes[i].name := t.load], mem[nodes[i].name := t.mem];
      if t.movable == 0 { emptied := emptied + {nodes[i].name}; }
    }
    assert nodes[..|nodes|] == nodes;
  }

  // ------------------------------------------------------------------ the density view

  /** What a move adds to node n: its weight where it lands, less its weight where it left. */
  ghost function Shift(n: string, u: Move -> int): Move -> int {
    (m: Move) => (if m.toNode == n then u(m) else 0) - (if m.fromNode == n then u(m) else 0)
  }

  ghost function Each(): Move -> int { (m: Move) => 1 }
  ghost function MoveCpu(): Move -> int { (m: Move) => m.cpuMilli }
  ghost function MoveMem(): Move -> int { (m: Move) => m.memoryBytes }

  function Moved(at: map<string, int>, m: Move, amount: int): map<string, int> {
    var left := at[m.fromNode := AtNode(at, m.fromNode) - amount];
    left[m.toNode := AtNode(left, m.toNode) + amount]
  }

  /** Figures started at `start` and carried along by the moves. */
  ghost predicate Carried(at: map<string, int>, start: map<string, int>, moves: seq<Move>, u: Move -> int) {
    forall n :: AtNode(at, n) == AtNode(start, n) + Sum(moves, Shift(n, u))
  }

  lemma {:induction false} CarriedStep(at: map<string, int>, start: map<string, int>, moves: seq<Move>, u: Move -> int,
                                       m: Move)
    requires Carried(at, start, moves, u)
    ensures Carried(Moved(at, m, u(m)), start, moves + [m], u)
  {
    assert (moves + [m])[..|moves|] == moves;
    forall n ensures AtNode(Moved(at, m, u(m)), n) == AtNode(start, n) + Sum(moves + [m], Shift(n, u)) {
      assert AtNode(at, n) == AtNode(start, n) + Sum(moves, Shift(n, u));
    }
  }

  datatype Figures = Figures(count: map<string, int>, load: map<string, int>, mem: map<string, int>)

  ghost predicate AllCarried(f: Figures, start: Figures, moves: seq<Move>) {
    Carried(f.count, start.count, moves, Each()) && Carried(f.load, start.load, moves, MoveCpu())
    && Carried(f.mem, start.mem, moves, MoveMem())
  }

  /** The server's figures by node name. */
  ghost predicate StartsFrom(f: Figures, nodes: seq<NodeInfo>) {
    forall n | n in nodes :: AtNode(f.count, n.name) == n.podCount && AtNode(f.load, n.name) == n.cpuRequested
      && AtNode(f.mem, n.name) == n.memRequested
  }

  ghost predicate UniqueNames(nodes: seq<NodeInfo>) {
    forall i, j | 0 <= i < j < |nodes| :: nodes[i].name != nodes[j].name
  }

  method StartFigures(nodes: seq<NodeInfo>) returns (f: Figures)
    requires UniqueNames(nodes)
    ensures StartsFrom(f, nodes)
  {
    f := Figures(map[], map[], map[]);
    for i := 0 to |nodes|
      invariant StartsFrom(f, nodes[..i])
    {
      assert nodes[..i + 1] == nodes[..i] + [nodes[i]];
      var n := nodes[i];
      f := Figures(f.count[n.name := n.podCount], f.load[n.name := n.cpuRequested], f.mem[n.name := n.memRequested]);
    }
    assert nodes[..|nodes|] == nodes;
  }

  method CarryMoves(start: Figures, ghost origin: Figures, ghost done: seq<Move>, moves: seq<Move>) returns (f: Figures)
    requires AllCarried(start, origin, done)
    ensures AllCarried(f, origin, done + moves)
  {
    f := start;
    assert done + moves[..0] == done;
    for j := 0 to |moves|
      invariant AllCarried(f, origin, done + moves[..j])
    {
      var m := moves[j];
      CarriedStep(f.count, origin.count, done + moves[..j], Each(), m);
      CarriedStep(f.load, origin.load, done + moves[..j], MoveCpu(), m);
      CarriedStep(f.mem, origin.mem, done + moves[..j], MoveMem(), m);
      assert done + moves[..j + 1] == done + moves[..j] + [m];
      f := Figures(Moved(f.count, m, 1), Moved(f.load, m, m.cpuMilli), Moved(f.mem, m, m.memoryBytes));
    }
    assert moves[..|moves|] == moves;
  }

  /** The density view's figures after the steps up to `step`, starting from what the server counted. */
  method DensityFigures(nodes: seq<NodeInfo>, steps: seq<PlanStep>, step: int) returns (f: Figures)
    requires UniqueNames(nodes)
    ensures forall n | n in nodes ::
      && AtNode(f.count, n.name) == n.podCount + Sum(Taken(steps, step), Shift(n.name, Each()))
      && AtNode(f.load, n.name) == n.cpuRequested + Sum(Taken(steps, step), Shift(n.name, MoveCpu()))
      && AtNode(f.mem, n.name) == n.memRequested + Sum(Taken(steps, step), Shift(n.name, MoveMem()))
  {
    var start := StartFigures(nodes);
    f := start;
    ghost var done: seq<Move> := [];
    for i := 0 to |steps|
      invariant AllCarried(f, start, done) && Taken(steps, step) == done + Taken(steps[i..], step)
    {
      if steps[i].sequenceNumber > step { break; }
      f := CarryMoves(f, start, done, steps[i].moves);
      done := done + steps[i].moves;
      assert steps[i..][1..] == steps[i + 1..];
    }
    assert Taken(steps, step) == done;
  }

  method TilesFrom(nodes: seq<NodeInfo>, f: Figures)
      returns (load: map<string, int>, mem: map<string, int>, emptied: set<string>)
    requires UniqueNames(nodes)
    ensures forall n | n in nodes :: n.name in load && load[n.name] == Clamped(AtNode(f.load, n.name))
    ensures forall n | n in nodes :: n.name in mem && mem[n.name] == Clamped(AtNode(f.mem, n.name))
    ensures forall n | n in nodes :: n.name in emptied <==> AtNode(f.count, n.name) <= n.pinnedCount
  {
    load, mem, emptied := map[], map[], {};
    for i := 0 to |nodes|
      invariant forall n | n in nodes[..i] :: n.name in load && load[n.name] == Clamped(AtNode(f.load, n.name))
      invariant forall n | n in nodes[..i] :: n.name in mem && mem[n.name] == Clamped(AtNode(f.mem, n.name))
      invariant forall n | n in nodes[..i] :: n.name in emptied <==> AtNode(f.count, n.name) <= n.pinnedCount
      invariant forall x | x in emptied :: exists k | 0 <= k < i :: nodes[k].name == x
    {
      assert nodes[..i + 1] == nodes[..i] + [nodes[i]];
      var n := nodes[i];
      load, mem := load[n.name := Clamped(AtNode(f.load, n.name))], mem[n.name := Clamped(AtNode(f.mem, n.name))];
      if AtNode(f.count, n.name) <= n.pinnedCount { emptied := emptied + {n.name}; }
    }
    assert nodes[..|nodes|] == nodes;
  }

  method DensityLayout(nodes: seq<NodeInfo>, steps: seq<PlanStep>, step: int)
    returns (load: map<string, int>, mem: map<string, int>, emptied: set<string>)
    requires UniqueNames(nodes)
    ensures forall n | n in nodes :: n.name in load && load[n.name] == Clamped(DensityLoad(n, Taken(steps, step)))
    ensures forall n | n in nodes :: n.name in mem && mem[n.name] == Clamped(DensityMem(n, Taken(steps, step)))
    ensures forall n | n in nodes :: n.name in emptied <==> DensityCount(n, Taken(steps, step)) <= n.pinnedCount
  {
    var f := DensityFigures(nodes, steps, step);
    load, mem, emptied := TilesFrom(nodes, f);
  }

  function Clamped(x: int): int { if x < 0 then 0 else x }

  ghost function DensityCount(n: NodeInfo, moves: seq<Move>): int { n.podCount + Sum(moves, Shift(n.name, Each())) }

  ghost function DensityLoad(n: NodeInfo, moves: seq<Move>): int {
    n.cpuRequested + Sum(moves, Shift(n.name, MoveCpu()))
  }

  ghost function DensityMem(n: NodeInfo, moves: seq<Move>): int {
    n.memRequested + Sum(moves, Shift(n.name, MoveMem()))
  }

  // -------------------------------------------------------------------- agreement

  ghost predicate Carries(m: Move, p: Pod) {
    && p.IsMovable() && KeyOf(m) == p.Key()
    && m.cpuMilli == p.requests.milliCPU && m.memoryBytes == p.requests.memoryBytes
  }

  /** Each move takes a movable pod, with what it requests, from where the moves before it left it. */
  ghost predicate Chains(pods: seq<Pod>, moves: seq<Move>) {
    forall i | 0 <= i < |moves| ::
      exists p | p in pods :: Carries(moves[i], p) && HostOf(PlacedAt(pods, moves[..i]), p) == moves[i].fromNode
  }

  lemma {:induction false} ChainsFront(pods: seq<Pod>, moves: seq<Move>)
    requires Chains(pods, moves) && moves != []
    ensures Chains(pods, moves[..|moves| - 1])
  {
    var front := moves[..|moves| - 1];
    forall i | 0 <= i < |front|
      ensures exists p | p in pods :: Carries(front[i], p) && HostOf(PlacedAt(pods, front[..i]), p) == front[i].fromNode
    {
      assert front[..i] == moves[..i] && front[i] == moves[i];
    }
  }

  lemma {:induction false} UniqueIsDistinct(pods: seq<Pod>)
    requires UniquePods(pods)
    ensures Distinct(pods)
    ensures forall p, q | p in pods && q in pods && p.Key() == q.Key() :: p == q
  {
  }

  lemma {:induction false} HomesAreHome(pods: seq<Pod>)
    requires UniquePods(pods)
    ensures forall p | p in pods :: HostOf(HomesOf(pods), p) == p.nodeName
    ensures forall k | k in HomesOf(pods) :: exists p | p in pods :: p.Key() == k
  {
    if pods != [] {
      var front, last := pods[..|pods| - 1], pods[|pods| - 1];
      HomesAreHome(front);
      assert forall p | p in pods :: p in front || p == last;
      assert forall p | p in front :: p in pods && p.Key() != last.Key();
    }
  }

  /** One more move shifts what stands on n by the pod's weight, where it lands and where it left. */
  lemma {:induction false} OneMove(pods: seq<Pod>, place: map<string, string>, p: Pod, m: Move, n: string,
                                   w: Pod -> int)
    requires UniquePods(pods) && p in pods && KeyOf(m) == p.Key() && HostOf(place, p) == m.fromNode
    ensures Standing(pods, Reposition(place, m), n, w)
         == Standing(pods, place, n, w) + (if m.toNode == n then w(p) else 0) - (if m.fromNode == n then w(p) else 0)
  {
    UniqueIsDistinct(pods);
    SumChange(pods, p, Here(place, n, w), Here(Reposition(place, m), n, w));
  }

  ghost function AtHome(n: string, w: Pod -> int): Pod -> int { (p: Pod) => if p.nodeName == n then w(p) else 0 }

  /** What stands on a node after the moves is what was there at home, shifted by the moves. */
  lemma {:induction false} StandingFollows(pods: seq<Pod>, moves: seq<Move>, n: string, w: Pod -> int, u: Move -> int)
    requires UniquePods(pods) && Chains(pods, moves)
    requires forall m, p | Carries(m, p) :: u(m) == w(p)
    ensures Standing(pods, PlacedAt(pods, moves), n, w) == Sum(pods, AtHome(n, w)) + Sum(moves, Shift(n, u))
  {
    if moves == [] {
      HomesAreHome(pods);
      SumEqual(pods, Here(HomesOf(pods), n, w), AtHome(n, w));
    } else {
      var k := |moves| - 1;
      ChainsFront(pods, moves);
      StandingFollows(pods, moves[..k], n, w, u);
      var p :| p in pods && Carries(moves[k], p) && HostOf(PlacedAt(pods, moves[..k]), p) == moves[k].fromNode;
      OneMove(pods, PlacedAt(pods, moves[..k]), p, moves[k], n, w);
    }
  }

  lemma {:induction false} DrawnSum(pods: seq<Pod>, f: Pod -> int)
    requires forall p | p in pods && p.nodeName == "" :: f(p) == 0
    ensures Sum(Drawn(pods), f) == Sum(pods, f)
  {
    if pods != [] {
      var front, rest := pods[..|pods| - 1], Drawn(pods[..|pods| - 1]);
      assert pods[|pods| - 1] in pods && forall p | p in front :: p in pods;
      DrawnSum(front, f);
      assert (rest + [pods[|pods| - 1]])[..|rest|] == rest;
    }
  }

  lemma {:induction false} DrawnUnique(pods: seq<Pod>)
    requires UniquePods(pods)
    ensures UniquePods(Drawn(pods)) && forall p :: p in Drawn(pods) <==> p in pods && p.nodeName != ""
  {
    if pods != [] {
      var front, last := pods[..|pods| - 1], pods[|pods| - 1];
      DrawnUnique(front);
      assert pods == front + [last];
      forall p | p in Drawn(front) ensures p.Key() != last.Key() {
        var i :| 0 <= i < |front| && front[i] == p;
        assert pods[i] == p;
      }
    }
  }

  /** The server's figure for a node is what its drawn pods weigh at home. */
  lemma {:induction false} ServerFigure(pods: seq<Pod>, n: string, f: Pod -> int, w: Pod -> int)
    requires n != "" && forall p | p in pods :: f(p) == AtHome(n, w)(p)
    ensures Sum(Drawn(pods), AtHome(n, w)) == Sum(pods, f)
  {
    SumEqual(pods, f, AtHome(n, w));
    DrawnSum(pods, AtHome(n, w));
  }

  /** After any step of a chained plan the density view's count of a node is the number of pods the detail
      view draws on it. */
  lemma {:induction false} CountsAgree(pods: seq<Pod>, info: NodeInfo, moves: seq<Move>)
    requires UniquePods(pods) && CountedBy(info, pods) && Chains(Drawn(pods), moves)
    ensures DensityCount(info, moves) == Standing(Drawn(pods), PlacedAt(Drawn(pods), moves), info.name, One())
  {
    DrawnUnique(pods);
    ServerFigure(pods, info.name, OnNode(info.name), One());
    StandingFollows(Drawn(pods), moves, info.name, One(), Each());
  }

  ghost function NoWeight(): Move -> int { (m: Move) => 0 }

  lemma {:induction false} NoShift(moves: seq<Move>, n: string)
    ensures Sum(moves, Shift(n, NoWeight())) == 0
  {
    if moves != [] { NoShift(moves[..|moves| - 1], n); }
  }

  /** Both views call the same nodes emptied, after any step of a chained plan. */
  lemma {:induction false} EmptiedAgree(pods: seq<Pod>, info: NodeInfo, moves: seq<Move>)
    requires UniquePods(pods) && CountedBy(info, pods) && Chains(Drawn(pods), moves)
    ensures DensityCount(info, moves) <= info.pinnedCount
       <==> Standing(Drawn(pods), PlacedAt(Drawn(pods), moves), info.name, IfMovable()) == 0
  {
    var drawn, place, n := Drawn(pods), PlacedAt(Drawn(pods), moves), info.name;
    DrawnUnique(pods);
    CountsAgree(pods, info, moves);
    ServerFigure(pods, n, PinnedAt(n), IfPinned());
    StandingFollows(drawn, moves, n, IfPinned(), NoWeight());
    NoShift(moves, n);
    SumPlus(drawn, Here(place, n, IfMovable()), Here(place, n, IfPinned()), Here(place, n, One()));
    SumNonNegative(drawn, Here(place, n, IfMovable()));
  }

  ghost function LiveCpu(): Pod -> int { (p: Pod) => if p.Finished() then 0 else p.requests.milliCPU }
  ghost function LiveMem(): Pod -> int { (p: Pod) => if p.Finished() then 0 else p.requests.memoryBytes }
  ghost function DoneCpu(): Pod -> int { (p: Pod) => if p.Finished() then p.requests.milliCPU else 0 }
  ghost function DoneMem(): Pod -> int { (p: Pod) => if p.Finished() then p.requests.memoryBytes else 0 }

  /** The density view's load is what the unfinished pods standing there request, so it is never negative. */
  lemma {:induction false} DensityLoadIsLive(pods: seq<Pod>, info: NodeInfo, moves: seq<Move>)
    requires UniquePods(pods) && CountedBy(info, pods) && Chains(Drawn(pods), moves)
    ensures DensityLoad(info, moves) == Standing(Drawn(pods), PlacedAt(Drawn(pods), moves), info.name, LiveCpu())
    ensures DensityMem(info, moves) == Standing(Drawn(pods), PlacedAt(Drawn(pods), moves), info.name, LiveMem())
    ensures NonNegativeRequests(pods) ==> 0 <= DensityLoad(info, moves) && 0 <= DensityMem(info, moves)
  {
    var drawn, n := Drawn(pods), info.name;
    var place := PlacedAt(drawn, moves);
    DrawnUnique(pods);
    ServerFigure(pods, n, CpuOn(n), LiveCpu());
    StandingFollows(drawn, moves, n, LiveCpu(), MoveCpu());
    ServerFigure(pods, n, MemOn(n), LiveMem());
    StandingFollows(drawn, moves, n, LiveMem(), MoveMem());
    if NonNegativeRequests(pods) {
      SumNonNegative(drawn, Here(place, n, LiveCpu()));
      SumNonNegative(drawn, Here(place, n, LiveMem()));
    }
  }

  /** The detail view's load exceeds the density view's by exactly what finished pods on the node request. */
  lemma {:induction false} LoadsDifferByFinished(pods: seq<Pod>, info: NodeInfo, moves: seq<Move>)
    requires UniquePods(pods) && CountedBy(info, pods) && Chains(Drawn(pods), moves)
    ensures Standing(Drawn(pods), PlacedAt(Drawn(pods), moves), info.name, PodCpu())
         == DensityLoad(info, moves) + Sum(pods, FinishedCpu(info.name))
    ensures Standing(Drawn(pods), PlacedAt(Drawn(pods), moves), info.name, PodMem())
         == DensityMem(info, moves) + Sum(pods, FinishedMem(info.name))
  {
    var drawn, n := Drawn(pods), info.name;
    var place := PlacedAt(drawn, moves);
    DrawnUnique(pods);
    DensityLoadIsLive(pods, info, moves);
    NoShift(moves, n);
    ServerFigure(pods, n, FinishedCpu(n), DoneCpu());
    StandingFollows(drawn, moves, n, DoneCpu(), NoWeight());
    SumPlus(drawn, Here(place, n, LiveCpu()), Here(place, n, DoneCpu()), Here(place, n, PodCpu()));
    ServerFigure(pods, n, FinishedMem(n), DoneMem());
    StandingFollows(drawn, moves, n, DoneMem(), NoWeight());
    SumPlus(drawn, Here(place, n, LiveMem()), Here(place, n, DoneMem()), Here(place, n, PodMem()));
  }

  /** Whatever the pods, the two views show the same load of a dimension, at every step alike, exactly when the
      node has no finished pod that requests any of it. */
  lemma {:induction false} LoadsAgreeExactly(pods: seq<Pod>, info: NodeInfo, moves: seq<Move>)
    requires UniquePods(pods) && NonNegativeRequests(pods) && CountedBy(info, pods) && Chains(Drawn(pods), moves)
    ensures Standing(Drawn(pods), PlacedAt(Drawn(pods), moves), info.name, PodCpu())
         == Clamped(DensityLoad(info, moves))
       <==> forall p | p in pods && p.nodeName == info.name && p.Finished() :: p.requests.milliCPU == 0
    ensures Standing(Drawn(pods), PlacedAt(Drawn(pods), moves), info.name, PodMem()) == Clamped(DensityMem(info, moves))
       <==> forall p | p in pods && p.nodeName == info.name && p.Finished() :: p.requests.memoryBytes == 0
  {
    LoadsDifferByFinished(pods, info, moves);
    DensityLoadIsLive(pods, info, moves);
    ZeroExactly(pods, FinishedCpu(info.name));
    ZeroExactly(pods, FinishedMem(info.name));
    assert forall p | p in pods && p.nodeName == info.name && p.Finished() ::
      FinishedCpu(info.name)(p) == p.requests.milliCPU;
    assert forall p | p in pods && p.nodeName == info.name && p.Finished() ::
      FinishedMem(info.name)(p) == p.requests.memoryBytes;
  }

  lemma {:induction false} ZeroExactly(pods: seq<Pod>, f: Pod -> int)
    requires forall p | p in pods :: 0 <= f(p)
    ensures Sum(pods, f) == 0 <==> forall p | p in pods :: f(p) == 0
  {
    SumNonNegative(pods, f);
    if forall p | p in pods :: f(p) == 0 { SumZero(pods, f); }
  }

  // ----------------------------------------------------------- what the readers guarantee

  /** Both snapshot readers leave finished pods out, so no snapshot a view is built from has one. */
  ghost predicate Served(pods: seq<Pod>) { forall p | p in pods :: !p.Finished() }

  function Unfinished(items: seq<Pod>): seq<Pod> {
    if items == [] then [] else
      var rest, last := Unfinished(items[..|items| - 1]), items[|items| - 1];
      if last.Finished() then rest else rest + [last]
  }

  /** The readers' loop over the cluster's pods. */
  method CollectPods(items: seq<Pod>) returns (pods: seq<Pod>)
    ensures Served(pods) && pods == Unfinished(items)
    ensures forall p :: p in pods <==> p in items && !p.Finished()
  {
    pods := [];
    for i := 0 to |items|
      invariant pods == Unfinished(items[..i])
      invariant forall p :: p in pods <==> p in items[..i] && !p.Finished()
    {
      assert items[..i + 1][..i] == items[..i] && items[..i + 1] == items[..i] + [items[i]];
      if items[i].phase == Succeeded || items[i].phase == Failed { continue; }
      pods := pods + [items[i]];
    }
    assert items[..|items|] == items;
  }

  /** On anything a reader serves the two views show the same CPU and memory loads after any step of a chained plan. */
  lemma {:induction false} LoadsAgree(pods: seq<Pod>, info: NodeInfo, moves: seq<Move>)
    requires UniquePods(pods) && NonNegativeRequests(pods) && Served(pods)
    requires CountedBy(info, pods) && Chains(Drawn(pods), moves)
    ensures Standing(Drawn(pods), PlacedAt(Drawn(pods), moves), info.name, PodCpu())
         == Clamped(DensityLoad(info, moves))
    ensures Standing(Drawn(pods), PlacedAt(Drawn(pods), moves), info.name, PodMem()) == Clamped(DensityMem(info, moves))
  {
    LoadsAgreeExactly(pods, info, moves);
  }

  /** Outside what a reader serves: a job's finished pod, still bound to its node and naming the 100m it asked for. */
  const SPENT := Pod("batch", "report", "n1", map[], Succeeded, Resources(100, 0, 0), map[], [], [], None, [],
                     false, None, false, false)

  /** Why the readers' guarantee is needed: with such a pod the detail view would draw 100m and the
      density view none. */
  lemma {:induction false} FinishedPodSplitsTheViews()
    ensures var info := NodeInfo("n1", 1, 1, 0, 0);
      && CountedBy(info, [SPENT]) && UniquePods([SPENT])
      && DensityLoad(info, []) == 0
      && Standing(Drawn([SPENT]), PlacedAt(Drawn([SPENT]), []), "n1", PodCpu()) == 100
  {
    var n := "n1";
    SumSingle(SPENT, OnNode(n));
    SumSingle(SPENT, PinnedAt(n));
    SumSingle(SPENT, CpuOn(n));
    SumSingle(SPENT, MemOn(n));
    assert Drawn([SPENT]) == Drawn([]) + [SPENT] && [SPENT][..0] == [];
    assert HomesOf([SPENT]) == HomesOf([])[SPENT.Key() := n];
    SumSingle(SPENT, Here(PlacedAt([SPENT], []), n, PodCpu()));
    assert HostOf(PlacedAt([SPENT], []), SPENT) == "n1";
  }
}
