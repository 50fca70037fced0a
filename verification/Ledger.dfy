/**
  The reclamation ledger: a keyed table of drained nodes (internal/store/sqlstore/reclamation.go), the
  rule that says what became of one (internal/reclaim/observer.go), and the planner's cycle that
  applies it and notices nodes something else removed (internal/publish/publish.go).
 */
module Ledger {
  import opened Model
  import opened Sums
  import opened Sorting

  datatype Outcome = Gone | Returned

  datatype Resolution = Resolution(outcome: Outcome, at: int)

  /** One row; the node and the instant it was drained are its key. */
  datatype Record = Record(node: string, drainedAt: int, cpuMilli: int, memBytes: int, external: bool,
                           resolution: Option<Resolution>)
  {
    predicate Pending() { resolution.None? }

    predicate Keyed(n: string, at: int) { node == n && drainedAt == at }

    predicate WentGone() { resolution.Some? && resolution.value.outcome.Gone? }

    predicate CameBack() { resolution.Some? && resolution.value.outcome.Returned? }
  }

  ghost predicate UniqueKeys(rows: seq<Record>) {
    forall i, j | 0 <= i < j < |rows| :: !rows[i].Keyed(rows[j].node, rows[j].drainedAt)
  }

  predicate HasKey(rows: seq<Record>, n: string, at: int) { exists r | r in rows :: r.Keyed(n, at) }

  predicate Awaits(rows: seq<Record>, n: string) { exists r | r in rows :: r.node == n && r.Pending() }

  // ------------------------------------------------------------------------- the table

  function Recorded(rows: seq<Record>, r: Record): seq<Record> {
    if HasKey(rows, r.node, r.drainedAt) then rows else rows + [r.(resolution := None)]
  }

  function ResolveRow(r: Record, n: string, drainedAt: int, outcome: Outcome, at: int): Record {
    if r.Keyed(n, drainedAt) && r.Pending() then r.(resolution := Some(Resolution(outcome, at))) else r
  }

  function PendingOf(rows: seq<Record>): seq<Record> {
    if rows == [] then [] else
      var rest, last := PendingOf(rows[..|rows| - 1]), rows[|rows| - 1];
      if last.Pending() then rest + [last] else rest
  }

  datatype Stats = Stats(awaiting: int, reclaimed: int, cpuMilli: int, memBytes: int, uncounted: int, returned: int,
                         externally: int,
                         medianWait: int)

  predicate InWindow(r: Record, since: int) { r.resolution.Some? && r.resolution.value.at >= since }

  /** A row the product may claim: in the window, gone, and drained by it. */
  predicate Ours(r: Record, since: int) { InWindow(r, since) && r.WentGone() && !r.external }

  predicate Sized(r: Record) { r.cpuMilli > 0 || r.memBytes > 0 }

  ghost function IfPending(): Record -> int { (r: Record) => if r.Pending() then 1 else 0 }
  ghost function IfOurs(since: int): Record -> int { (r: Record) => if Ours(r, since) then 1 else 0 }
  ghost function OurCpu(since: int): Record -> int {
    (r: Record) => if Ours(r, since) && Sized(r) then r.cpuMilli else 0
  }
  ghost function OurMem(since: int): Record -> int {
    (r: Record) => if Ours(r, since) && Sized(r) then r.memBytes else 0
  }
  ghost function IfUnsized(since: int): Record -> int { (r: Record) => if Ours(r, since) && !Sized(r) then 1 else 0 }
  ghost function IfBack(since: int): Record -> int {
    (r: Record) => if InWindow(r, since) && r.CameBack() && !r.external then 1 else 0
  }
  ghost function IfExternal(since: int): Record -> int {
    (r: Record) => if InWindow(r, since) && r.WentGone() && r.external then 1 else 0
  }

  /** Every figure is a sum over the rows it is about, and external rows are in none of the product's own. */
  ghost function SummaryOf(rows: seq<Record>, since: int): Stats {
    Stats(Sum(rows, IfPending()), Sum(rows, IfOurs(since)), Sum(rows, OurCpu(since)), Sum(rows, OurMem(since)),
          Sum(rows, IfUnsized(since)), Sum(rows, IfBack(since)), Sum(rows, IfExternal(since)),
          MedianOf(Waits(rows, since)))
  }

  /** How long each of the product's own reclamations took. */
  function Waits(rows: seq<Record>, since: int): seq<int> {
    if rows == [] then [] else
      var rest, last := Waits(rows[..|rows| - 1], since), rows[|rows| - 1];
      if Ours(last, since) then rest + [last.resolution.value.at - last.drainedAt] else rest
  }

  /** What one more row changes: a row something else removed counts in none of the product's own figures, and no other
      row counts as removed by something else. */
  lemma {:induction false} EachRowCounts(rows: seq<Record>, r: Record, since: int)
    ensures var s, t, done := SummaryOf(rows, since), SummaryOf(rows + [r], since), r.resolution;
      if done.None? then t == s.(awaiting := s.awaiting + 1)
      else if done.value.at < since then t == s
      else if r.external then
        t == if done.value.outcome == Gone then s.(externally := s.externally + 1) else s
      else if done.value.outcome == Returned then t == s.(returned := s.returned + 1)
      else
        && Waits(rows + [r], since) == Waits(rows, since) + [done.value.at - r.drainedAt]
        && if r.cpuMilli > 0 || r.memBytes > 0
           then t == s.(reclaimed := s.reclaimed + 1, medianWait := t.medianWait,
                        cpuMilli := s.cpuMilli + r.cpuMilli, memBytes := s.memBytes + r.memBytes)
           else t == s.(reclaimed := s.reclaimed + 1, medianWait := t.medianWait, uncounted := s.uncounted + 1)
  {
    assert (rows + [r])[..|rows|] == rows;
  }

  predicate Shorter(a: int, b: int) { a < b }

  /** Go's integer division by two. */
  function HalfTowardZero(x: int): int { if x >= 0 then x / 2 else -((-x) / 2) }

  /** The middle of the sorted waits, or the mean of the two middle ones; zero for none. */
  function MedianOf(d: seq<int>): int {
    SortPermutes(d, Shorter);
    var s, mid := StableSort(d, Shorter), |d| / 2;
    if d == [] then 0
    else if |d| % 2 == 1 then s[mid]
    else HalfTowardZero(s[mid - 1] + s[mid])
  }

  ghost function Below(m: int): int -> int { (x: int) => if x < m then 1 else 0 }
  ghost function Above(m: int): int -> int { (x: int) => if x > m then 1 else 0 }

  ghost predicate Ascends(s: seq<int>) { forall i, j | 0 <= i <= j < |s| :: s[i] <= s[j] }

  lemma {:induction false} SortedUp(d: seq<int>)
    ensures Ascends(StableSort(d, Shorter))
  {
    var all := set x | x in d;
    SortSorts(d, Shorter, all);
    var s := StableSort(d, Shorter);
    forall i, j | 0 <= i <= j < |s| ensures s[i] <= s[j] {
      if i < j { assert !Shorter(s[j], s[i]); }
    }
  }

  lemma {:induction false} AtMostOneEach(s: seq<int>, f: int -> int)
    requires forall x :: 0 <= f(x) <= 1
    ensures 0 <= Sum(s, f) <= |s|
  {
    if s != [] { AtMostOneEach(s[..|s| - 1], f); }
  }

  /** In an ascending list cut at k, what counts only on one side of the cut counts at most that side's length. */
  lemma {:induction false} OneSide(s: seq<int>, k: nat, f: int -> int)
    requires k <= |s| && forall x :: 0 <= f(x) <= 1
    ensures (forall i | k <= i < |s| :: f(s[i]) == 0) ==> Sum(s, f) <= k
    ensures (forall i | 0 <= i < k :: f(s[i]) == 0) ==> Sum(s, f) <= |s| - k
  {
    assert s == s[..k] + s[k..];
    SumConcat(s[..k], s[k..], f);
    AtMostOneEach(s[..k], f);
    AtMostOneEach(s[k..], f);
    if forall i | k <= i < |s| :: f(s[i]) == 0 { SumZero(s[k..], f); }
    if forall i | 0 <= i < k :: f(s[i]) == 0 { SumZero(s[..k], f); }
  }

  /** At most half of the waits are shorter than the median, and at most half are longer. */
  lemma {:induction false} MedianHalves(d: seq<int>)
    requires d != []
    ensures 2 * Sum(d, Below(MedianOf(d))) <= |d| && 2 * Sum(d, Above(MedianOf(d))) <= |d|
  {
    var s, m, mid := StableSort(d, Shorter), MedianOf(d), |d| / 2;
    SortPermutes(d, Shorter);
    SortedUp(d);
    SumPermutation(s, d, Below(m));
    SumPermutation(s, d, Above(m));
    var upTo := if |d| % 2 == 1 then mid + 1 else mid;
    assert forall i | mid <= i < |s| :: m <= s[mid] <= s[i];
    assert forall i | 0 <= i < upTo :: s[i] <= s[upTo - 1] <= m;
    OneSide(s, mid, Below(m));
    OneSide(s, upTo, Above(m));
  }

  class Table {
    var rows: seq<Record>

    constructor ()
      ensures rows == []
    {
      rows := [];
    }

    /** Insert, unless the key is taken; a new row is always pending. */
    method RecordDrain(r: Record)
      requires UniqueKeys(rows)
      modifies this
      ensures rows == Recorded(old(rows), r) && UniqueKeys(rows)
    {
      for i := 0 to |rows|
        invariant rows == old(rows) && forall q | q in rows[..i] :: !q.Keyed(r.node, r.drainedAt)
      {
        if rows[i].node == r.node && rows[i].drainedAt == r.drainedAt {
          assert rows[i] in rows;
          return;
        }
      }
      assert rows[..|rows|] == rows;
      rows := rows + [r.(resolution := None)];
    }

    method PendingReclamations() returns (pending: seq<Record>)
      ensures pending == PendingOf(rows)
    {
      pending := [];
      for i := 0 to |rows|
        invariant pending == PendingOf(rows[..i])
      {
        assert rows[..i + 1][..i] == rows[..i];
        if rows[i].resolution.None? { pending := pending + [rows[i]]; }
      }
      assert rows[..|rows|] == rows;
    }

    /** Closes a row that is still pending, and only such a row. */
    method ResolveReclamation(n: string, drainedAt: int, outcome: Outcome, at: int) returns (found: bool)
      modifies this
      ensures |rows| == |old(rows)|
      ensures forall i | 0 <= i < |rows| :: rows[i] == ResolveRow(old(rows)[i], n, drainedAt, outcome, at)
      ensures found <==> exists r | r in old(rows) :: r.Keyed(n, drainedAt) && r.Pending()
    {
      found := false;
      for i := 0 to |rows|
        invariant |rows| == |old(rows)|
        invariant forall j | 0 <= j < i :: rows[j] == ResolveRow(old(rows)[j], n, drainedAt, outcome, at)
        invariant forall j | i <= j < |rows| :: rows[j] == old(rows)[j]
        invariant found <==> exists r | r in old(rows)[..i] :: r.Keyed(n, drainedAt) && r.Pending()
      {
        ghost var r := old(rows)[i];
        assert old(rows)[..i + 1] == old(rows)[..i] + [r];
        if rows[i].node == n && rows[i].drainedAt == drainedAt && rows[i].resolution.None? {
          rows := rows[i := rows[i].(resolution := Some(Resolution(outcome, at)))];
          found := true;
        }
      }
      assert old(rows)[..|old(rows)|] == old(rows);
    }

    method ReclamationSummary(since: int) returns (s: Stats)
      ensures s == SummaryOf(rows, since)
    {
      s := Stats(0, 0, 0, 0, 0, 0, 0, 0);
      var waits: seq<int> := [];
      for i := 0 to |rows|
        invariant s == SummaryOf(rows[..i], since).(medianWait := 0) && waits == Waits(rows[..i], since)
      {
        assert rows[..i + 1][..i] == rows[..i];
        var r := rows[i];
        if r.resolution.None? {
          s := s.(awaiting := s.awaiting + 1);
        } else if r.resolution.value.at >= since {
          if r.external {
            if r.resolution.value.outcome.Gone? { s := s.(externally := s.externally + 1); }
          } else if r.resolution.value.outcome.Gone? {
            s := s.(reclaimed := s.reclaimed + 1);
            if r.cpuMilli > 0 || r.memBytes > 0 {
              s := s.(cpuMilli := s.cpuMilli + r.cpuMilli, memBytes := s.memBytes + r.memBytes);
            } else {
              s := s.(uncounted := s.uncounted + 1);
            }
            waits := waits + [r.resolution.value.at - r.drainedAt];
          } else {
            s := s.(returned := s.returned + 1);
          }
        }
      }
      assert rows[..|rows|] == rows;
      s := s.(medianWait := MedianOf(waits));
    }
  }

  // ----------------------------------------------------------------------- the observer

  /** Whether each node is cordoned, by name. */
  function CordonedByName(nodes: seq<Node>): map<string, bool> {
    if nodes == [] then map[] else
      CordonedByName(nodes[..|nodes| - 1])[nodes[|nodes| - 1].name := nodes[|nodes| - 1].unschedulable]
  }

  /** Gone when absent, returned when back in service, undecided while still cordoned. */
  function Fate(n: string, nodes: seq<Node>): Option<Outcome> {
    var cordoned := CordonedByName(nodes);
    if n !in cordoned then Some(Gone) else if !cordoned[n] then Some(Returned) else None
  }

  datatype Transition = Transition(record: Record, outcome: Outcome, at: int)

  function TransitionsOf(pending: seq<Record>, nodes: seq<Node>, now: int): seq<Transition> {
    if pending == [] then [] else
      var rest, r := TransitionsOf(pending[..|pending| - 1], nodes, now), pending[|pending| - 1];
      var fate := Fate(r.node, nodes);
      if r.Pending() && fate.Some? then rest + [Transition(r, fate.value, now)] else rest
  }

  /** No node has the name. */
  ghost predicate IsAbsent(nodes: seq<Node>, n: string) { forall m | m in nodes :: m.name != n }

  /** The node of that name takes pods. */
  ghost predicate InService(nodes: seq<Node>, n: string) { exists m | m in nodes :: m.name == n && !m.unschedulable }

  /** The node of that name is there, and cordoned. */
  ghost predicate OnCordon(nodes: seq<Node>, n: string) { exists m | m in nodes :: m.name == n && m.unschedulable }

  lemma {:induction false} CordonedAt(nodes: seq<Node>)
    requires UniqueNodes(nodes)
    ensures forall m | m in nodes :: m.name in CordonedByName(nodes) && CordonedByName(nodes)[m.name] == m.unschedulable
    ensures forall n | n in CordonedByName(nodes) :: exists m | m in nodes :: m.name == n
  {
    if nodes != [] {
      var front, last := nodes[..|nodes| - 1], nodes[|nodes| - 1];
      CordonedAt(front);
      assert nodes == front + [last];
      assert forall m | m in front :: m.name != last.name;
    }
  }

  /** The fate of a row, read off the nodes. */
  lemma {:induction false} FateExactly(n: string, nodes: seq<Node>)
    requires UniqueNodes(nodes)
    ensures Fate(n, nodes) == Some(Gone) <==> IsAbsent(nodes, n)
    ensures Fate(n, nodes) == Some(Returned) <==> InService(nodes, n)
    ensures Fate(n, nodes).None? <==> OnCordon(nodes, n)
  {
    CordonedAt(nodes);
    if n in CordonedByName(nodes) {
      var m :| m in nodes && m.name == n;
      assert forall k | k in nodes && k.name == n :: k.unschedulable == m.unschedulable;
    }
  }

  /** A transition is due for a pending row of the list whose node is gone, or takes pods again. */
  ghost predicate IsDue(t: Transition, pending: seq<Record>, nodes: seq<Node>, now: int) {
    && t.at == now && t.record in pending && t.record.resolution.None?
    && match t.outcome
       case Gone => IsAbsent(nodes, t.record.node)
       case Returned => InService(nodes, t.record.node)
  }

  lemma {:induction false} TransitionsAreDue(pending: seq<Record>, nodes: seq<Node>, now: int)
    requires UniqueNodes(nodes)
    ensures forall t :: t in TransitionsOf(pending, nodes, now) <==> IsDue(t, pending, nodes, now)
  {
    if pending != [] {
      var front, last := pending[..|pending| - 1], pending[|pending| - 1];
      TransitionsAreDue(front, nodes, now);
      FateExactly(last.node, nodes);
      assert pending == front + [last];
      forall t ensures t in TransitionsOf(pending, nodes, now) <==> IsDue(t, pending, nodes, now) {
        assert t in TransitionsOf(pending, nodes, now)
          <==> IsDue(t, front, nodes, now) || (t.record == last && IsDue(t, pending, nodes, now));
      }
    }
  }

  method Resolve(pending: seq<Record>, nodes: seq<Node>, now: int) returns (out: seq<Transition>)
    ensures out == TransitionsOf(pending, nodes, now)
    ensures UniqueNodes(nodes) ==> forall t :: t in out <==> IsDue(t, pending, nodes, now)
  {
    if UniqueNodes(nodes) { TransitionsAreDue(pending, nodes, now); }
    var cordoned: map<string, bool> := map[];
    for i := 0 to |nodes|
      invariant cordoned == CordonedByName(nodes[..i])
    {
      assert nodes[..i + 1][..i] == nodes[..i];
      cordoned := cordoned[nodes[i].name := nodes[i].unschedulable];
    }
    assert nodes[..|nodes|] == nodes;
    out := [];
    for i := 0 to |pending|
      invariant out == TransitionsOf(pending[..i], nodes, now)
    {
      assert pending[..i + 1][..i] == pending[..i];
      var r := pending[i];
      if r.resolution.Some? { continue; }
      if r.node !in cordoned {
        out := out + [Transition(r, Gone, now)];
      } else if !cordoned[r.node] {
        out := out + [Transition(r, Returned, now)];
      }
    }
    assert pending[..|pending|] == pending;
  }

  /** What a cycle makes of one row. */
  function Judged(r: Record, nodes: seq<Node>, now: int): Record {
    var fate := Fate(r.node, nodes);
    if r.Pending() && fate.Some? then r.(resolution := Some(Resolution(fate.value, now))) else r
  }

  function SettleBy(r: Record, t: Transition): Record {
    ResolveRow(r, t.record.node, t.record.drainedAt, t.outcome, t.at)
  }

  ghost function SettleAll(r: Record, ts: seq<Transition>): Record { Fold(SettleBy, r, ts) }

  lemma {:induction false} OneMoreTransition(rows: seq<Record>, k: nat, nodes: seq<Node>, now: int)
    requires 0 < k <= |rows|
    ensures var ts, last := TransitionsOf(PendingOf(rows[..k - 1]), nodes, now), rows[k - 1];
      TransitionsOf(PendingOf(rows[..k]), nodes, now)
      == if last.Pending() && Fate(last.node, nodes).Some?
         then ts + [Transition(last, Fate(last.node, nodes).value, now)] else ts
  {
    var before, last := PendingOf(rows[..k - 1]), rows[k - 1];
    assert rows[..k][..k - 1] == rows[..k - 1];
    if last.Pending() { assert (before + [last])[..|before|] == before; }
  }

  lemma {:induction false} SettledOneMore(r: Record, ts: seq<Transition>, t: Transition)
    ensures SettleAll(r, ts + [t]) == SettleBy(SettleAll(r, ts), t)
  {
    assert (ts + [t])[..|ts|] == ts;
  }

  /** A transition made for a row judges that row and touches none with another key. */
  lemma {:induction false} SettlesItsRow(last: Record, r: Record, nodes: seq<Node>, now: int)
    requires last.Pending() && Fate(last.node, nodes).Some?
    ensures var t := Transition(last, Fate(last.node, nodes).value, now);
      SettleBy(last, t) == Judged(last, nodes, now) && (!r.Keyed(last.node, last.drainedAt) ==> SettleBy(r, t) == r)
  {
  }

  lemma {:induction false} JudgedKeepsKey(r: Record, nodes: seq<Node>, now: int)
    ensures Judged(r, nodes, now).node == r.node && Judged(r, nodes, now).drainedAt == r.drainedAt
  {
  }

  /** Applying a cycle's transitions judges each row once, by its own fate. */
  lemma {:induction false} SettledIsJudged(rows: seq<Record>, k: nat, i: nat, nodes: seq<Node>, now: int)
    requires UniqueKeys(rows) && k <= |rows| && i < |rows|
    ensures SettleAll(rows[i], TransitionsOf(PendingOf(rows[..k]), nodes, now))
         == if i < k then Judged(rows[i], nodes, now) else rows[i]
  {
    if 0 < k {
      SettledIsJudged(rows, k - 1, i, nodes, now);
      OneMoreTransition(rows, k, nodes, now);
      var ts, last := TransitionsOf(PendingOf(rows[..k - 1]), nodes, now), rows[k - 1];
      if last.Pending() && Fate(last.node, nodes).Some? {
        var r := SettleAll(rows[i], ts);
        SettledOneMore(rows[i], ts, Transition(last, Fate(last.node, nodes).value, now));
        JudgedKeepsKey(rows[i], nodes, now);
        assert i != k - 1 ==> !r.Keyed(last.node, last.drainedAt);
        SettlesItsRow(last, r, nodes, now);
      }
    }
  }

  // -------------------------------------------------------------------------- the cycle

  function ByName(nodes: seq<Node>): map<string, Node> {
    if nodes == [] then map[] else ByName(nodes[..|nodes| - 1])[nodes[|nodes| - 1].name := nodes[|nodes| - 1]]
  }

  /** A node of the previous cycle that is absent now and that nobody here drained. */
  predicate LeftUnasked(rows: seq<Record>, seen: map<string, Node>, nodes: seq<Node>, n: string) {
    n in seen && n !in ByName(nodes) && !Awaits(rows, n)
  }

  /** The row for a node something else removed, sized by the last snapshot that had it. */
  function ExternalRow(was: Node, n: string, now: int): Record {
    Record(n, now, was.allocatable.milliCPU, was.allocatable.memoryBytes, true, Some(Resolution(Gone, now)))
  }

  /** One external row for each of these nodes that left unasked and has no row for this instant, and no other row. */
  ghost predicate Visited(ext: seq<Record>, rows: seq<Record>, seen: map<string, Node>, nodes: seq<Node>, now: int,
                          done: set<string>) {
    && (forall i, j | 0 <= i < j < |ext| :: ext[i].node != ext[j].node)
    && (forall r | r in ext ::
          r.node in done && LeftUnasked(rows, seen, nodes, r.node) && !HasKey(rows, r.node, now)
          && r == ExternalRow(seen[r.node], r.node, now))
    && (forall n | n in done && LeftUnasked(rows, seen, nodes, n) && !HasKey(rows, n, now) ::
          exists r | r in ext :: r.node == n)
  }

  ghost predicate ExternalRows(ext: seq<Record>, rows: seq<Record>, seen: map<string, Node>, nodes: seq<Node>,
                               now: int) {
    Visited(ext, rows, seen, nodes, now, seen.Keys)
  }

  /** What one cycle does to the table: rows judged in place, external rows added after them. */
  ghost predicate CycleRows(rows: seq<Record>, rows': seq<Record>, ext: seq<Record>, nodes: seq<Node>, now: int) {
    && |rows'| == |rows| + |ext| && rows'[|rows|..] == ext
    && forall i | 0 <= i < |rows| :: rows'[i] == Judged(rows[i], nodes, now)
  }

  lemma {:induction false} PendingMembers(rows: seq<Record>)
    ensures forall r :: r in PendingOf(rows) <==> r in rows && r.Pending()
  {
    if rows != [] {
      PendingMembers(rows[..|rows| - 1]);
      assert rows == rows[..|rows| - 1] + [rows[|rows| - 1]];
    }
  }

  /** Recording and resolving a departure whose key is taken by a row already closed changes nothing. */
  lemma {:induction false} KeyTaken(rows: seq<Record>, ext: seq<Record>, rec: Record, rows': seq<Record>)
    requires HasKey(rows, rec.node, rec.drainedAt) && !Awaits(rows, rec.node)
    requires forall r | r in ext :: !r.Pending()
    requires |rows'| == |rows + ext|
    requires forall i | 0 <= i < |rows'| ::
        rows'[i] == ResolveRow((rows + ext)[i], rec.node, rec.drainedAt, Gone, rec.drainedAt)
    ensures rows' == rows + ext && Recorded(rows + ext, rec) == rows + ext
  {
    var r :| r in rows && r.Keyed(rec.node, rec.drainedAt);
    assert r in rows + ext;
    forall i | 0 <= i < |rows'| ensures rows'[i] == (rows + ext)[i] {
      if i < |rows| { assert rows[i] in rows; } else { assert ext[i - |rows|] in ext; }
    }
  }

  /** Recording and resolving a departure with a free key adds its closed row and touches no other. */
  lemma {:induction false} KeyFree(before: seq<Record>, rec: Record, rows': seq<Record>)
    requires !HasKey(before, rec.node, rec.drainedAt) && rec.resolution == Some(Resolution(Gone, rec.drainedAt))
    requires |rows'| == |Recorded(before, rec)|
    requires forall i | 0 <= i < |rows'| ::
      rows'[i] == ResolveRow(Recorded(before, rec)[i], rec.node, rec.drainedAt, Gone, rec.drainedAt)
    ensures rows' == before + [rec]
  {
    forall i | 0 <= i < |before| ensures rows'[i] == before[i] { assert before[i] in before; }
  }

  lemma {:induction false} VisitedOneMore(ext: seq<Record>, rows: seq<Record>, was: map<string, Node>,
                                          nodes: seq<Node>, now: int, done: set<string>, n: string)
    requires Visited(ext, rows, was, nodes, now, done) && n in was && n !in done
    ensures LeftUnasked(rows, was, nodes, n) && !HasKey(rows, n, now) ==>
      Visited(ext + [ExternalRow(was[n], n, now)], rows, was, nodes, now, done + {n})
    ensures !LeftUnasked(rows, was, nodes, n) || HasKey(rows, n, now) ==>
        Visited(ext, rows, was, nodes, now, done + {n})
  {
    var more := ext + [ExternalRow(was[n], n, now)];
    if LeftUnasked(rows, was, nodes, n) && !HasKey(rows, n, now) {
      forall i, j | 0 <= i < j < |more| ensures more[i].node != more[j].node {
        assert ext[i] in ext;
        if j < |ext| { assert ext[j] in ext; }
      }
      forall m | m in done + {n} && LeftUnasked(rows, was, nodes, m) && !HasKey(rows, m, now)
        ensures exists r | r in more :: r.node == m
      {
        if m == n {
          assert ExternalRow(was[n], n, now) in more;
        } else {
          var r :| r in ext && r.node == m;
          assert r in more;
        }
      }
    }
  }

  class Publisher {
    const table: Table
    var seen: Option<map<string, Node>>

    constructor (table: Table)
      ensures this.table == table && seen.None?
    {
      this.table, seen := table, None;
    }

    method RecordExternalReclaims(nodes: seq<Node>, now: int) returns (ghost ext: seq<Record>)
      requires UniqueKeys(table.rows)
      modifies this, table
      ensures seen == Some(ByName(nodes)) && table.rows == old(table.rows) + ext && UniqueKeys(table.rows)
      ensures if old(seen).None? then ext == [] else ExternalRows(ext, old(table.rows), old(seen).value, nodes, now)
    {
      ext := [];
      var current: map<string, Node> := map[];
      for i := 0 to |nodes|
        invariant current == ByName(nodes[..i])
        invariant seen == old(seen) && table.rows == old(table.rows)
      {
        assert nodes[..i + 1][..i] == nodes[..i];
        current := current[nodes[i].name := nodes[i]];
      }
      assert nodes[..|nodes|] == nodes;
      if seen.None? {
        seen := Some(current);
        return;
      }
      ext := RecordDepartures(nodes, current, seen.value, now);
      seen := Some(current);
    }

    method OurNodes() returns (ours: set<string>)
      ensures forall n :: n in ours <==> Awaits(table.rows, n)
    {
      var pending := table.PendingReclamations();
      ours := {};
      PendingMembers(table.rows);
      for i := 0 to |pending|
        invariant forall n :: n in ours <==> exists r | r in pending[..i] :: r.node == n
      {
        assert pending[..i + 1] == pending[..i] + [pending[i]];
        ours := ours + {pending[i].node};
      }
      assert pending[..|pending|] == pending;
    }

    /** Go visits the previous fleet in any order. */
    method RecordDepartures(nodes: seq<Node>, current: map<string, Node>, was: map<string, Node>, now: int)
      returns (ghost ext: seq<Record>)
      requires UniqueKeys(table.rows) && current == ByName(nodes)
      modifies table
      ensures table.rows == old(table.rows) + ext && UniqueKeys(table.rows)
      ensures ExternalRows(ext, old(table.rows), was, nodes, now)
    {
      ghost var rows := table.rows;
      ext := [];
      var ours := OurNodes();
      var todo := was.Keys;
      while todo != {}
        invariant todo <= was.Keys && table.rows == rows + ext && UniqueKeys(table.rows)
        invariant Visited(ext, rows, was, nodes, now, was.Keys - todo)
        decreases |todo|
      {
        var name :| name in todo;
        VisitedOneMore(ext, rows, was, nodes, now, was.Keys - todo, name);
        assert was.Keys - (todo - {name}) == was.Keys - todo + {name};
        todo := todo - {name};
        if name in current || name in ours { continue; }
        ext := RecordDeparture(was[name], name, now, rows, ext);
      }
    }

    /** Opens and at once closes a row for one node that left unasked. */
    method RecordDeparture(was: Node, name: string, now: int, ghost rows: seq<Record>, ghost ext: seq<Record>)
      returns (ghost ext': seq<Record>)
      requires UniqueKeys(table.rows) && table.rows == rows + ext && !Awaits(rows, name)
      requires forall r | r in ext :: !r.Pending() && r.node != name
      modifies table
      ensures table.rows == rows + ext' && UniqueKeys(table.rows)
      ensures ext' == if HasKey(rows, name, now) then ext else ext + [ExternalRow(was, name, now)]
    {
      var rec := ExternalRow(was, name, now);
      table.RecordDrain(rec);
      var _ := table.ResolveReclamation(name, now, Gone, now);
      if HasKey(rows, name, now) {
        ext' := ext;
        assert Recorded(rows + ext, rec) == rows + ext by {
          var r :| r in rows && r.Keyed(name, now);
          assert r in rows + ext;
        }
        KeyTaken(rows, ext, rec, table.rows);
      } else {
        ext' := ext + [rec];
        assert !HasKey(rows + ext, name, now);
        KeyFree(rows + ext, rec, table.rows);
        assert rows + ext + [rec] == rows + ext';
      }
    }

    /** The fate of every pending row, as the snapshot shows it. */
    method ResolvePending(nodes: seq<Node>, now: int)
      requires UniqueKeys(table.rows)
      modifies table
      ensures |table.rows| == |old(table.rows)|
      ensures forall i | 0 <= i < |table.rows| :: table.rows[i] == Judged(old(table.rows)[i], nodes, now)
    {
      ghost var mid := table.rows;
      var pending := table.PendingReclamations();
      var transitions := Resolve(pending, nodes, now);
      for j := 0 to |transitions|
        invariant |table.rows| == |mid|
        invariant forall i | 0 <= i < |mid| :: table.rows[i] == SettleAll(mid[i], transitions[..j])
      {
        var t := transitions[j];
        assert transitions[..j + 1][..j] == transitions[..j];
        var _ := table.ResolveReclamation(t.record.node, t.record.drainedAt, t.outcome, t.at);
      }
      assert transitions[..|transitions|] == transitions && mid[..|mid|] == mid;
      forall i | 0 <= i < |mid| ensures table.rows[i] == Judged(mid[i], nodes, now) {
        SettledIsJudged(mid, |mid|, i, nodes, now);
      }
    }

    /** One cycle's bookkeeping: departures nobody asked for, then the fate of every pending row. */
    method ObserveReclamations(nodes: seq<Node>, at: int, now: int) returns (ghost ext: seq<Record>)
      requires UniqueKeys(table.rows)
      modifies this, table
      ensures seen == Some(ByName(nodes)) && UniqueKeys(table.rows)
      ensures if old(seen).None? then ext == [] else ExternalRows(ext, old(table.rows), old(seen).value, nodes, at)
      ensures CycleRows(old(table.rows), table.rows, ext, nodes, now)
    {
      ext := RecordExternalReclaims(nodes, at);
      ghost var rows := old(table.rows);
      ResolvePending(nodes, now);
      assert forall i | 0 <= i < |ext| :: ext[i] in ext && ext[i].resolution.Some?;
      assert table.rows[|rows|..] == ext;
    }
  }

  // ------------------------------------------------------------------- over whole histories

  /** The ledger, what the planner last saw, and the cluster itself: the nodes in it now, and those that were in it at
      some time since the last cycle. */
  datatype Book = Book(rows: seq<Record>, seen: Option<map<string, Node>>, fleet: set<string>, around: set<string>)

  /** What happens: nodes join and leave, the executor records a drain, the planner runs a cycle or restarts. */
  datatype Entry =
    | Joined(n: string)
    | Left(n: string)
    | DrainRecorded(r: Record)
    | CycleRun(nodes: seq<Node>, at: int, now: int)
    | Restarted

  /** The rows one cycle adds, if the planner has seen a cycle before. */
  ghost predicate CycleAdds(b: Book, nodes: seq<Node>, at: int, ext: seq<Record>) {
    if b.seen.None? then ext == [] else ExternalRows(ext, b.rows, b.seen.value, nodes, at)
  }

  ghost predicate Next(b: Book, e: Entry, b': Book) {
    match e
    case Joined(n) => b' == b.(fleet := b.fleet + {n}, around := b.around + {n})
    case Left(n) => b' == b.(fleet := b.fleet - {n})
    case DrainRecorded(r) => !r.external && b' == b.(rows := Recorded(b.rows, r))
    case CycleRun(nodes, at, now) =>
      && b.fleet == ByName(nodes).Keys
      && b'.seen == Some(ByName(nodes)) && b'.fleet == b.fleet && b'.around == b.fleet
      && exists ext :: CycleAdds(b, nodes, at, ext) && CycleRows(b.rows, b'.rows, ext, nodes, now)
    case Restarted => b' == b.(seen := None)
  }

  ghost predicate History(books: seq<Book>, entries: seq<Entry>) {
    && |books| == |entries| + 1 && books[0].rows == [] && books[0].seen.None? && books[0].around == books[0].fleet
    && forall i | 0 <= i < |entries| :: Next(books[i], entries[i], books[i + 1])
  }

  /** A record keeps its place and its facts, and once it has an outcome it keeps that too. */
  ghost predicate Kept(rows: seq<Record>, rows': seq<Record>) {
    && |rows| <= |rows'|
    && forall i | 0 <= i < |rows| ::
         && rows'[i].(resolution := None) == rows[i].(resolution := None)
         && (rows[i].resolution.Some? ==> rows'[i] == rows[i])
  }

  lemma {:induction false} NextKeeps(b: Book, e: Entry, b': Book)
    requires Next(b, e, b')
    ensures Kept(b.rows, b'.rows)
  {
  }

  /** No outcome ever changes, and no record is ever lost. */
  lemma {:induction false} OutcomesNeverChange(books: seq<Book>, entries: seq<Entry>, i: nat, j: nat)
    requires History(books, entries) && i <= j < |books|
    ensures Kept(books[i].rows, books[j].rows)
    decreases j - i
  {
    if i < j {
      OutcomesNeverChange(books, entries, i, j - 1);
      NextKeeps(books[j - 1], entries[j - 1], books[j]);
    }
  }

  ghost predicate CyclesNameNodesOnce(entries: seq<Entry>) {
    forall i | 0 <= i < |entries| && entries[i].CycleRun? :: UniqueNodes(entries[i].nodes)
  }

  /** A cycle leaves a pending row alone while its node is cordoned, and otherwise closes it by where the node is. */
  lemma {:induction false} CycleJudges(b: Book, b': Book, nodes: seq<Node>, at: int, now: int, k: nat)
    requires Next(b, CycleRun(nodes, at, now), b') && UniqueNodes(nodes) && k < |b.rows| && b.rows[k].Pending()
    ensures k < |b'.rows|
    ensures OnCordon(nodes, b.rows[k].node) ==> b'.rows[k] == b.rows[k]
    ensures InService(nodes, b.rows[k].node) ==> b'.rows[k] == b.rows[k].(resolution := Some(Resolution(Returned, now)))
    ensures IsAbsent(nodes, b.rows[k].node) ==> b'.rows[k] == b.rows[k].(resolution := Some(Resolution(Gone, now)))
  {
    FateExactly(b.rows[k].node, nodes);
  }

  /** After a cycle rows wait only for nodes it found cordoned. */
  lemma {:induction false} WaitingIsCordoned(b: Book, b': Book, nodes: seq<Node>, at: int, now: int, k: nat)
    requires Next(b, CycleRun(nodes, at, now), b') && UniqueNodes(nodes) && k < |b'.rows| && b'.rows[k].Pending()
    ensures OnCordon(nodes, b'.rows[k].node)
  {
    if k < |b.rows| { FateExactly(b.rows[k].node, nodes); }
  }

  /** Entry j is the cycle that gave row k this outcome: it found the node in service, or gone. */
  ghost predicate ClosedBy(books: seq<Book>, entries: seq<Entry>, j: nat, k: nat, done: Resolution)
    requires |books| == |entries| + 1
  {
    && j < |entries| && entries[j].CycleRun? && k < |books[j + 1].rows|
    && (k < |books[j].rows| ==> books[j].rows[k].Pending())
    && books[j + 1].rows[k].resolution == Some(done)
    && match done.outcome
       case Returned => k < |books[j].rows| && done.at == entries[j].now
                        && InService(entries[j].nodes, books[j + 1].rows[k].node)
       case Gone => IsAbsent(entries[j].nodes, books[j + 1].rows[k].node)
  }

  lemma {:induction false} ClosedNow(books: seq<Book>, entries: seq<Entry>, j: nat, k: nat)
    requires History(books, entries) && CyclesNameNodesOnce(entries) && j < |entries| && k < |books[j + 1].rows|
    requires books[j + 1].rows[k].resolution.Some? && (k < |books[j].rows| ==> books[j].rows[k].Pending())
    ensures ClosedBy(books, entries, j, k, books[j + 1].rows[k].resolution.value)
  {
    var b, e, b' := books[j], entries[j], books[j + 1];
    assert Next(b, e, b');
    if e.CycleRun? {
      if k < |b.rows| { FateExactly(b.rows[k].node, e.nodes); } else { OpenedClosed(b, b', e.nodes, e.at, e.now, k); }
    }
  }

  lemma {:induction false} OpenedClosed(b: Book, b': Book, nodes: seq<Node>, at: int, now: int, k: nat)
    requires Next(b, CycleRun(nodes, at, now), b') && |b.rows| <= k < |b'.rows|
    ensures b'.rows[k].WentGone() && IsAbsent(nodes, b'.rows[k].node)
    ensures var r := b'.rows[k];
      && r.external && r.resolution == Some(Resolution(Gone, at)) && r.drainedAt == at
      && b.seen.Some? && r.node in b.seen.value
      && r.cpuMilli == b.seen.value[r.node].allocatable.milliCPU
      && r.memBytes == b.seen.value[r.node].allocatable.memoryBytes
  {
    assert b'.rows[|b.rows|..][k - |b.rows|] == b'.rows[k];
    NamedNodes(nodes);
  }

  lemma {:induction false} NamedNodes(nodes: seq<Node>)
    ensures forall m | m in nodes :: m.name in ByName(nodes)
  {
    if nodes != [] {
      NamedNodes(nodes[..|nodes| - 1]);
      assert nodes == nodes[..|nodes| - 1] + [nodes[|nodes| - 1]];
    }
  }

  /** Over any history, a row that came back was closed by a cycle that found its node in service while it waited, and
      a row that is gone by one that found no such node. */
  lemma {:induction false} OutcomesAreSeen(books: seq<Book>, entries: seq<Entry>, i: nat, k: nat) returns (j: nat)
    requires History(books, entries) && CyclesNameNodesOnce(entries) && i < |books|
    requires k < |books[i].rows| && books[i].rows[k].resolution.Some?
    ensures j < i && ClosedBy(books, entries, j, k, books[i].rows[k].resolution.value)
  {
    if k < |books[i - 1].rows| && books[i - 1].rows[k].resolution.Some? {
      NextKeeps(books[i - 1], entries[i - 1], books[i]);
      j := OutcomesAreSeen(books, entries, i - 1, k);
    } else {
      j := i - 1;
      ClosedNow(books, entries, j, k);
    }
  }

  ghost function IfGone(n: string): Record -> int { (r: Record) => if r.node == n && r.WentGone() then 1 else 0 }
  ghost function IfWaiting(n: string): Record -> int { (r: Record) => if r.node == n && r.Pending() then 1 else 0 }

  /** Rows that say node n is gone. */
  ghost function Gones(rows: seq<Record>, n: string): int { Sum(rows, IfGone(n)) }

  /** Rows still waiting to hear about node n. */
  ghost function Waiting(rows: seq<Record>, n: string): int { Sum(rows, IfWaiting(n)) }

  predicate Present(nodes: seq<Node>, n: string) { n in ByName(nodes) }

  lemma {:induction false} NamesAgree(nodes: seq<Node>)
    ensures ByName(nodes).Keys == CordonedByName(nodes).Keys
  {
    if nodes != [] { NamesAgree(nodes[..|nodes| - 1]); }
  }

  lemma {:induction false} JudgedGones(rows: seq<Record>, rows': seq<Record>, nodes: seq<Node>, now: int, n: string)
    requires |rows'| == |rows| && forall i | 0 <= i < |rows| :: rows'[i] == Judged(rows[i], nodes, now)
    ensures Gones(rows', n) == Gones(rows, n) + if Present(nodes, n) then 0 else Waiting(rows, n)
  {
    if rows != [] {
      JudgedGones(rows[..|rows| - 1], rows'[..|rows| - 1], nodes, now, n);
      NamesAgree(nodes);
    }
  }

  lemma {:induction false} ExternalGones(ext: seq<Record>, n: string)
    requires (forall i, j | 0 <= i < j < |ext| :: ext[i].node != ext[j].node) && forall r | r in ext :: r.WentGone()
    ensures Gones(ext, n) == if exists r | r in ext :: r.node == n then 1 else 0
  {
    if ext != [] {
      var front, last := ext[..|ext| - 1], ext[|ext| - 1];
      assert last in ext && forall r | r in front :: r in ext;
      ExternalGones(front, n);
      assert forall r | r in ext :: r in front || r == last;
      if last.node == n {
        assert forall r | r in front :: r.node != n;
      }
    }
  }

  /** Which of the departures a cycle witnesses are charged to something else. */
  predicate LeftExternally(b: Book, nodes: seq<Node>, at: int, n: string) {
    b.seen.Some? && LeftUnasked(b.rows, b.seen.value, nodes, n) && !HasKey(b.rows, n, at)
  }

  lemma {:induction false} ExternalCount(ext: seq<Record>, rows: seq<Record>, seen: map<string, Node>,
                                         nodes: seq<Node>, at: int, n: string)
    requires ExternalRows(ext, rows, seen, nodes, at)
    ensures Gones(ext, n) == if LeftUnasked(rows, seen, nodes, n) && !HasKey(rows, n, at) then 1 else 0
  {
    ExternalGones(ext, n);
  }

  /** A cycle turns every waiting row of an absent node into a gone one, and adds one external row if it left
      unasked. */
  lemma {:induction false} CycleGones(b: Book, b': Book, nodes: seq<Node>, at: int, now: int, n: string)
    requires Next(b, CycleRun(nodes, at, now), b')
    ensures Gones(b'.rows, n) == Gones(b.rows, n)
      + (if Present(nodes, n) then 0 else Waiting(b.rows, n)) + (if LeftExternally(b, nodes, at, n) then 1 else 0)
  {
    var ext: seq<Record> :| CycleAdds(b, nodes, at, ext) && CycleRows(b.rows, b'.rows, ext, nodes, now);
    var k := |b.rows|;
    assert b'.rows == b'.rows[..k] + ext;
    SumConcat(b'.rows[..k], ext, IfGone(n));
    JudgedGones(b.rows, b'.rows[..k], nodes, now, n);
    if b.seen.Some? { ExternalCount(ext, b.rows, b.seen.value, nodes, at, n); }
  }

  lemma {:induction false} WaitingIsAwaited(rows: seq<Record>, n: string)
    ensures Waiting(rows, n) >= 0 && (Waiting(rows, n) > 0 <==> Awaits(rows, n))
  {
    SumNonNegative(rows, IfWaiting(n));
    if Awaits(rows, n) {
      var r :| r in rows && r.node == n && r.Pending();
      assert IfWaiting(n)(r) == 1;
    } else {
      SumZero(rows, IfWaiting(n));
    }
  }

  /** What the planner has seen was in the cluster since. */
  ghost predicate SeenWasAround(b: Book) { b.seen.Some? ==> b.seen.value.Keys <= b.around }

  lemma {:induction false} SeenStaysAround(books: seq<Book>, entries: seq<Entry>, i: nat)
    requires History(books, entries) && i < |books|
    ensures SeenWasAround(books[i])
  {
    if 0 < i {
      SeenStaysAround(books, entries, i - 1);
      assert Next(books[i - 1], entries[i - 1], books[i]);
    }
  }

  /** The cycle finds that node n has departed: it was in the cluster at some time since the last cycle, and is
      not now. */
  predicate Departs(b: Book, e: Entry, n: string) { e.CycleRun? && n in b.around && n !in b.fleet }

  /** A cycle meets node n in good order: if it is absent, then either it was around since the last cycle and is known
      in exactly one way (one drain of it waits, or none does and the planner saw it and its key is free), or it was
      not around and no drain of it waits. */
  ghost predicate Orderly(b: Book, e: Entry, n: string) {
    e.CycleRun? && n !in b.fleet ==>
      if n in b.around then
        Waiting(b.rows, n) == 1
        || (Waiting(b.rows, n) == 0 && b.seen.Some? && n in b.seen.value && !HasKey(b.rows, n, e.at))
      else Waiting(b.rows, n) == 0
  }

  /** A cycle adds one gone row for a departed node, and none for any other, when and only when it meets the node in
      good order. */
  lemma {:induction false} CountedOnceExactly(b: Book, b': Book, nodes: seq<Node>, at: int, now: int, n: string)
    requires Next(b, CycleRun(nodes, at, now), b') && SeenWasAround(b)
    ensures Gones(b'.rows, n) == Gones(b.rows, n) + (if Departs(b, CycleRun(nodes, at, now), n) then 1 else 0)
       <==> Orderly(b, CycleRun(nodes, at, now), n)
  {
    CycleGones(b, b', nodes, at, now, n);
    WaitingIsAwaited(b.rows, n);
  }

  /** Nothing but a cycle adds a gone row. */
  lemma {:induction false} OnlyCyclesCount(b: Book, e: Entry, b': Book, n: string)
    requires Next(b, e, b') && !e.CycleRun?
    ensures Gones(b'.rows, n) == Gones(b.rows, n)
  {
    if e.DrainRecorded? { RecordedGones(b.rows, e.r, n); }
  }

  lemma {:induction false} RecordedGones(rows: seq<Record>, r: Record, n: string)
    ensures Gones(Recorded(rows, r), n) == Gones(rows, n)
  {
    if Recorded(rows, r) != rows { assert Recorded(rows, r)[..|rows|] == rows; }
  }

  /** How often node n departed in the first i entries: a fact about the cluster and the cycles alone. */
  ghost function Departures(books: seq<Book>, entries: seq<Entry>, n: string, i: nat): int
    requires |books| == |entries| + 1 && i <= |entries|
  {
    if i == 0 then 0
    else Departures(books, entries, n, i - 1) + if Departs(books[i - 1], entries[i - 1], n) then 1 else 0
  }

  /** The ledger's count of gone rows for n is the number of its departures, at every moment up to i. */
  ghost predicate CountsDepartures(books: seq<Book>, entries: seq<Entry>, n: string, i: nat)
    requires |books| == |entries| + 1 && i <= |entries|
  {
    forall k | 0 <= k <= i :: Gones(books[k].rows, n) == Departures(books, entries, n, k)
  }

  ghost predicate AlwaysOrderly(books: seq<Book>, entries: seq<Entry>, n: string, i: nat)
    requires |books| == |entries| + 1 && i <= |entries|
  {
    forall k | 0 <= k < i :: Orderly(books[k], entries[k], n)
  }

  lemma {:induction false} EntryCounts(books: seq<Book>, entries: seq<Entry>, n: string, k: nat)
    requires History(books, entries) && k < |entries|
    ensures var rowsAdded := Gones(books[k + 1].rows, n) - Gones(books[k].rows, n);
      rowsAdded == Departures(books, entries, n, k + 1) - Departures(books, entries, n, k)
      <==> Orderly(books[k], entries[k], n)
  {
    var b, e, b' := books[k], entries[k], books[k + 1];
    assert Next(b, e, b');
    SeenStaysAround(books, entries, k);
    if e.CycleRun? { CountedOnceExactly(b, b', e.nodes, e.at, e.now, n); } else { OnlyCyclesCount(b, e, b', n); }
  }

  /** Over any history of joins, departures, drains, cycles and restarts, the ledger holds at every moment exactly one
      gone row for each departure of a node if and only if every cycle met the node in good order. */
  lemma {:induction false} EachDepartureOnce(books: seq<Book>, entries: seq<Entry>, n: string, i: nat)
    requires History(books, entries) && i <= |entries|
    ensures CountsDepartures(books, entries, n, i) <==> AlwaysOrderly(books, entries, n, i)
  {
    if i == 0 {
      assert Gones(books[0].rows, n) == 0;
    } else {
      EachDepartureOnce(books, entries, n, i - 1);
      EntryCounts(books, entries, n, i - 1);
      if CountsDepartures(books, entries, n, i - 1) {
        assert Gones(books[i - 1].rows, n) == Departures(books, entries, n, i - 1);
      }
    }
  }

  // ------------------------------------------------------------ who keeps it in good order

  /** A drain is recorded in time when its node was in the cluster since the last cycle and no drain of it waits. */
  ghost predicate Timely(b: Book, e: Entry, n: string) {
    e.DrainRecorded? && e.r.node == n ==> n in b.around && !Awaits(b.rows, n)
  }

  /** A cycle is informed when a node that has departed with no drain waiting had been seen by the last cycle of this
      planner, and no row of the node carries the cycle's own instant. */
  ghost predicate Informed(b: Book, e: Entry, n: string) {
    e.CycleRun? && Departs(b, e, n) && !Awaits(b.rows, n) ==>
        b.seen.Some? && n in b.seen.value && !HasKey(b.rows, n, e.at)
  }

  /** Rows wait only for nodes that were around, one for each. */
  ghost predicate WaitsForOneAround(b: Book, n: string) {
    Waiting(b.rows, n) <= 1 && (n !in b.around ==> Waiting(b.rows, n) == 0)
  }

  lemma {:induction false} WaitingRecorded(rows: seq<Record>, r: Record, n: string)
    ensures Waiting(Recorded(rows, r), n) <= Waiting(rows, n) + if r.node == n then 1 else 0
  {
    if Recorded(rows, r) != rows { assert Recorded(rows, r)[..|rows|] == rows; }
  }

  lemma {:induction false} WaitingJudged(rows: seq<Record>, rows': seq<Record>, nodes: seq<Node>, now: int, n: string)
    requires |rows'| == |rows| && forall i | 0 <= i < |rows| :: rows'[i] == Judged(rows[i], nodes, now)
    ensures 0 <= Waiting(rows', n) <= Waiting(rows, n) && (!Present(nodes, n) ==> Waiting(rows', n) == 0)
  {
    if rows != [] {
      WaitingJudged(rows[..|rows| - 1], rows'[..|rows| - 1], nodes, now, n);
      NamesAgree(nodes);
    }
  }

  lemma {:induction false} WaitingAfterCycle(b: Book, b': Book, nodes: seq<Node>, at: int, now: int, n: string)
    requires Next(b, CycleRun(nodes, at, now), b') && WaitsForOneAround(b, n)
    ensures WaitsForOneAround(b', n)
  {
    var ext: seq<Record> :| CycleAdds(b, nodes, at, ext) && CycleRows(b.rows, b'.rows, ext, nodes, now);
    var k := |b.rows|;
    assert b'.rows == b'.rows[..k] + ext;
    SumConcat(b'.rows[..k], ext, IfWaiting(n));
    WaitingJudged(b.rows, b'.rows[..k], nodes, now, n);
    SumZero(ext, IfWaiting(n));
  }

  lemma {:induction false} TimelyKeepsOne(b: Book, e: Entry, b': Book, n: string)
    requires Next(b, e, b') && Timely(b, e, n) && WaitsForOneAround(b, n)
    ensures WaitsForOneAround(b', n)
  {
    WaitingIsAwaited(b.rows, n);
    match e
    case DrainRecorded(r) => {
      WaitingRecorded(b.rows, r, n);
      WaitingIsAwaited(b'.rows, n);
    }
    case CycleRun(nodes, at, now) => WaitingAfterCycle(b, b', nodes, at, now, n);
    case _ =>
  }

  lemma {:induction false} OneWaits(books: seq<Book>, entries: seq<Entry>, n: string, i: nat)
    requires History(books, entries) && i < |books|
    requires forall k | 0 <= k < |entries| :: Timely(books[k], entries[k], n)
    ensures WaitsForOneAround(books[i], n)
  {
    if i == 0 {
      assert Waiting(books[0].rows, n) == 0;
    } else {
      OneWaits(books, entries, n, i - 1);
      assert Timely(books[i - 1], entries[i - 1], n) && Next(books[i - 1], entries[i - 1], books[i]);
      TimelyKeepsOne(books[i - 1], entries[i - 1], books[i], n);
    }
  }

  /** So it is enough that every drain is recorded in time and every cycle is informed. */
  lemma {:induction false} TimelyDrainsCountOnce(books: seq<Book>, entries: seq<Entry>, n: string)
    requires History(books, entries)
    requires forall k | 0 <= k < |entries| :: Timely(books[k], entries[k], n) && Informed(books[k], entries[k], n)
    ensures CountsDepartures(books, entries, n, |entries|)
  {
    forall k | 0 <= k < |entries| ensures Orderly(books[k], entries[k], n) {
      OneWaits(books, entries, n, k);
      WaitingIsAwaited(books[k].rows, n);
      assert Informed(books[k], entries[k], n);
    }
    EachDepartureOnce(books, entries, n, |entries|);
  }

  // ---------------------------------------------------------------- a drain recorded late

  const LATE_NODE := Node("n", map[], map[], [], ZERO, false, true, None)
  const LATE_ROW := Record("n", 3, 0, 0, false, None)
  const BY_OTHERS := ExternalRow(LATE_NODE, "n", 2)
  const LATE_GONE := LATE_ROW.(resolution := Some(Resolution(Gone, 5)))

  /** The node leaves, a cycle records it as taken by something else, and only then is its drain recorded. */
  const LATE_ENTRIES: seq<Entry> :=
    [CycleRun([LATE_NODE], 1, 1), Left("n"), CycleRun([], 2, 2), DrainRecorded(LATE_ROW), CycleRun([], 5, 5)]

  const LATE_BOOKS: seq<Book> :=
    [Book([], None, {"n"}, {"n"}),
     Book([], Some(map["n" := LATE_NODE]), {"n"}, {"n"}),
     Book([], Some(map["n" := LATE_NODE]), {}, {"n"}),
     Book([BY_OTHERS], Some(map[]), {}, {}),
     Book([BY_OTHERS, LATE_ROW], Some(map[]), {}, {}),
     Book([BY_OTHERS, LATE_GONE], Some(map[]), {}, {})]

  lemma {:induction false} LateFirstCycles()
    ensures Next(LATE_BOOKS[0], LATE_ENTRIES[0], LATE_BOOKS[1]) && Next(LATE_BOOKS[2], LATE_ENTRIES[2], LATE_BOOKS[3])
  {
    var none: seq<Record> := [];
    assert ByName([LATE_NODE]) == ByName([])["n" := LATE_NODE] == map["n" := LATE_NODE];
    assert CycleAdds(LATE_BOOKS[0], [LATE_NODE], 1, none) && CycleRows([], [], none, [LATE_NODE], 1);
    var ext := [BY_OTHERS];
    assert ext[0] in ext && LeftUnasked([], map["n" := LATE_NODE], [], "n");
    assert CycleAdds(LATE_BOOKS[2], [], 2, ext) && CycleRows([], ext, ext, [], 2);
  }

  lemma {:induction false} LateLastCycle()
    ensures Next(LATE_BOOKS[3], LATE_ENTRIES[3], LATE_BOOKS[4]) && Next(LATE_BOOKS[4], LATE_ENTRIES[4], LATE_BOOKS[5])
  {
    var none: seq<Record> := [];
    var rows, rows' := LATE_BOOKS[4].rows, LATE_BOOKS[5].rows;
    assert !HasKey([BY_OTHERS], "n", 3);
    assert CycleAdds(LATE_BOOKS[4], [], 5, none);
    assert rows'[0] == Judged(rows[0], [], 5) && rows'[1] == Judged(rows[1], [], 5);
    assert CycleRows(rows, rows', none, [], 5);
  }

  /** One departure, two gone rows: one charged to something else and one to the product. */
  lemma {:induction false} LateDrainCountsTwice()
    ensures History(LATE_BOOKS, LATE_ENTRIES)
    ensures Gones(LATE_BOOKS[5].rows, "n") == 2 && Departures(LATE_BOOKS, LATE_ENTRIES, "n", 5) == 1
    ensures !Timely(LATE_BOOKS[3], LATE_ENTRIES[3], "n") && !Orderly(LATE_BOOKS[4], LATE_ENTRIES[4], "n")
  {
    LateFirstCycles();
    LateLastCycle();
    var rows, f := [BY_OTHERS, LATE_GONE], IfGone("n");
    assert rows[..1] == [BY_OTHERS];
    SumSingle(BY_OTHERS, f);
    assert LATE_BOOKS[4].rows[..1] == [BY_OTHERS];
    SumSingle(BY_OTHERS, IfWaiting("n"));
    LateDepartsOnce();
  }

  lemma {:induction false} LateDepartsOnce()
    ensures Departures(LATE_BOOKS, LATE_ENTRIES, "n", 5) == 1
  {
    assert Departures(LATE_BOOKS, LATE_ENTRIES, "n", 1) == 0;
    assert Departures(LATE_BOOKS, LATE_ENTRIES, "n", 2) == 0;
    assert Departures(LATE_BOOKS, LATE_ENTRIES, "n", 3) == 1;
    assert Departures(LATE_BOOKS, LATE_ENTRIES, "n", 4) == 1;
  }

  // ------------------------------------------------------------------ whose departure it was

  ghost predicate WaitingIsOurs(rows: seq<Record>) { forall r | r in rows && r.Pending() :: !r.external }

  /** Only the product's own drains ever wait for an outcome. */
  lemma {:induction false} OnlyDrainsWait(books: seq<Book>, entries: seq<Entry>, i: nat)
    requires History(books, entries) && i < |books|
    ensures WaitingIsOurs(books[i].rows)
  {
    if 0 < i {
      OnlyDrainsWait(books, entries, i - 1);
      var b, e, b' := books[i - 1], entries[i - 1], books[i];
      assert Next(b, e, b');
      if e.CycleRun? { CycleLeavesOurs(b, b', e.nodes, e.at, e.now); }
    }
  }

  lemma {:induction false} CycleLeavesOurs(b: Book, b': Book, nodes: seq<Node>, at: int, now: int)
    requires Next(b, CycleRun(nodes, at, now), b') && WaitingIsOurs(b.rows)
    ensures WaitingIsOurs(b'.rows)
  {
    var ext: seq<Record> :| CycleAdds(b, nodes, at, ext) && CycleRows(b.rows, b'.rows, ext, nodes, now);
    forall k | 0 <= k < |b.rows| && b'.rows[k].Pending() ensures !b'.rows[k].external {
      assert b.rows[k] in b.rows;
    }
    forall k | |b.rows| <= k < |b'.rows| ensures !b'.rows[k].Pending() {
      assert b'.rows[|b.rows|..][k - |b.rows|] in ext;
    }
  }

  /** The row of a departure met in good order is external exactly when no drain of the node was waiting. */
  lemma {:induction false} ExternalIffNotDrained(b: Book, b': Book, nodes: seq<Node>, at: int, now: int, n: string)
    requires Next(b, CycleRun(nodes, at, now), b') && Orderly(b, CycleRun(nodes, at, now), n)
    requires Departs(b, CycleRun(nodes, at, now), n) && WaitingIsOurs(b.rows)
    ensures exists i | 0 <= i < |b'.rows| ::
      && b'.rows[i].node == n && b'.rows[i].WentGone() && (i < |b.rows| ==> b.rows[i].Pending())
      && (b'.rows[i].external <==> !Awaits(b.rows, n))
  {
    NamesAgree(nodes);
    WaitingIsAwaited(b.rows, n);
    var ext: seq<Record> :| CycleAdds(b, nodes, at, ext) && CycleRows(b.rows, b'.rows, ext, nodes, now);
    if Awaits(b.rows, n) {
      var r :| r in b.rows && r.node == n && r.Pending();
      var i :| 0 <= i < |b.rows| && b.rows[i] == r;
      assert b'.rows[i] == Judged(b.rows[i], nodes, now);
    } else {
      var r: Record :| r in ext && r.node == n;
      var j :| 0 <= j < |ext| && ext[j] == r;
      assert b'.rows[|b.rows|..][j] == r && b'.rows[|b.rows| + j] == r;
    }
  }
}
