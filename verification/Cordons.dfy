/**
  What plans do with cordoned nodes (internal/planner/greedy.go, internal/constraints/placement.go): nothing
  is ever moved onto one, but one that still holds movable pods may be drained like any other.
 */
module Cordons {
  import opened Model
  import opened Packings
  import opened Planning
  import opened Runs
  import opened PlanSafety

  ghost predicate IsCordoned(v: Packing, n: string) { n in v.bins && v.bins[n].node.unschedulable }

  /** Nothing on the node can be moved off it. */
  ghost predicate Settled(v: Packing, n: string) { forall q | Sits(v, q) && q.nodeName == n :: !q.IsMovable() }

  ghost predicate Avoids(moves: seq<Move>, n: string) { forall m | m in moves :: m.toNode != n }

  ghost predicate Spares(moves: seq<Move>, n: string) { forall m | m in moves :: m.fromNode != n }

  lemma {:induction false} LastEntersOpen(v0: Packing, ceiling: real, moves: seq<Move>, n: string)
    requires Sound(v0, v0, ceiling, {}) && LegalRun(v0, moves) && moves != [] && IsCordoned(v0, n)
    ensures moves[|moves| - 1].toNode != n
  {
    var front := moves[..|moves| - 1];
    LegalPrefix(v0, moves, |moves| - 1);
    LegalRunSound(v0, ceiling, front);
    var p := LastAdmits(v0, moves);
    assert !Replay(v0, front).bins[moves[|moves| - 1].toNode].node.unschedulable;
  }

  /** A pod can only have come to a node by a move that names it. */
  lemma {:induction false} LastSettles(v0: Packing, ceiling: real, moves: seq<Move>, n: string)
    requires Sound(v0, v0, ceiling, {}) && LegalRun(v0, moves) && moves != []
    requires Settled(Replay(v0, moves[..|moves| - 1]), n) && moves[|moves| - 1].toNode != n
    ensures Settled(Replay(v0, moves), n) && moves[|moves| - 1].fromNode != n
  {
    var v, t := Replay(v0, moves[..|moves| - 1]), moves[|moves| - 1].toNode;
    var q := LastRelocates(v0, ceiling, moves);
    LastMove(v0, moves);
    RelocatedMoves(v, q, t);
  }

  /** No legal run enters a cordoned node. */
  lemma {:induction false} RunAvoids(v0: Packing, ceiling: real, moves: seq<Move>, n: string)
    requires Sound(v0, v0, ceiling, {}) && LegalRun(v0, moves) && IsCordoned(v0, n)
    ensures Avoids(moves, n)
  {
    if moves != [] {
      RunAvoids(v0, ceiling, moves[..|moves| - 1], n);
      LastEntersOpen(v0, ceiling, moves, n);
      FrontOrLast(moves);
    }
  }

  /** A cordoned node with nothing to move stays so, and no legal run leaves it. */
  lemma {:induction false} RunSpares(v0: Packing, ceiling: real, moves: seq<Move>, n: string)
    requires Sound(v0, v0, ceiling, {}) && LegalRun(v0, moves) && Avoids(moves, n) && Settled(v0, n)
    ensures Spares(moves, n) && Settled(Replay(v0, moves), n)
  {
    if moves != [] {
      var front := moves[..|moves| - 1];
      RunSpares(v0, ceiling, front, n);
      LastSettles(v0, ceiling, moves, n);
      FrontOrLast(moves);
    }
  }

  lemma {:induction false} AllMovesOf(steps: seq<PlanStep>, i: nat)
    requires i < |steps|
    ensures forall m | m in steps[i].moves :: m in AllMoves(steps)
  {
    if i < |steps| - 1 { AllMovesOf(steps[..|steps| - 1], i); }
  }

  lemma {:induction false} TargetSpared(steps: seq<PlanStep>, i: nat, n: string)
    requires OrderlySteps(steps) && i < |steps| && Spares(AllMoves(steps), n)
    ensures steps[i].targetNode != n
  {
    AllMovesOf(steps, i);
    assert steps[i].moves[0] in steps[i].moves;
  }

  /** No plan moves a pod onto a cordoned node; and one that holds nothing movable is no step's target. */
  lemma {:induction false} PlanAvoidsCordoned(snap: Snapshot, analysis: Analysis, opts: Options, n: string)
    requires Admissible(snap) && IsCordoned(Packed(snap, opts.packCeiling), n)
    ensures var v0, steps := Packed(snap, opts.packCeiling), PlanFor(snap, analysis, opts).steps;
      && Avoids(AllMoves(steps), n)
      && (Settled(v0, n) ==> Settled(Replay(v0, AllMoves(steps)), n) && forall s | s in steps :: s.targetNode != n)
  {
    var v0, steps := Packed(snap, opts.packCeiling), PlanFor(snap, analysis, opts).steps;
    PackedSound(snap, opts.packCeiling);
    PlanIsLegal(snap, analysis, opts);
    RunAvoids(v0, opts.packCeiling, AllMoves(steps), n);
    if Settled(v0, n) {
      RunSpares(v0, opts.packCeiling, AllMoves(steps), n);
      forall s | s in steps ensures s.targetNode != n {
        var i :| 0 <= i < |steps| && steps[i] == s;
        TargetSpared(steps, i, n);
      }
    }
  }
}
