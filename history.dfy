/**
 * The bounded undo/redo history of whole-canvas snapshots (`steps`, `idx`,
 * `maxSteps` in index.js).
 *
 * The pure part (`Timeline` and the functions over it) is the specification;
 * the class `History` holds the two module-level variables the program
 * mutates and its methods follow the program's statements.
 */
module SnapshotHistory {

  import opened Wrappers

  /** A raster capture of the whole canvas (an `ImageData`); opaque here. */
  type Snapshot

  /** Largest number of snapshots kept (`maxSteps`). */
  const MaxSteps: nat := 50

  /** The history as a value: the snapshots and the cursor into them. */
  datatype Timeline = Timeline(steps: seq<Snapshot>, idx: int)

  /** The invariant every reachable history keeps. */
  predicate WellFormed(t: Timeline)
  {
    1 <= |t.steps| <= MaxSteps && 0 <= t.idx < |t.steps|
  }

  function Min(a: int, b: int): int
  {
    if a <= b then a else b
  }

  /** The history right after start-up or a confirmed clear: one blank snapshot. */
  function Seed(blank: Snapshot): (t: Timeline)
    ensures WellFormed(t)
    ensures UndoDisabled(t) && RedoDisabled(t)
  {
    Timeline([blank], 0)
  }

  /** An undo click would change nothing: the cursor is on the oldest entry. */
  predicate UndoDisabled(t: Timeline)
  {
    t.idx == 0
  }

  /** A redo click would change nothing: the cursor is on the newest entry. */
  predicate RedoDisabled(t: Timeline)
  {
    t.idx == |t.steps| - 1
  }

  /** The newest `n` entries of `s`, or all of `s` when it has no more than `n`. */
  function Newest(s: seq<Snapshot>, n: nat): (r: seq<Snapshot>)
    ensures |r| == Min(|s|, n)
    ensures forall k :: 0 <= k < |r| ==> r[k] == s[|s| - |r| + k]
  {
    if |s| <= n then s else s[|s| - n..]
  }

  /**
   * What committing `snap` means: the entries up to and including the cursor,
   * then `snap`, cut down to the newest `MaxSteps`; the cursor sits on `snap`.
   */
  function Commit(t: Timeline, snap: Snapshot): (r: Timeline)
    requires WellFormed(t)
    ensures WellFormed(r)
    ensures r.idx == |r.steps| - 1 && r.steps[r.idx] == snap
    ensures RedoDisabled(r)
    ensures |r.steps| == Min(t.idx + 2, MaxSteps)
    ensures forall k :: 0 <= k < r.idx ==> r.steps[k] == t.steps[t.idx + 1 - r.idx + k]
  {
    var kept := Newest(t.steps[..t.idx + 1] + [snap], MaxSteps);
    Timeline(kept, |kept| - 1)
  }

  /** Undo: one step back, nothing at the oldest entry. */
  function Undo(t: Timeline): (r: Timeline)
    requires WellFormed(t)
    ensures WellFormed(r) && r.steps == t.steps
    ensures r == t <==> UndoDisabled(t)
    ensures !UndoDisabled(t) ==> r.idx == t.idx - 1
  {
    if t.idx <= 0 then t else t.(idx := t.idx - 1)
  }

  /** Redo: one step forward, nothing at the newest entry. */
  function Redo(t: Timeline): (r: Timeline)
    requires WellFormed(t)
    ensures WellFormed(r) && r.steps == t.steps
    ensures r == t <==> RedoDisabled(t)
    ensures !RedoDisabled(t) ==> r.idx == t.idx + 1
  {
    if t.idx >= |t.steps| - 1 then t else t.(idx := t.idx + 1)
  }

  /** The user actions that reach the history. */
  datatype Action =
    | Stroke(snap: Snapshot)                         // a finished stroke is committed
    | UndoClick
    | RedoClick
    | ClearClick(confirmed: bool, blank: Snapshot)   // the clear button and the dialog's answer

  function Apply(t: Timeline, a: Action): (r: Timeline)
    requires WellFormed(t)
    ensures WellFormed(r)
    ensures a.ClearClick? ==> r == if a.confirmed then Seed(a.blank) else t
  {
    match a
    case Stroke(snap) => Commit(t, snap)
    case UndoClick => Undo(t)
    case RedoClick => Redo(t)
    case ClearClick(confirmed, blank) => if confirmed then Seed(blank) else t
  }

  /** The history after a whole session of actions, applied in order. */
  function Run(t: Timeline, actions: seq<Action>): (r: Timeline)
    requires WellFormed(t)
    ensures WellFormed(r)
    decreases |actions|
  {
    if actions == [] then t else Apply(Run(t, actions[..|actions| - 1]), actions[|actions| - 1])
  }

  predicate AllStrokes(actions: seq<Action>)
  {
    forall i :: 0 <= i < |actions| ==> actions[i].Stroke?
  }

  /** Commits with no undo in between grow the history up to capacity and keep the cursor at the end. */
  lemma {:induction false} StrokesFromEnd(t: Timeline, actions: seq<Action>)
    requires WellFormed(t) && RedoDisabled(t)
    requires AllStrokes(actions)
    ensures |Run(t, actions).steps| == Min(|t.steps| + |actions|, MaxSteps)
    ensures RedoDisabled(Run(t, actions))
    decreases |actions|
  {
    if actions != [] {
      var init := actions[..|actions| - 1];
      assert AllStrokes(init) by {
        forall i | 0 <= i < |init| ensures init[i].Stroke? {
          assert init[i] == actions[i];
        }
      }
      StrokesFromEnd(t, init);
    }
  }

  /** From the seed, N commits and no undo leave min(N + 1, 50) snapshots and the cursor on the last. */
  lemma {:induction false} StrokesFromSeed(blank: Snapshot, actions: seq<Action>)
    requires AllStrokes(actions)
    ensures |Run(Seed(blank), actions).steps| == Min(|actions| + 1, MaxSteps)
    ensures Run(Seed(blank), actions).idx == Min(|actions|, MaxSteps - 1)
  {
    StrokesFromEnd(Seed(blank), actions);
  }

  /** Undo then redo returns to the same history, so the same snapshot is shown. */
  lemma UndoRedo(t: Timeline)
    requires WellFormed(t) && !UndoDisabled(t)
    ensures Redo(Undo(t)) == t
  {
  }

  /** Redo then undo returns to the same history. */
  lemma RedoUndo(t: Timeline)
    requires WellFormed(t) && !RedoDisabled(t)
    ensures Undo(Redo(t)) == t
  {
  }

  /**
   * The eviction keeps what is shown: when commit drops the oldest entry,
   * the snapshot shown before the commit is still just below the cursor.
   */
  lemma CommitKeepsShown(t: Timeline, snap: Snapshot)
    requires WellFormed(t)
    ensures Commit(t, snap).idx >= 1
    ensures Commit(t, snap).steps[Commit(t, snap).idx - 1] == t.steps[t.idx]
  {
  }

  /** The snapshot the canvas shows for a history. */
  function Shown(t: Timeline): Snapshot
    requires WellFormed(t)
  {
    t.steps[t.idx]
  }

  /** Within capacity, a commit keeps the entries up to the cursor and appends. */
  lemma CommitWithinCapacity(t: Timeline, snap: Snapshot)
    requires WellFormed(t) && t.idx + 2 <= MaxSteps
    ensures Commit(t, snap) == Timeline(t.steps[..t.idx + 1] + [snap], t.idx + 1)
  {
  }

  /** At capacity, a commit keeps the entries up to the cursor, appends, and evicts the oldest. */
  lemma CommitEvicts(t: Timeline, snap: Snapshot)
    requires WellFormed(t) && t.idx + 2 > MaxSteps
    ensures Commit(t, snap) == Timeline((t.steps[..t.idx + 1] + [snap])[1..], t.idx)
  {
  }

  /** With nothing to redo and room left, a commit appends the snapshot and moves the cursor onto it. */
  lemma CommitAtTop(steps: seq<Snapshot>, snap: Snapshot)
    requires 1 <= |steps| < MaxSteps
    ensures Apply(Timeline(steps, |steps| - 1), Stroke(snap)) == Timeline(steps + [snap], |steps|)
  {
    CommitWithinCapacity(Timeline(steps, |steps| - 1), snap);
    assert steps[..|steps|] == steps;
  }

  /**
   * The redo branch is pruned: history [s0, s1, s2, s3] at cursor 3, two
   * undos, then a commit of s4, gives [s0, s1, s4] at cursor 2, with nothing
   * left to redo.
   */
  lemma PruneRedoBranch(s0: Snapshot, s1: Snapshot, s2: Snapshot, s3: Snapshot, s4: Snapshot)
    ensures Run(Timeline([s0, s1, s2, s3], 3), [UndoClick, UndoClick, Stroke(s4)])
         == Timeline([s0, s1, s4], 2)
    ensures RedoDisabled(Run(Timeline([s0, s1, s2, s3], 3), [UndoClick, UndoClick, Stroke(s4)]))
  {
    PruneRedoBranchUndos(s0, s1, s2, s3);
    assert [UndoClick, UndoClick, Stroke(s4)][..2] == [UndoClick, UndoClick];
    CommitWithinCapacity(Timeline([s0, s1, s2, s3], 1), s4);
    assert [s0, s1, s2, s3][..2] + [s4] == [s0, s1, s4];
  }

  /** The two undos of `PruneRedoBranch`. */
  lemma PruneRedoBranchUndos(s0: Snapshot, s1: Snapshot, s2: Snapshot, s3: Snapshot)
    ensures Run(Timeline([s0, s1, s2, s3], 3), [UndoClick, UndoClick]) == Timeline([s0, s1, s2, s3], 1)
  {
  }

  /** The first commit of `Session`, from the seed. */
  lemma SessionFirstCommit(b0: Snapshot, s1: Snapshot)
    ensures Run(Seed(b0), [Stroke(s1)]) == Timeline([b0, s1], 1)
  {
    CommitAtTop([b0], s1);
  }

  /** The first two commits of `Session`, from the seed. */
  lemma SessionSecondCommit(b0: Snapshot, s1: Snapshot, s2: Snapshot)
    ensures Run(Seed(b0), [Stroke(s1), Stroke(s2)]) == Timeline([b0, s1, s2], 2)
  {
    SessionFirstCommit(b0, s1);
    CommitAtTop([b0, s1], s2);
  }

  /** The first three commits of `Session`, from the seed. */
  lemma SessionCommits(b0: Snapshot, s1: Snapshot, s2: Snapshot, s3: Snapshot)
    ensures Run(Seed(b0), [Stroke(s1), Stroke(s2), Stroke(s3)]) == Timeline([b0, s1, s2, s3], 3)
  {
    SessionSecondCommit(b0, s1, s2);
    assert [Stroke(s1), Stroke(s2), Stroke(s3)][..2] == [Stroke(s1), Stroke(s2)];
    CommitAtTop([b0, s1, s2], s3);
  }

  /** The first undo of `Session`. */
  lemma SessionFirstUndo(b0: Snapshot, s1: Snapshot, s2: Snapshot, s3: Snapshot)
    ensures Run(Seed(b0), [Stroke(s1), Stroke(s2), Stroke(s3), UndoClick])
         == Timeline([b0, s1, s2, s3], 2)
  {
    SessionCommits(b0, s1, s2, s3);
    assert [Stroke(s1), Stroke(s2), Stroke(s3), UndoClick][..3] == [Stroke(s1), Stroke(s2), Stroke(s3)];
  }

  /** The second undo of `Session`. */
  lemma SessionSecondUndo(b0: Snapshot, s1: Snapshot, s2: Snapshot, s3: Snapshot)
    ensures Run(Seed(b0), [Stroke(s1), Stroke(s2), Stroke(s3), UndoClick, UndoClick])
         == Timeline([b0, s1, s2, s3], 1)
  {
    SessionFirstUndo(b0, s1, s2, s3);
    assert [Stroke(s1), Stroke(s2), Stroke(s3), UndoClick, UndoClick][..4]
        == [Stroke(s1), Stroke(s2), Stroke(s3), UndoClick];
  }

  /** The redo of `Session`. */
  lemma SessionRedo(b0: Snapshot, s1: Snapshot, s2: Snapshot, s3: Snapshot)
    ensures Run(Seed(b0), [Stroke(s1), Stroke(s2), Stroke(s3), UndoClick, UndoClick, RedoClick])
         == Timeline([b0, s1, s2, s3], 2)
  {
    SessionSecondUndo(b0, s1, s2, s3);
    assert [Stroke(s1), Stroke(s2), Stroke(s3), UndoClick, UndoClick, RedoClick][..5]
        == [Stroke(s1), Stroke(s2), Stroke(s3), UndoClick, UndoClick];
  }

  /** The final commit of `Session`. */
  lemma SessionLastCommit(b0: Snapshot, s1: Snapshot, s2: Snapshot, s3: Snapshot, s4: Snapshot)
    ensures Run(Seed(b0), [Stroke(s1), Stroke(s2), Stroke(s3), UndoClick, UndoClick, RedoClick, Stroke(s4)])
         == Timeline([b0, s1, s2, s4], 3)
  {
    SessionRedo(b0, s1, s2, s3);
    assert [Stroke(s1), Stroke(s2), Stroke(s3), UndoClick, UndoClick, RedoClick, Stroke(s4)][..6]
        == [Stroke(s1), Stroke(s2), Stroke(s3), UndoClick, UndoClick, RedoClick];
    CommitAtTop([b0, s1, s2], s4);
  }

  /**
   * A whole session: seed b0, commit s1, s2, s3, undo twice (showing s2 then
   * s1), redo (showing s2 again), commit s4; the history is [b0, s1, s2, s4]
   * with the cursor on s4 and nothing to redo.
   */
  lemma Session(b0: Snapshot, s1: Snapshot, s2: Snapshot, s3: Snapshot, s4: Snapshot)
    ensures Shown(Run(Seed(b0), [Stroke(s1), Stroke(s2), Stroke(s3), UndoClick])) == s2
    ensures Shown(Run(Seed(b0), [Stroke(s1), Stroke(s2), Stroke(s3), UndoClick, UndoClick])) == s1
    ensures Shown(Run(Seed(b0), [Stroke(s1), Stroke(s2), Stroke(s3), UndoClick, UndoClick, RedoClick])) == s2
    ensures Run(Seed(b0), [Stroke(s1), Stroke(s2), Stroke(s3), UndoClick, UndoClick, RedoClick, Stroke(s4)])
         == Timeline([b0, s1, s2, s4], 3)
    ensures RedoDisabled(Run(Seed(b0), [Stroke(s1), Stroke(s2), Stroke(s3), UndoClick, UndoClick, RedoClick, Stroke(s4)]))
  {
    SessionFirstUndo(b0, s1, s2, s3);
    SessionSecondUndo(b0, s1, s2, s3);
    SessionRedo(b0, s1, s2, s3);
    SessionLastCommit(b0, s1, s2, s3, s4);
  }

  /**
   * The history as the program holds it: `steps` is reassigned, `idx` is
   * stepped in place.
   */
  class History {
    var steps: seq<Snapshot>
    var idx: int

    function Value(): Timeline
      reads this
    {
      Timeline(steps, idx)
    }

    predicate Valid()
      reads this
    {
      WellFormed(Value())
    }

    /** Start-up: the blank canvas is pushed onto an empty `steps`. */
    constructor (blank: Snapshot)
      ensures Valid() && Value() == Seed(blank)
    {
      steps := [];
      idx := 0;
      new;
      steps := steps + [blank];
    }

    /** `updateSteps`: prune the redo branch, push, then evict the oldest when over capacity. */
    method UpdateSteps(snap: Snapshot)
      requires Valid()
      modifies this
      ensures Valid()
      ensures Value() == Commit(old(Value()), snap)
    {
      ghost var t := Value();
      if idx < |steps| - 1 {
        steps := steps[..idx + 1];
      }
      assert steps == t.steps[..t.idx + 1];
      steps := steps + [snap];
      idx := idx + 1;
      if |steps| > MaxSteps {
        steps := steps[1..];
        idx := idx - 1;
        CommitEvicts(t, snap);
      } else {
        CommitWithinCapacity(t, snap);
      }
    }

    /**
     * The undo/redo click handler, for the button called `name`. It returns
     * the snapshot to paint back onto the canvas, or None when it returned
     * early at a boundary.
     */
    method HandleUndo(name: string) returns (repaint: Option<Snapshot>)
      requires Valid()
      modifies this
      ensures Valid()
      ensures name == "undo" ==> Value() == Undo(old(Value()))
      ensures name == "redo" ==> Value() == Redo(old(Value()))
      ensures name != "undo" && name != "redo" ==> Value() == old(Value())
      ensures repaint.None? <==>
                (name == "undo" && UndoDisabled(old(Value())))
                || (name == "redo" && RedoDisabled(old(Value())))
      ensures repaint.Some? ==> repaint.value == steps[idx]
    {
      if name == "undo" {
        if idx <= 0 {
          return None;
        }
        idx := idx - 1;
      }
      if name == "redo" {
        if idx >= |steps| - 1 {
          return None;
        }
        idx := idx + 1;
      }
      repaint := Some(steps[idx]);
    }

    /** The reset done by a confirmed clear: `steps` holds only the blank canvas. */
    method Reset(blank: Snapshot)
      modifies this
      ensures Valid() && Value() == Seed(blank)
    {
      steps := [];
      idx := 0;
      steps := steps + [blank];
    }

    /**
     * `toggleUndoRedoClass`: which of the two buttons are disabled. Each is
     * disabled exactly when clicking it would change nothing.
     */
    method ToggleUndoRedoClass() returns (undoDisabled: bool, redoDisabled: bool)
      requires Valid()
      ensures undoDisabled <==> Undo(Value()) == Value()
      ensures redoDisabled <==> Redo(Value()) == Value()
      ensures undoDisabled <==> idx == 0
      ensures redoDisabled <==> idx == |steps| - 1
    {
      undoDisabled := idx == 0;
      redoDisabled := idx == |steps| - 1;
    }
  }
}
