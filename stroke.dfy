/**
 * The `isDrawing` flag of the canvas pointer handlers, as a pure transition
 * on one pointer event, and what it implies over a whole stream of events.
 */
module StrokeGate {

  /** The canvas pointer events: mousedown, mousemove, and mouseup or mouseout. */
  datatype Pointer = Down | Move | Up

  /** The flag after an event, and whether the handler painted a segment or committed a snapshot. */
  datatype Effect = Effect(drawing: bool, paints: bool, commits: bool)

  /**
   * `startDrawing` raises the flag whatever it was; `draw` and `endDrawing`
   * return at once when not drawing; `endDrawing` lowers it and commits.
   */
  function Step(drawing: bool, e: Pointer): (r: Effect)
    ensures e == Down ==> r.drawing && !r.paints && !r.commits
    ensures !drawing && e != Down ==> r == Effect(false, false, false)
    ensures r.paints <==> drawing && e == Move
    ensures r.commits <==> drawing && e == Up
    ensures e == Up ==> !r.drawing
    ensures e == Move ==> r.drawing == drawing
  {
    match e
    case Down => Effect(true, false, false)
    case Move => if !drawing then Effect(false, false, false) else Effect(true, true, false)
    case Up => if !drawing then Effect(false, false, false) else Effect(false, false, true)
  }

  /** The flag after a stream of events. */
  function Final(drawing: bool, es: seq<Pointer>): bool
    decreases |es|
  {
    if es == [] then drawing else Final(Step(drawing, es[0]).drawing, es[1..])
  }

  /** The number of snapshots committed over a stream of events. */
  function Commits(drawing: bool, es: seq<Pointer>): nat
    decreases |es|
  {
    if es == [] then 0
    else (if Step(drawing, es[0]).commits then 1 else 0) + Commits(Step(drawing, es[0]).drawing, es[1..])
  }

  function Count(es: seq<Pointer>, e: Pointer): nat
    decreases |es|
  {
    if es == [] then 0 else (if es[0] == e then 1 else 0) + Count(es[1..], e)
  }

  function B2N(b: bool): nat
  {
    if b then 1 else 0
  }

  /**
   * No stroke commits twice: the commits never outnumber the mousedowns
   * (plus one for a stroke already under way), nor the ends.
   */
  lemma {:induction false} CommitsBounded(drawing: bool, es: seq<Pointer>)
    ensures Commits(drawing, es) + B2N(Final(drawing, es)) <= Count(es, Down) + B2N(drawing)
    ensures Commits(drawing, es) <= Count(es, Up)
    decreases |es|
  {
    if es != [] {
      CommitsBounded(Step(drawing, es[0]).drawing, es[1..]);
    }
  }

  /** Moves alone never commit and never change the flag. */
  lemma {:induction false} MovesOnly(drawing: bool, moves: seq<Pointer>)
    requires forall i :: 0 <= i < |moves| ==> moves[i] == Move
    ensures Commits(drawing, moves) == 0 && Final(drawing, moves) == drawing
    decreases |moves|
  {
    if moves != [] {
      MovesOnly(drawing, moves[1..]);
    }
  }

  /** Commits and final flag of a concatenation of two streams. */
  lemma {:induction false} Concat(drawing: bool, xs: seq<Pointer>, ys: seq<Pointer>)
    ensures Commits(drawing, xs + ys) == Commits(drawing, xs) + Commits(Final(drawing, xs), ys)
    ensures Final(drawing, xs + ys) == Final(Final(drawing, xs), ys)
    decreases |xs|
  {
    if xs == [] {
      assert xs + ys == ys;
    } else {
      assert (xs + ys)[0] == xs[0];
      assert (xs + ys)[1..] == xs[1..] + ys;
      Concat(Step(drawing, xs[0]).drawing, xs[1..], ys);
    }
  }

  /** A gesture (mousedown, moves, mouseup) commits exactly once and ends not drawing. */
  lemma OneGestureOneCommit(drawing: bool, moves: seq<Pointer>)
    requires forall i :: 0 <= i < |moves| ==> moves[i] == Move
    ensures Commits(drawing, [Down] + moves + [Up]) == 1
    ensures !Final(drawing, [Down] + moves + [Up])
  {
    MovesOnly(true, moves);
    Concat(drawing, [Down], moves);
    Concat(drawing, [Down] + moves, [Up]);
    assert [Down][1..] == [];
    assert [Up][1..] == [];
  }

  /** Outside a gesture, stray moves and ends do nothing at all. */
  lemma {:induction false} StrayEventsIgnored(es: seq<Pointer>)
    requires forall i :: 0 <= i < |es| ==> es[i] != Down
    ensures Commits(false, es) == 0 && !Final(false, es)
    decreases |es|
  {
    if es != [] {
      StrayEventsIgnored(es[1..]);
    }
  }
}
