/**
 * The drawing surface: the visible canvas raster, the stroke flag and the
 * last pointer position, wired to the history and the paint state. Its
 * methods are the event handlers of index.js, with what the canvas API
 * would compute (the raster after a segment, the blank raster) and the
 * answer of the confirmation dialog passed in as parameters.
 */
module Canvas {

  import opened SnapshotHistory
  import opened Paint
  import opened StrokeGate

  class Sketch {
    const history: History
    const paint: PaintState
    /** The raster currently on the canvas. */
    var displayed: Snapshot
    var isDrawing: bool
    var lastX: int
    var lastY: int

    /** Between strokes the canvas shows the snapshot under the history's cursor. */
    ghost predicate Valid()
      reads this, history, paint
    {
      history.Valid() && paint.Valid()
      && (!isDrawing ==> displayed == Shown(history.Value()))
    }

    /** Start-up: the canvas is filled white and that raster seeds the history. */
    constructor (blank: Snapshot)
      ensures Valid() && fresh(history) && fresh(paint)
      ensures history.Value() == Seed(blank) && displayed == blank
      ensures !isDrawing && lastX == 0 && lastY == 0
      ensures paint.ActiveTool() == Pen && paint.strokeStyle == DefaultColor
      ensures paint.penWidth == DefaultWidth && paint.eraserWidth == DefaultWidth
      ensures paint.lineWidth == DefaultWidth
    {
      history := new History(blank);
      paint := new PaintState();
      displayed := blank;
      isDrawing := false;
      lastX, lastY := 0, 0;
    }

    /** `startDrawing` (mousedown): raises the flag even when a stroke is already under way. */
    method StartDrawing(x: int, y: int)
      requires Valid()
      modifies this
      ensures Valid()
      ensures isDrawing == Step(old(isDrawing), Down).drawing
      ensures lastX == x && lastY == y && displayed == old(displayed)
    {
      isDrawing := true;
      lastX, lastY := x, y;
    }

    /**
     * `draw` (mousemove): nothing unless a stroke is under way; otherwise the
     * line takes the active tool's width (unless the canvas refuses it as zero
     * or less) and `painted`, the raster with the new segment, is on the canvas.
     */
    method Draw(x: int, y: int, painted: Snapshot)
      requires Valid()
      modifies this, paint
      ensures Valid()
      ensures isDrawing == Step(old(isDrawing), Move).drawing
      ensures !old(isDrawing) ==> unchanged(this, paint)
      ensures old(isDrawing) ==> displayed == painted
      ensures old(isDrawing) && paint.ActiveWidth() > 0 ==> paint.lineWidth == paint.ActiveWidth()
      ensures paint.ActiveWidth() <= 0 ==> paint.lineWidth == old(paint.lineWidth)
      ensures paint.ActiveTool() == old(paint.ActiveTool()) && paint.strokeStyle == old(paint.strokeStyle)
      ensures paint.penWidth == old(paint.penWidth) && paint.eraserWidth == old(paint.eraserWidth)
      ensures lastX == old(lastX) && lastY == old(lastY)
    {
      if !isDrawing {
        return;
      }
      paint.ApplyLineWidth();
      displayed := painted;
    }

    /**
     * `endDrawing` (mouseup, mouseout): nothing unless a stroke is under way;
     * otherwise the flag drops and `finished`, the raster with the closed
     * path, is committed to the history exactly once.
     */
    method EndDrawing(finished: Snapshot)
      requires Valid()
      modifies this, history
      ensures Valid()
      ensures isDrawing == Step(old(isDrawing), Up).drawing
      ensures !old(isDrawing) ==> unchanged(this, history)
      ensures Step(old(isDrawing), Up).commits ==>
                displayed == finished && history.Value() == Commit(old(history.Value()), finished)
      ensures lastX == old(lastX) && lastY == old(lastY)
    {
      if !isDrawing {
        return;
      }
      isDrawing := false;
      displayed := finished;
      history.UpdateSteps(finished);
    }

    /**
     * `clearCanvas`: when the dialog is declined nothing changes; otherwise
     * the canvas shows `blank` and the history holds only it.
     */
    method ClearCanvas(confirmed: bool, blank: Snapshot)
      requires Valid()
      modifies this, history
      ensures Valid()
      ensures !confirmed ==> unchanged(this, history)
      ensures confirmed ==> displayed == blank && history.Value() == Seed(blank)
      ensures isDrawing == old(isDrawing) && lastX == old(lastX) && lastY == old(lastY)
    {
      if !confirmed {
        return;
      }
      displayed := blank;
      history.Reset(blank);
    }

    /** `handleTools`: the clear button clears; the pen and eraser buttons select their tool. */
    method HandleTools(name: string, confirmed: bool, blank: Snapshot)
      requires Valid()
      modifies this, history, paint
      ensures Valid()
      ensures name == "clear" ==> unchanged(paint)
      ensures name == "clear" && !confirmed ==> unchanged(this, history)
      ensures name == "clear" && confirmed ==> displayed == blank && history.Value() == Seed(blank)
      ensures name != "clear" ==> unchanged(this, history)
      ensures name == "pen" ==> paint.ActiveTool() == Pen && paint.composite == SourceOver
      ensures name == "eraser" ==> paint.ActiveTool() == Eraser && paint.composite == DestinationOut
      ensures name != "pen" && name != "eraser" ==> paint.ActiveTool() == old(paint.ActiveTool())
      ensures paint.penWidth == old(paint.penWidth) && paint.eraserWidth == old(paint.eraserWidth)
      ensures paint.strokeStyle == old(paint.strokeStyle) && paint.lineWidth == old(paint.lineWidth)
      ensures isDrawing == old(isDrawing) && lastX == old(lastX) && lastY == old(lastY)
    {
      if name == "clear" {
        ClearCanvas(confirmed, blank);
        return;
      }
      paint.SelectTool(name);
    }

    /**
     * `handleUndo` for the button called `name`: the history moves as undo or
     * redo says; at a boundary the canvas is left alone, otherwise it shows
     * the snapshot under the cursor.
     */
    method HandleUndo(name: string)
      requires Valid()
      modifies this, history
      ensures Valid()
      ensures name == "undo" ==> history.Value() == Undo(old(history.Value()))
      ensures name == "redo" ==> history.Value() == Redo(old(history.Value()))
      ensures name != "undo" && name != "redo" ==> history.Value() == old(history.Value())
      ensures (name == "undo" && UndoDisabled(old(history.Value())))
              || (name == "redo" && RedoDisabled(old(history.Value())))
              ==> displayed == old(displayed)
      ensures !((name == "undo" && UndoDisabled(old(history.Value())))
                || (name == "redo" && RedoDisabled(old(history.Value()))))
              ==> displayed == Shown(history.Value())
      ensures isDrawing == old(isDrawing) && lastX == old(lastX) && lastY == old(lastY)
    {
      var repaint := history.HandleUndo(name);
      if repaint.Some? {
        displayed := repaint.value;
      }
    }
  }

  /**
   * Clicking undo and then redo between strokes puts back the history and
   * the raster the canvas showed before the undo.
   */
  method UndoThenRedo(sketch: Sketch)
    requires sketch.Valid() && !sketch.isDrawing && !UndoDisabled(sketch.history.Value())
    modifies sketch, sketch.history
    ensures sketch.Valid()
    ensures sketch.history.Value() == old(sketch.history.Value())
    ensures sketch.displayed == old(sketch.displayed)
  {
    sketch.HandleUndo("undo");
    sketch.HandleUndo("redo");
    UndoRedo(old(sketch.history.Value()));
  }
}
