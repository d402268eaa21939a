# Simple canvas demo: undo/redo history and paint state in Dafny

This project models the state logic of a browser freehand-drawing page
(`index.js`). It covers three parts:

- **Snapshot history.** This is a bounded list of whole-canvas raster snapshots (`steps`, at most `maxSteps` = 50) with a
  cursor (`idx`). A finished stroke is committed: the redo branch after the
  cursor is dropped, the new snapshot is appended, and the oldest entry is
  evicted when the list grows past 50. Undo and redo move the cursor and do nothing
  at the ends. Clear, after confirmation, resets the list to one blank
  snapshot.
- **Paint state.** Exactly one of pen and eraser is active (`onPen`, `onEraser`). Each tool keeps its own
  width. The canvas composite operation follows the tool, and a palette click
  forces the pen.
- **Stroke gating.** This is the `isDrawing` flag of the mousedown, mousemove and mouseup/mouseout
  handlers.

Modules:

- `SnapshotHistory` (history.dfy) holds the history as a value (`Timeline`) and its
  operations as functions. These are the specification. It also holds lemmas about whole sessions of
  user actions (`Run`), and the class `History`, whose fields `steps` and
  `idx` the methods update statement by statement as the program does. Each
  `History` method is proved equal to the corresponding function.
- `Paint` (paint.dfy) holds the class `PaintState` with the tool flags, the widths, the stroke
  colour, the composite operation and the context's line width. Its invariant `Valid()`
  says that exactly one tool is active, the composite operation matches it, and the line width is positive.
- `StrokeGate` (stroke.dfy) models the flag as a pure transition on one pointer event, with
  lemmas over event streams.
- `Canvas` (sketch.dfy) holds the class `Sketch`: the visible raster (`displayed`), the flag,
  the last pointer position, and the handlers that wire the three parts
  together. Its invariant says that between strokes the canvas shows the
  snapshot under the history's cursor.

A snapshot is the opaque type `Snapshot`. Anything the canvas API would compute is passed in as a parameter:
the raster after a segment, the raster after the path is closed, and the blank
raster after the white fill. The answer of the confirmation dialog is a boolean
parameter too. Repainting a snapshot means assigning `displayed`.

Three behaviours of the code that a reader might not expect are modelled as written:

- `startDrawing` raises the flag even while a stroke is under way (`index.js:46`).
  It does not ignore the second mousedown.
- `draw` does not move `lastX`/`lastY`. The path simply grows by `lineTo`, so the
  anchor is only set on mousedown.
- `handleUndo` called with a button name that is neither `undo` nor `redo`
  moves nothing but still repaints `steps[idx]`.

## Model

| member | source | states |
|---|---|---|
| `SnapshotHistory.Seed` | index.js:32-41 | the starting history is one blank snapshot with the cursor on it; it is well formed, and neither an undo nor a redo click would change anything |
| `SnapshotHistory.Newest` | index.js:91-94 | the newest n entries, in order, ending with the last entry |
| `SnapshotHistory.Commit` | index.js:79-94 | after a commit the history is well formed (1..50 entries, cursor in range); the cursor is on the last entry, which is the new snapshot, so redo is disabled; the length is min(old cursor + 2, 50); every older entry is one of the entries up to the old cursor, in the same order |
| `SnapshotHistory.Undo` | index.js:209-212 | undo keeps the steps and the invariant; it is a no-op exactly when undo is disabled, and otherwise the cursor moves back by exactly one |
| `SnapshotHistory.Redo` | index.js:215-218 | redo keeps the steps and the invariant; it is a no-op exactly when redo is disabled, and otherwise the cursor moves forward by exactly one |
| `SnapshotHistory.Apply` | index.js:137-144 | each user action keeps the invariant; a declined clear leaves the history as it was, and a confirmed clear gives the one-blank history whatever was there before |
| `SnapshotHistory.Run` | index.js:79-219 | every history reached by any session of commits, undos, redos and clears is well formed |
| `SnapshotHistory.StrokesFromEnd` | index.js:82-94 | commits with no undo in between, starting with nothing to redo, give min(old length + N, 50) entries and leave nothing to redo |
| `SnapshotHistory.StrokesFromSeed` | index.js:36-94 | from the seed, N commits give min(N + 1, 50) snapshots with the cursor at min(N, 49) |
| `SnapshotHistory.UndoRedo` | index.js:206-219 | when undo is enabled, undo then redo restores the history, cursor included; `Canvas.UndoThenRedo` carries this to the canvas |
| `SnapshotHistory.RedoUndo` | index.js:206-219 | when redo is enabled, redo then undo restores the history |
| `SnapshotHistory.CommitKeepsShown` | index.js:82-94 | after a commit, including one that evicts, the snapshot shown before sits just below the new cursor |
| `SnapshotHistory.PruneRedoBranch` | index.js:82-88 | [s0,s1,s2,s3] at cursor 3, two undos and a commit of s4 give [s0,s1,s4] at cursor 2 with redo disabled |
| `SnapshotHistory.Session` | index.js:79-219 | seed, three commits, then undo shows s2, a second undo shows s1, redo shows s2, and a commit of s4 gives [b0,s1,s2,s4] with the cursor at 3 and nothing to redo |
| `SnapshotHistory.History.constructor` | index.js:32-41 | the class starts as the seed history |
| `SnapshotHistory.History.UpdateSteps` | index.js:79-94 | the slice, push, increment, shift and decrement leave exactly `Commit` of the old history, and keep the invariant |
| `SnapshotHistory.History.HandleUndo` | index.js:206-219 | an undo click gives `Undo`, a redo click gives `Redo`, any other name gives no change; nothing is repainted exactly at a boundary, otherwise the snapshot under the new cursor is repainted |
| `SnapshotHistory.History.Reset` | index.js:142-144 | the history becomes the one-blank seed |
| `SnapshotHistory.History.ToggleUndoRedoClass` | index.js:100-106 | undo is disabled exactly when idx is 0, which is exactly when an undo click would change nothing; redo is disabled exactly when idx is the last index, which is exactly when a redo click would change nothing |
| `Paint.StrokeStyleFor` | index.js:179-188 | a named preset gives its fixed colour; the colour picker gives its value; any other name keeps the current colour |
| `Paint.PaintState.ActiveTool` | index.js:19-21 | the active tool is the pen exactly when `onPen` holds and the eraser exactly when `onEraser` holds; the composite operation is the active tool's |
| `Paint.PaintState.constructor` | index.js:13-29 | start-up is the pen, red, width 10 for the line and both tools, painting over |
| `Paint.PaintState.SelectTool` | index.js:118-132 | pen gives the pen with source-over, eraser gives the eraser with destination-out, other names change nothing; widths and colour are untouched; exactly one tool stays active |
| `Paint.PaintState.HandleStrokeWidth` | index.js:160-164 | the new width goes to the active tool only; the other tool's width, the tool and the colour stay |
| `Paint.PaintState.HandleColorChange` | index.js:170-188 | any palette click selects the pen with source-over; the colour becomes `StrokeStyleFor` of the click; the widths stay |
| `Paint.PaintState.ApplyLineWidth` | index.js:59-60 | the line width becomes the active tool's width when that is positive; a width of zero or less is refused as the canvas refuses it, so the line keeps its width; nothing else changes |
| `StrokeGate.Step` | index.js:44-76 | mousedown always raises the flag; moves and ends do nothing while not drawing; a segment is painted exactly on a move during a stroke; a commit happens exactly on an end during a stroke, and the end lowers the flag |
| `StrokeGate.CommitsBounded` | index.js:44-76 | over any stream of pointer events the commits never outnumber the mousedowns (plus one for a stroke already under way) nor the ends |
| `StrokeGate.MovesOnly` | index.js:53-64 | moves alone never commit and never change the flag |
| `StrokeGate.OneGestureOneCommit` | index.js:44-76 | mousedown, any moves, then mouseup commit exactly once and end not drawing |
| `StrokeGate.StrayEventsIgnored` | index.js:53-73 | with no stroke under way, moves and ends commit nothing and stay not drawing |
| `Canvas.Sketch.constructor` | index.js:18-41 | start-up: the blank raster is shown and seeds the history; not drawing; pen, red, width 10 for both tools and the line |
| `Canvas.Sketch.StartDrawing` | index.js:44-51 | the flag is raised unconditionally and the pointer position is recorded |
| `Canvas.Sketch.Draw` | index.js:53-64 | with no stroke under way nothing changes; otherwise the painted raster is shown and the line width becomes the active tool's, unless that width is zero or less, when the line keeps its width |
| `Canvas.Sketch.EndDrawing` | index.js:66-76 | with no stroke under way nothing changes; otherwise the flag drops, the finished raster is shown and committed exactly once (`Commit`), so the canvas again shows the snapshot under the cursor; the pointer position is kept |
| `Canvas.Sketch.ClearCanvas` | index.js:137-150 | a declined dialog changes nothing; a confirmed one shows the blank raster and resets the history to it |
| `Canvas.Sketch.HandleTools` | index.js:109-135 | the clear button clears and leaves the paint state alone; pen and eraser select their tool and leave history and canvas alone; widths, colour, line width, the flag and the pointer position are kept in every case |
| `Canvas.Sketch.HandleUndo` | index.js:206-225 | the history moves by `Undo` or `Redo`; at a boundary the canvas is unchanged, otherwise it shows the snapshot under the cursor |
| `Canvas.UndoThenRedo` | index.js:206-225 | between strokes, with undo enabled, an undo click followed by a redo click gives back the same history and the same raster on the canvas |

## Left out

- Canvas 2D rendering is a foreign graphics API: `beginPath`, `moveTo`, `lineTo`, `stroke`, `closePath`, `fillRect`, `clearRect`, `getImageData`, `putImageData`, line join and cap. Rasters are opaque and are passed in.
- `Canvas.Sketch.ClearCanvas`: the blank raster is a parameter. So the model does not capture that the white fill obeys the current composite operation, which means that with the eraser active it leaves a transparent raster rather than a white one.
- The `confirm()` dialog is a boolean parameter.
- The buttons' state at start-up is left out. `toggleUndoRedoClass` runs only after a commit, a clear or an undo/redo click (`index.js:96`, `149`, `222`), not when the page loads, so their first look comes from the page markup. `UndoDisabled` and `RedoDisabled` hold at `Seed`, but that says only that a click would change nothing.
- DOM styling is left out: the `active`/`disabled` class toggles, `toggleToolBarClass`, `togglePaletteClass` and the `transitionend` handlers. Only the disabled state is modelled, as booleans.
- `handleTools` copies the active width into the slider and its label (`index.js:122-123`, `130-131`). This is presentation and is left out, as is `handleStrokeWidthDisplay`.
- `Paint.PaintState.HandleStrokeWidth`: the slider delivers a string, which the canvas converts when it becomes `lineWidth`. The model takes an integer, so a string the canvas cannot read as a number is not modelled. Zero and negative widths are stored as the program stores them, and `Paint.PaintState.ApplyLineWidth` refuses them as the canvas does.
- `Paint.StrokeStyleFor`: the canvas ignores an unparsable colour string. The model stores whatever the colour picker delivers.
- `handleSave` (PNG export, `toDataURL`, the `window.location` redirect) is host I/O.
- Canvas sizing from the window size is host-dependent floating-point geometry.
- Event-listener registration and element lookups (`index.js:235-276`) are wiring. This includes mouseout being treated as mouseup, which `StrokeGate.Pointer.Up` stands for.
- `ev.preventDefault()` in `startDrawing` is a browser event detail.
