/**
 * The paint parameters the toolbar and the palette change: which tool is
 * active (`onPen`, `onEraser`), a width per tool (`penWidth`,
 * `eraserWidth`), the stroke colour and the canvas composite operation, and
 * the line width the canvas context is drawing with.
 */
module Paint {

  /** The two canvas composite operations the program uses. */
  datatype Composite =
    | SourceOver       // "source-over": paint over what is there
    | DestinationOut   // "destination-out": erase to transparent

  datatype Tool = Pen | Eraser

  /** Width of both tools, and of the canvas line, at start-up. */
  const DefaultWidth: int := 10

  /** The stroke colour at start-up (the red preset). */
  const DefaultColor: string := "#f44336"

  /** The palette's named presets and their fixed colours. */
  const Presets: map<string, string> := map[
    "red" := "#f44336",
    "orange" := "#ff9800",
    "yellow" := "#ffeb3b",
    "green" := "#4caf50",
    "blue" := "#2196f3",
    "purple" := "#9c27b0",
    "black" := "#000000"
  ]

  /** The composite operation that goes with a tool. */
  function CompositeFor(tool: Tool): Composite
  {
    if tool == Pen then SourceOver else DestinationOut
  }

  /**
   * The colour switch of `handleColorChange`: the stroke colour after the
   * palette control `name` (carrying `value`) was clicked, given the colour
   * `current` before.
   */
  function StrokeStyleFor(name: string, value: string, current: string): (r: string)
    ensures name in Presets ==> r == Presets[name]
    ensures name == "color" ==> r == value
    ensures name !in Presets && name != "color" ==> r == current
  {
    match name
    case "red" => "#f44336"
    case "orange" => "#ff9800"
    case "yellow" => "#ffeb3b"
    case "green" => "#4caf50"
    case "blue" => "#2196f3"
    case "purple" => "#9c27b0"
    case "black" => "#000000"
    case "color" => value
    case _ => current
  }

  class PaintState {
    var onPen: bool
    var onEraser: bool
    var penWidth: int
    var eraserWidth: int
    var strokeStyle: string
    var composite: Composite
    var lineWidth: int

    /**
     * Exactly one tool is active and the composite operation follows it; the
     * context's line width is positive, since the canvas refuses any other.
     */
    predicate Valid()
      reads this
    {
      onPen == !onEraser && composite == CompositeFor(if onPen then Pen else Eraser)
      && lineWidth > 0
    }

    /** The active tool. */
    function ActiveTool(): (tool: Tool)
      reads this
      requires Valid()
      ensures tool == Pen <==> onPen
      ensures tool == Eraser <==> onEraser
      ensures composite == CompositeFor(tool)
    {
      if onPen then Pen else Eraser
    }

    /** The width kept for the active tool. */
    function ActiveWidth(): (w: int)
      reads this
      requires Valid()
      ensures ActiveTool() == Pen ==> w == penWidth
      ensures ActiveTool() == Eraser ==> w == eraserWidth
    {
      if onPen then penWidth else eraserWidth
    }

    /** The context set-up at start-up: red pen, width 10, canvas default composite. */
    constructor ()
      ensures Valid() && ActiveTool() == Pen
      ensures penWidth == DefaultWidth && eraserWidth == DefaultWidth && lineWidth == DefaultWidth
      ensures strokeStyle == DefaultColor && composite == SourceOver
    {
      onPen, onEraser := true, false;
      penWidth, eraserWidth := DefaultWidth, DefaultWidth;
      strokeStyle := DefaultColor;
      composite := SourceOver;
      lineWidth := DefaultWidth;
    }

    /** The pen and eraser branches of `handleTools`, for the toolbar button called `name`. */
    method SelectTool(name: string)
      requires Valid()
      modifies this
      ensures Valid()
      ensures name == "pen" ==> ActiveTool() == Pen && composite == SourceOver
      ensures name == "eraser" ==> ActiveTool() == Eraser && composite == DestinationOut
      ensures name != "pen" && name != "eraser" ==>
                onPen == old(onPen) && onEraser == old(onEraser) && composite == old(composite)
      ensures penWidth == old(penWidth) && eraserWidth == old(eraserWidth)
      ensures strokeStyle == old(strokeStyle) && lineWidth == old(lineWidth)
    {
      if name == "pen" {
        composite := SourceOver;
        onPen := true;
        onEraser := false;
      }
      if name == "eraser" {
        composite := DestinationOut;
        onPen := false;
        onEraser := true;
      }
    }

    /** `handleStrokeWidth`: the slider's committed value goes to the active tool only. */
    method HandleStrokeWidth(value: int)
      requires Valid()
      modifies this
      ensures Valid() && ActiveTool() == old(ActiveTool())
      ensures ActiveWidth() == value
      ensures ActiveTool() == Pen ==> eraserWidth == old(eraserWidth)
      ensures ActiveTool() == Eraser ==> penWidth == old(penWidth)
      ensures strokeStyle == old(strokeStyle) && composite == old(composite)
      ensures lineWidth == old(lineWidth)
    {
      if onPen {
        penWidth := value;
      }
      if onEraser {
        eraserWidth := value;
      }
    }

    /**
     * `handleColorChange`: any palette click selects the pen and paints over;
     * a preset sets its colour, the colour picker (`name` "color") sets its
     * `value`, and any other name leaves the colour as it was.
     */
    method HandleColorChange(name: string, value: string)
      requires Valid()
      modifies this
      ensures Valid() && ActiveTool() == Pen && composite == SourceOver
      ensures strokeStyle == StrokeStyleFor(name, value, old(strokeStyle))
      ensures penWidth == old(penWidth) && eraserWidth == old(eraserWidth)
      ensures lineWidth == old(lineWidth)
    {
      onPen := true;
      onEraser := false;
      composite := SourceOver;
      strokeStyle := StrokeStyleFor(name, value, strokeStyle);
    }

    /**
     * The width set-up at the head of `draw`: the line takes the active tool's
     * width. The canvas ignores a width of zero or less, so the line then
     * keeps the width it had.
     */
    method ApplyLineWidth()
      requires Valid()
      modifies this
      ensures Valid()
      ensures ActiveWidth() > 0 ==> lineWidth == ActiveWidth()
      ensures ActiveWidth() <= 0 ==> lineWidth == old(lineWidth)
      ensures onPen == old(onPen) && onEraser == old(onEraser)
      ensures penWidth == old(penWidth) && eraserWidth == old(eraserWidth)
      ensures strokeStyle == old(strokeStyle) && composite == old(composite)
    {
      if onPen && penWidth > 0 {
        lineWidth := penWidth;
      }
      if onEraser && eraserWidth > 0 {
        lineWidth := eraserWidth;
      }
    }
  }
}
