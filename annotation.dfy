/** The text annotations ("canvas texts") of a slide: the live elements the
    editor mutates, the snapshot entries it records for undo, the private drag
    state every element carries, and the two style toggles. */
module Annotation {

  /** A CSS `left` / `top` value as the editor writes it: `50%` when a text is
      added, `<n>px` once it has been dragged. */
  datatype Offset = Percent(pct: int) | Px(px: int)

  /** The state a drag closure keeps for its element: the `isDragging` flag and
      the pointer's offset from the element's corner, recorded on press. */
  datatype Drag = Drag(isDragging: bool, offsetX: int, offsetY: int)

  /** The state of a freshly made draggable element (the offsets are not read
      until a press has set them). */
  const Idle := Drag(false, 0, 0)

  /** A live `.canvas-text` element: its text content, the inline style
      properties the editor reads and writes (CSS values kept as opaque
      strings), its position and its drag state. */
  datatype Element = Element(
    text: string,
    family: string,
    size: string,
    color: string,
    fontStyle: string,
    align: string,
    lineHeight: string,
    left: Offset,
    top: Offset,
    drag: Drag)

  /** One entry of a snapshot, shaped like the object the editor records. */
  datatype Font = Font(family: string, size: string, color: string, style: string, align: string, lineHeight: string)
  datatype Position = Position(left: Offset, top: Offset)
  datatype TextState = TextState(text: string, font: Font, position: Position)

  /** A snapshot of the active slide: one entry per annotation, in document order. */
  type Snapshot = seq<TextState>

  /** What a snapshot records of one element: everything but its drag state. */
  function Capture(e: Element): TextState
  {
    TextState(e.text,
              Font(e.family, e.size, e.color, e.fontStyle, e.align, e.lineHeight),
              Position(e.left, e.top))
  }

  /** A fresh element made from a snapshot entry, as undo and redo do it. */
  function Build(st: TextState): (e: Element)
    ensures Capture(e) == st
    ensures e.drag == Idle
  {
    Element(st.text, st.font.family, st.font.size, st.font.color, st.font.style,
            st.font.align, st.font.lineHeight, st.position.left, st.position.top, Idle)
  }

  /** Rebuilding a captured element gives it back, except that it is no
      longer being dragged. */
  lemma BuildCapture(e: Element)
    ensures Build(Capture(e)) == e.(drag := Idle)
  {
  }

  /** The snapshot of a whole slide. */
  function CaptureScene(slide: seq<Element>): (s: Snapshot)
    ensures |s| == |slide|
    ensures forall k :: 0 <= k < |slide| ==> s[k] == Capture(slide[k])
  {
    if slide == [] then [] else [Capture(slide[0])] + CaptureScene(slide[1..])
  }

  /** The slide rebuilt from a snapshot. */
  function BuildScene(s: Snapshot): (slide: seq<Element>)
    ensures |slide| == |s|
    ensures forall k :: 0 <= k < |s| ==> slide[k] == Build(s[k])
  {
    if s == [] then [] else [Build(s[0])] + BuildScene(s[1..])
  }

  /** Restoring a snapshot and capturing the result gives the snapshot back,
      field for field and in order. */
  lemma {:induction false} CaptureBuildScene(s: Snapshot)
    ensures CaptureScene(BuildScene(s)) == s
  {
    var t := CaptureScene(BuildScene(s));
    assert forall k :: 0 <= k < |s| ==> t[k] == s[k];
  }

  /** Capturing a slide and rebuilding it gives the same slide with every
      drag state reset. */
  lemma {:induction false} BuildCaptureScene(slide: seq<Element>)
    ensures |BuildScene(CaptureScene(slide))| == |slide|
    ensures forall k :: 0 <= k < |slide| ==> BuildScene(CaptureScene(slide))[k] == slide[k].(drag := Idle)
  {
    forall k | 0 <= k < |slide|
      ensures BuildScene(CaptureScene(slide))[k] == slide[k].(drag := Idle)
    {
      BuildCapture(slide[k]);
    }
  }

  // ---------------------------------------------------------------------------
  // Drag state machine of one element: Idle -> Dragging -> Idle

  /** `mousedown` on the element: it starts dragging and remembers where, on
      the element, the pointer grabbed it. */
  function Pressed(e: Element, clientX: int, clientY: int, rectLeft: int, rectTop: int): (r: Element)
    ensures r.drag.isDragging
    ensures rectLeft + r.drag.offsetX == clientX && rectTop + r.drag.offsetY == clientY
    ensures Capture(r) == Capture(e)
  {
    e.(drag := Drag(true, clientX - rectLeft, clientY - rectTop))
  }

  /** A document-level `mousemove` as this element's listener sees it: while
      dragging, the corner follows the pointer, in pixels and without
      clamping; otherwise nothing changes. */
  function Moved(e: Element, clientX: int, clientY: int): (r: Element)
    ensures !e.drag.isDragging ==> r == e
    ensures e.drag.isDragging ==> r.left == Px(clientX - e.drag.offsetX) && r.top == Px(clientY - e.drag.offsetY)
    ensures r.drag == e.drag && r.text == e.text && Capture(r).font == Capture(e).font
  {
    if e.drag.isDragging then
      e.(left := Px(clientX - e.drag.offsetX), top := Px(clientY - e.drag.offsetY))
    else
      e
  }

  /** A document-level `mouseup` as this element's listener sees it: the flag
      is cleared whether or not a drag was in progress. */
  function Released(e: Element): (r: Element)
    ensures !r.drag.isDragging
    ensures Capture(r) == Capture(e)
    ensures !e.drag.isDragging ==> r == e
  {
    e.(drag := e.drag.(isDragging := false))
  }

  /** Pressing while the element's bounding rectangle has its corner at
      (rectLeft, rectTop) and then moving the pointer by (dx, dy) sets `left`
      and `top` to (rectLeft + dx, rectTop + dy) pixels: the rectangle's
      corner at press time moved by the pointer's displacement. */
  lemma DragFollowsPointer(e: Element, x: int, y: int, rectLeft: int, rectTop: int, dx: int, dy: int)
    ensures Moved(Pressed(e, x, y, rectLeft, rectTop), x + dx, y + dy).left == Px(rectLeft + dx)
    ensures Moved(Pressed(e, x, y, rectLeft, rectTop), x + dx, y + dy).top == Px(rectTop + dy)
  {
  }

  // ---------------------------------------------------------------------------
  // Style toggles

  /** The alignment button's rule for one element: `center` becomes `left`,
      anything else becomes `center`. */
  function ToggledAlign(align: string): (r: string)
    ensures r == "left" || r == "center"
    ensures r != align
    ensures r == "left" <==> align == "center"
  {
    if align == "center" then "left" else "center"
  }

  /** The line-height button's rule for one element: `1.5` becomes `1`,
      anything else (including unset) becomes `1.5`. */
  function ToggledLineHeight(lineHeight: string): (r: string)
    ensures r == "1" || r == "1.5"
    ensures r != lineHeight
    ensures r == "1" <==> lineHeight == "1.5"
  {
    if lineHeight == "1.5" then "1" else "1.5"
  }

  /** On its two values each toggle is an involution. */
  lemma TogglesAreInvolutions(align: string, lineHeight: string)
    requires align == "center" || align == "left"
    requires lineHeight == "1" || lineHeight == "1.5"
    ensures ToggledAlign(ToggledAlign(align)) == align
    ensures ToggledLineHeight(ToggledLineHeight(lineHeight)) == lineHeight
  {
  }
}
