/** The editor's event handlers over the active slide and the history. The
    handlers share state that they update in place: the undo and redo stacks,
    the annotations on the active slide, the alignment button's `active`
    flag and the text field. */
module Script {
  import opened Annotation
  import opened History
  import opened Text

  /** The current values of the style panel's inputs, as the handlers read
      them: the font-type and font-style selects, the font-size field and the
      colour picker. */
  datatype Panel = Panel(family: string, size: string, color: string, fontStyle: string)

  /** The element that adding a text appends: the panel's values, `size`
      in pixels, centred iff the alignment button is active, no line height,
      its corner at the middle of the slide, and not being dragged. */
  function Placed(text: string, panel: Panel, alignActive: bool): (e: Element)
    ensures e.text == text && e.family == panel.family && e.color == panel.color && e.fontStyle == panel.fontStyle
    ensures e.size == panel.size + "px"
    ensures e.align == "center" <==> alignActive
    ensures e.align == "center" || e.align == "left"
    ensures e.lineHeight == ""
    ensures e.left == Percent(50) && e.top == Percent(50)
    ensures !e.drag.isDragging
  {
    Element(text, panel.family, panel.size + "px", panel.color, panel.fontStyle,
            if alignActive then "center" else "left", "", Percent(50), Percent(50), Idle)
  }

  class Editor {
    var undoStack: seq<Snapshot>
    var redoStack: seq<Snapshot>
    /** The `.canvas-text` elements of the active slide, in document order. */
    var slide: seq<Element>
    /** Whether the alignment button carries the `active` class. */
    var alignActive: bool
    /** The value of the text field. */
    var input: string
    /** How many elements have been made draggable so far. Each of them left a
        document-level mouseup listener that is never removed. */
    var listeners: nat

    ghost predicate Valid()
      reads this
    {
      Bounded(State())
    }

    /** The history as the pure steps of module History describe it. */
    ghost function State(): History
      reads this
    {
      History(undoStack, redoStack, CaptureScene(slide))
    }

    constructor (alignActive: bool)
      ensures Valid()
      ensures undoStack == [] && redoStack == [] && slide == []
      ensures this.alignActive == alignActive && input == "" && listeners == 0
    {
      undoStack, redoStack, slide := [], [], [];
      this.alignActive := alignActive;
      input := "";
      listeners := 0;
    }

    /** `saveStateForUndo`: capture the slide, push it with eviction of the
        oldest entry past CAPACITY, and clear the redo stack. */
    method Record()
      requires Valid()
      modifies this
      ensures Valid()
      ensures State() == RecordStep(old(State()))
      ensures slide == old(slide) && alignActive == old(alignActive) && input == old(input) && listeners == old(listeners)
    {
      var textState := CaptureScene(slide);
      undoStack := undoStack + [textState];
      if |undoStack| > CAPACITY {
        undoStack := undoStack[1..];
      }
      redoStack := [];
      RecordStepSpec(old(State()));
    }

    /** `restoreState`: remove every annotation of the slide, then append a
        fresh one per snapshot entry. The result depends on the snapshot
        alone, so restoring the same snapshot twice gives the same slide. */
    method Restore(state: Snapshot)
      modifies this
      ensures slide == BuildScene(state)
      ensures CaptureScene(slide) == state
      ensures forall k :: 0 <= k < |slide| ==> !slide[k].drag.isDragging
      ensures undoStack == old(undoStack) && redoStack == old(redoStack)
      ensures alignActive == old(alignActive) && input == old(input)
      ensures listeners == old(listeners) + |state|
    {
      slide := [];
      var i := 0;
      while i < |state|
        invariant 0 <= i <= |state|
        invariant |slide| == i
        invariant forall k :: 0 <= k < i ==> slide[k] == Build(state[k])
        invariant undoStack == old(undoStack) && redoStack == old(redoStack)
        invariant alignActive == old(alignActive) && input == old(input)
        invariant listeners == old(listeners) + i
      {
        slide := slide + [Build(state[i])];
        listeners := listeners + 1;
        i := i + 1;
      }
      CaptureBuildScene(state);
    }

    /** The undo button. */
    method Undo()
      requires Valid()
      modifies this
      ensures Valid()
      ensures State() == UndoStep(old(State()))
      ensures old(undoStack) == [] ==> slide == old(slide)
      ensures old(undoStack) != [] ==> slide == BuildScene(old(undoStack)[|old(undoStack)| - 1])
      ensures listeners == old(listeners) + (if old(undoStack) == [] then 0 else |old(undoStack)[|old(undoStack)| - 1]|)
      ensures alignActive == old(alignActive) && input == old(input)
    {
      StepsConserveTotal(State());
      if |undoStack| > 0 {
        var stateToRestore := undoStack[|undoStack| - 1];
        undoStack := undoStack[..|undoStack| - 1];
        redoStack := redoStack + [stateToRestore];
        Restore(stateToRestore);
      }
    }

    /** The redo button. */
    method Redo()
      requires Valid()
      modifies this
      ensures Valid()
      ensures State() == RedoStep(old(State()))
      ensures old(redoStack) == [] ==> slide == old(slide)
      ensures old(redoStack) != [] ==> slide == BuildScene(old(redoStack)[|old(redoStack)| - 1])
      ensures listeners == old(listeners) + (if old(redoStack) == [] then 0 else |old(redoStack)[|old(redoStack)| - 1]|)
      ensures alignActive == old(alignActive) && input == old(input)
    {
      StepsConserveTotal(State());
      if |redoStack| > 0 {
        var stateToRestore := redoStack[|redoStack| - 1];
        redoStack := redoStack[..|redoStack| - 1];
        undoStack := undoStack + [stateToRestore];
        Restore(stateToRestore);
      }
    }

    /** `addTextToCanvas`: append one annotation at the end of the slide,
        then record the slide. */
    method AddText(text: string, panel: Panel)
      requires Valid()
      modifies this
      ensures Valid()
      ensures slide == old(slide) + [Placed(text, panel, old(alignActive))]
      ensures State() == RecordStep(old(State()).(shown := CaptureScene(slide)))
      ensures alignActive == old(alignActive) && input == old(input)
      ensures listeners == old(listeners) + 1
    {
      var newText := Placed(text, panel, alignActive);
      slide := slide + [newText];
      listeners := listeners + 1;
      Record();
    }

    /** The add-text button: adds the fixed text `New Text`, untrimmed. */
    method AddTextButton(panel: Panel)
      requires Valid()
      modifies this
      ensures Valid()
      ensures slide == old(slide) + [Placed("New Text", panel, old(alignActive))]
      ensures State() == RecordStep(old(State()).(shown := CaptureScene(slide)))
      ensures alignActive == old(alignActive) && input == old(input)
      ensures listeners == old(listeners) + 1
    {
      AddText("New Text", panel);
    }

    /** A key press in the text field. Only Enter acts: the trimmed field
        value, unless blank, is added as a text and the field is emptied; a
        blank value, or any other key, changes nothing. */
    method KeyDown(key: string, panel: Panel)
      requires Valid()
      modifies this
      ensures Valid()
      ensures key != "Enter" || IsBlank(old(input)) ==>
        && slide == old(slide) && undoStack == old(undoStack) && redoStack == old(redoStack)
        && input == old(input) && listeners == old(listeners)
      ensures key == "Enter" && !IsBlank(old(input)) ==>
        && slide == old(slide) + [Placed(Trim(old(input)), panel, old(alignActive))]
        && State() == RecordStep(old(State()).(shown := CaptureScene(slide)))
        && input == "" && listeners == old(listeners) + 1
      ensures alignActive == old(alignActive)
    {
      if key == "Enter" {
        var text := Trim(input);
        TrimEmptyIffBlank(input);
        if text != "" {
          AddText(text, panel);
          input := "";
        }
      }
    }

    /** The font-type select: every annotation gets the new family. Nothing
        is recorded. */
    method SetFontFamily(value: string)
      modifies this
      ensures |slide| == |old(slide)|
      ensures forall k :: 0 <= k < |slide| ==> slide[k] == old(slide)[k].(family := value)
      ensures undoStack == old(undoStack) && redoStack == old(redoStack)
      ensures alignActive == old(alignActive) && input == old(input) && listeners == old(listeners)
    {
      var i := 0;
      while i < |slide|
        invariant 0 <= i <= |slide| == |old(slide)|
        invariant forall k :: 0 <= k < i ==> slide[k] == old(slide)[k].(family := value)
        invariant forall k :: i <= k < |slide| ==> slide[k] == old(slide)[k]
        invariant undoStack == old(undoStack) && redoStack == old(redoStack)
        invariant alignActive == old(alignActive) && input == old(input) && listeners == old(listeners)
      {
        slide := slide[i := slide[i].(family := value)];
        i := i + 1;
      }
    }

    /** The font-style select: every annotation gets the new style. Nothing
        is recorded. */
    method SetFontStyle(value: string)
      modifies this
      ensures |slide| == |old(slide)|
      ensures forall k :: 0 <= k < |slide| ==> slide[k] == old(slide)[k].(fontStyle := value)
      ensures undoStack == old(undoStack) && redoStack == old(redoStack)
      ensures alignActive == old(alignActive) && input == old(input) && listeners == old(listeners)
    {
      var i := 0;
      while i < |slide|
        invariant 0 <= i <= |slide| == |old(slide)|
        invariant forall k :: 0 <= k < i ==> slide[k] == old(slide)[k].(fontStyle := value)
        invariant forall k :: i <= k < |slide| ==> slide[k] == old(slide)[k]
        invariant undoStack == old(undoStack) && redoStack == old(redoStack)
        invariant alignActive == old(alignActive) && input == old(input) && listeners == old(listeners)
      {
        slide := slide[i := slide[i].(fontStyle := value)];
        i := i + 1;
      }
    }

    /** The font-size field: every annotation gets the new size, in pixels.
        Nothing is recorded. */
    method SetFontSize(value: string)
      modifies this
      ensures |slide| == |old(slide)|
      ensures forall k :: 0 <= k < |slide| ==> slide[k] == old(slide)[k].(size := value + "px")
      ensures undoStack == old(undoStack) && redoStack == old(redoStack)
      ensures alignActive == old(alignActive) && input == old(input) && listeners == old(listeners)
    {
      var i := 0;
      while i < |slide|
        invariant 0 <= i <= |slide| == |old(slide)|
        invariant forall k :: 0 <= k < i ==> slide[k] == old(slide)[k].(size := value + "px")
        invariant forall k :: i <= k < |slide| ==> slide[k] == old(slide)[k]
        invariant undoStack == old(undoStack) && redoStack == old(redoStack)
        invariant alignActive == old(alignActive) && input == old(input) && listeners == old(listeners)
      {
        slide := slide[i := slide[i].(size := value + "px")];
        i := i + 1;
      }
    }

    /** The colour picker: every annotation gets the new colour. Nothing is
        recorded. */
    method SetFontColor(value: string)
      modifies this
      ensures |slide| == |old(slide)|
      ensures forall k :: 0 <= k < |slide| ==> slide[k] == old(slide)[k].(color := value)
      ensures undoStack == old(undoStack) && redoStack == old(redoStack)
      ensures alignActive == old(alignActive) && input == old(input) && listeners == old(listeners)
    {
      var i := 0;
      while i < |slide|
        invariant 0 <= i <= |slide| == |old(slide)|
        invariant forall k :: 0 <= k < i ==> slide[k] == old(slide)[k].(color := value)
        invariant forall k :: i <= k < |slide| ==> slide[k] == old(slide)[k]
        invariant undoStack == old(undoStack) && redoStack == old(redoStack)
        invariant alignActive == old(alignActive) && input == old(input) && listeners == old(listeners)
      {
        slide := slide[i := slide[i].(color := value)];
        i := i + 1;
      }
    }

    /** The alignment button: every annotation's alignment is toggled on its
        own value, then the button's `active` flag flips. Nothing is
        recorded. */
    method ToggleAlign()
      modifies this
      ensures |slide| == |old(slide)|
      ensures forall k :: 0 <= k < |slide| ==> slide[k] == old(slide)[k].(align := ToggledAlign(old(slide)[k].align))
      ensures alignActive == !old(alignActive)
      ensures undoStack == old(undoStack) && redoStack == old(redoStack) && input == old(input) && listeners == old(listeners)
    {
      var i := 0;
      while i < |slide|
        invariant 0 <= i <= |slide| == |old(slide)|
        invariant forall k :: 0 <= k < i ==> slide[k] == old(slide)[k].(align := ToggledAlign(old(slide)[k].align))
        invariant forall k :: i <= k < |slide| ==> slide[k] == old(slide)[k]
        invariant undoStack == old(undoStack) && redoStack == old(redoStack)
        invariant alignActive == old(alignActive) && input == old(input) && listeners == old(listeners)
      {
        slide := slide[i := slide[i].(align := ToggledAlign(slide[i].align))];
        i := i + 1;
      }
      alignActive := !alignActive;
    }

    /** The line-height button: every annotation's line height is toggled on
        its own value. Nothing is recorded. */
    method ToggleLineHeight()
      modifies this
      ensures |slide| == |old(slide)|
      ensures forall k :: 0 <= k < |slide| ==>
        slide[k] == old(slide)[k].(lineHeight := ToggledLineHeight(old(slide)[k].lineHeight))
      ensures undoStack == old(undoStack) && redoStack == old(redoStack)
      ensures alignActive == old(alignActive) && input == old(input) && listeners == old(listeners)
    {
      var i := 0;
      while i < |slide|
        invariant 0 <= i <= |slide| == |old(slide)|
        invariant forall k :: 0 <= k < i ==>
          slide[k] == old(slide)[k].(lineHeight := ToggledLineHeight(old(slide)[k].lineHeight))
        invariant forall k :: i <= k < |slide| ==> slide[k] == old(slide)[k]
        invariant undoStack == old(undoStack) && redoStack == old(redoStack)
        invariant alignActive == old(alignActive) && input == old(input) && listeners == old(listeners)
      {
        slide := slide[i := slide[i].(lineHeight := ToggledLineHeight(slide[i].lineHeight))];
        i := i + 1;
      }
    }

    /** `mousedown` on the annotation at index `i`, whose corner is at
        (rectLeft, rectTop) on screen. */
    method Press(i: nat, clientX: int, clientY: int, rectLeft: int, rectTop: int)
      requires i < |slide|
      modifies this
      ensures slide == old(slide)[i := Pressed(old(slide)[i], clientX, clientY, rectLeft, rectTop)]
      ensures undoStack == old(undoStack) && redoStack == old(redoStack)
      ensures alignActive == old(alignActive) && input == old(input) && listeners == old(listeners)
    {
      slide := slide[i := Pressed(slide[i], clientX, clientY, rectLeft, rectTop)];
    }

    /** A document-level `mousemove`: every annotation's listener runs, and
        only those being dragged follow the pointer. Nothing is recorded. */
    method Move(clientX: int, clientY: int)
      modifies this
      ensures |slide| == |old(slide)|
      ensures forall k :: 0 <= k < |slide| ==> slide[k] == Moved(old(slide)[k], clientX, clientY)
      ensures undoStack == old(undoStack) && redoStack == old(redoStack)
      ensures alignActive == old(alignActive) && input == old(input) && listeners == old(listeners)
    {
      var i := 0;
      while i < |slide|
        invariant 0 <= i <= |slide| == |old(slide)|
        invariant forall k :: 0 <= k < i ==> slide[k] == Moved(old(slide)[k], clientX, clientY)
        invariant forall k :: i <= k < |slide| ==> slide[k] == old(slide)[k]
        invariant undoStack == old(undoStack) && redoStack == old(redoStack)
        invariant alignActive == old(alignActive) && input == old(input) && listeners == old(listeners)
      {
        slide := slide[i := Moved(slide[i], clientX, clientY)];
        i := i + 1;
      }
    }

    /** A document-level `mouseup`: every listener ever registered runs. Each
        clears its own element's dragging flag and records the slide, whether
        or not anything was dragged; removed elements are no longer on the
        slide, so only the recording of their listeners shows. */
    method Release()
      requires Valid()
      modifies this
      ensures Valid()
      ensures |slide| == |old(slide)|
      ensures forall k :: 0 <= k < |slide| ==> slide[k] == Released(old(slide)[k])
      ensures State() == RecordTimes(old(State()), old(listeners))
      ensures alignActive == old(alignActive) && input == old(input) && listeners == old(listeners)
    {
      var i := 0;
      while i < |slide|
        invariant 0 <= i <= |slide| == |old(slide)|
        invariant forall k :: 0 <= k < i ==> slide[k] == Released(old(slide)[k])
        invariant forall k :: i <= k < |slide| ==> slide[k] == old(slide)[k]
        invariant undoStack == old(undoStack) && redoStack == old(redoStack)
        invariant alignActive == old(alignActive) && input == old(input) && listeners == old(listeners)
      {
        slide := slide[i := Released(slide[i])];
        i := i + 1;
      }
      assert CaptureScene(slide) == CaptureScene(old(slide));
      ghost var released := slide;
      var n := 0;
      while n < listeners
        invariant 0 <= n <= listeners
        invariant Valid()
        invariant State() == RecordTimes(old(State()), n)
        invariant slide == released
        invariant alignActive == old(alignActive) && input == old(input) && listeners == old(listeners)
      {
        Record();
        n := n + 1;
      }
    }
  }
}
