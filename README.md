# Edit history of the slide text-overlay editor

This project models the core of a browser editor that overlays text on the
slides of a carousel (`assets/js/script.js`). The user adds texts, styles them
with a control panel, drags them and can undo and redo. The model covers:

- **Annotations and snapshots** (module `Annotation`). A live `.canvas-text`
  element has text, font family, size, colour, style, alignment, line height,
  `left`, `top` and its private drag state. A snapshot entry is the nested
  `{text, font, position}` record the editor captures. `Capture` and `Build`
  convert between the two. `CaptureScene` and `BuildScene` do it for a whole slide.
- **Drag state machine** (module `Annotation`). Each element goes Idle →
  Dragging → Idle: `Pressed`, `Moved` and `Released`. Position values are
  `Percent(n)` or `Px(n)`.
- **Bounded history** (module `History`). `PushBounded` is the push with
  eviction of the oldest entry past 10 entries. The pure steps
  `RecordStep`, `UndoStep` and `RedoStep` act on a `History` value (undo
  stack, redo stack, scene on show). The lemmas about them carry the
  properties.
- **Input text** (module `Text`). This is JavaScript's `trim`, which guards the
  Enter key, and the language placeholder lookup with its English fallback.
- **Handlers** (module `Script`). Class `Editor` holds the two stacks, the
  active slide's elements, the alignment button's `active` flag and the text
  field, plus the number of document-level mouseup listeners registered so
  far. It has one method per handler. Each method that touches the history
  states its effect as `State() == RecordStep(old(State()))` (or
  `UndoStep`, `RedoStep`, `RecordTimes`). It also keeps the invariant `Valid()`.

How the code behaves, which the model follows:

- A snapshot is recorded *after* each action. Undo pops the top snapshot and
  restores that same snapshot. So an undo straight after an action leaves
  the scene as it is and only moves the snapshot to the redo stack
  (`History.UndoAfterRecord`). One would expect undo to return to the scene
  before the last action. As written, after adding Hello and then World, an
  undo still shows both texts. The model follows the code.
- Style changes and toggles never record a snapshot. A mouseup records
  whether or not a drag happened, once per registered listener.
- Every element made draggable (by adding a text, and by every undo or redo
  that rebuilds the slide) registers a document-level mouseup listener that
  is never removed. One mouseup therefore records the same slide as many
  times as listeners were ever registered, and none before the first text
  exists (`Script.Editor.Release`, `History.RecordTimesSpec`).
- A mouse click on any button is preceded by its mouseup on the document.
  Once any text exists, that mouseup records and so empties the redo stack.
  A click on Redo therefore never redoes anything
  (`History.RedoAfterRecordIsNoOp`), a click on Undo shows the scene already
  on show, and the toggles and the add-text button record before they act.
- Dragging sets `left`/`top` from the bounding rectangle, which is in
  viewport coordinates, while `left`/`top` are relative to the slide. The
  element ends at its rectangle's corner at press time plus the pointer's
  displacement, so the first move jumps by the slide's offset within the
  viewport (`Annotation.DragFollowsPointer`).
- Redo pushes onto the undo stack without the 10-entry check. Undo and redo
  only move snapshots between the two stacks, and a record empties the redo
  stack. So the two stacks together never hold more than 10 snapshots, and
  the undo stack never overflows (`History.Bounded`, `Script.Editor.Valid`).

## Model

| member | source | states |
|---|---|---|
| `Annotation.Capture` | assets/js/script.js:36-50 | no contract of its own: what a snapshot entry keeps is stated by `Build`, `BuildCapture` and `CaptureBuildScene` |
| `Annotation.Build` | assets/js/script.js:63-75 | an element restored from a snapshot entry captures back to exactly that entry, and it starts out not dragging |
| `Annotation.BuildCapture` | assets/js/script.js:36-75 | capturing an element and rebuilding it gives the same element on every captured field; only the drag state is reset |
| `Annotation.CaptureScene` | assets/js/script.js:36-50 | the snapshot has one entry per element, in document order, and each entry is that element's captured fields |
| `Annotation.BuildScene` | assets/js/script.js:63-78 | the restored slide has one element per snapshot entry, in order, each built from its entry |
| `Annotation.CaptureBuildScene` | assets/js/script.js:36-79 | capturing a restored snapshot gives the snapshot back, entry for entry |
| `Annotation.BuildCaptureScene` | assets/js/script.js:36-79 | capturing a slide and restoring it gives the same slide, with every drag state reset |
| `Annotation.Pressed` | assets/js/script.js:85-88 | a press sets the dragging flag, records offset = pointer − element corner on both axes, and changes no captured field |
| `Annotation.Moved` | assets/js/script.js:93-98 | while dragging, left/top become pointer − offset in px with no clamping; when not dragging nothing changes; text, font and drag state are never touched |
| `Annotation.Released` | assets/js/script.js:100-101 | a release clears the flag whatever the prior state and changes no captured field |
| `Annotation.DragFollowsPointer` | assets/js/script.js:85-98 | press, then move the pointer by (dx, dy): left/top become the bounding rectangle's corner at press time + (dx, dy) px |
| `Annotation.ToggledAlign` | assets/js/script.js:179 | the result is always `left` or `center` and differs from the input; it is `left` iff the input was `center` |
| `Annotation.ToggledLineHeight` | assets/js/script.js:187 | the result is always `1` or `1.5` and differs from the input; it is `1` iff the input was `1.5` |
| `Annotation.TogglesAreInvolutions` | assets/js/script.js:176-189 | toggling twice gives back any alignment in {center, left} and any line height in {1, 1.5} |
| `History.PushBounded` | assets/js/script.js:52-53 | the push grows a stack below 10 by one and keeps a full stack's length; the result is a suffix of stack + [s], so only the bottom entry is ever dropped and the rest keep their order |
| `History.RecordAllKeepsNewest` | assets/js/script.js:52-53 | after any sequence of records the undo stack is exactly the newest 10 of everything pushed, oldest first |
| `History.RecordStep` | assets/js/script.js:52-54 | a record empties the redo stack, keeps the scene on show, and leaves the history bounded whenever the undo stack was within capacity |
| `History.UndoStep` | assets/js/script.js:191-197 | undo conserves the total number of snapshots; on a non-empty undo stack it shows the popped top and grows the redo stack by one |
| `History.RedoStep` | assets/js/script.js:199-205 | the mirror of undo: total conserved; on a non-empty redo stack it shows the popped top and grows the undo stack by one |
| `History.RecordStepSpec` | assets/js/script.js:52-54 | a record puts the scene on show on top, keeps the entries below in order (dropping the bottom one only when full), empties the redo stack whatever it held, and keeps the history bounded |
| `History.EmptyStepsAreNoOps` | assets/js/script.js:191-205 | undo on an empty undo stack and redo on an empty redo stack change neither stack nor the scene |
| `History.StepsConserveTotal` | assets/js/script.js:191-205 | undo and redo preserve the total number of snapshots across both stacks, and so preserve the bound |
| `History.RedoAfterUndo` | assets/js/script.js:191-205 | undo followed by redo gives both stacks back unchanged |
| `History.UndoAfterRedo` | assets/js/script.js:191-205 | redo followed by undo gives both stacks back unchanged |
| `History.UndoAfterRecord` | assets/js/script.js:191-197 | an undo straight after a record shows the scene that was just recorded, puts it alone on the redo stack, and leaves the undo stack as it was before the record (minus an evicted bottom entry) |
| `History.RedoAfterRecordIsNoOp` | assets/js/script.js:52-54 | redo straight after a record (as after the mouseup that precedes every click) changes nothing |
| `History.RecordTimesSpec` | assets/js/script.js:100-103 | `n` records of the same scene push `n` copies of it through the bounded stack (so the newest 10 are kept), keep the scene, empty the redo stack when `n > 0` and keep the undo stack within capacity |
| `Text.TrimStart` | assets/js/script.js:129 | the result is a suffix of the input, what was cut is whitespace, and the result does not start with whitespace |
| `Text.TrimEnd` | assets/js/script.js:129 | the result is a prefix of the input, what was cut is whitespace, and the result does not end with whitespace |
| `Text.Trim` | assets/js/script.js:129 | the trimmed text is no longer than the input and, unless empty, neither starts nor ends with whitespace; that it is the inner slice is `TrimIsInnerSlice` |
| `Text.TrimIsInnerSlice` | assets/js/script.js:129 | the trimmed text is a contiguous slice of the input with only whitespace around it, and neither of its ends is whitespace |
| `Text.TrimEmptyIffBlank` | assets/js/script.js:129-130 | the trimmed text is empty iff the input is all whitespace, which is exactly when Enter adds nothing |
| `Text.Placeholder` | assets/js/script.js:137-146 | the placeholder is always one of the five translations: the key's own entry when the key is known, the English text otherwise |
| `Script.Placed` | assets/js/script.js:108-118 | the added element carries the text and the panel's family, colour and style, size = value + `px`, alignment `center` iff the align button is active (else `left`), no line height, left = top = 50%, not dragging |
| `Script.Editor.constructor` | assets/js/script.js:3-4 | both stacks start empty, and no mouseup listener is registered yet |
| `Script.Editor.Record` | assets/js/script.js:32-55 | the history becomes `RecordStep` of the old one: the captured slide is pushed with eviction and redo is cleared; the slide itself is untouched |
| `Script.Editor.Restore` | assets/js/script.js:57-79 | a full replace: afterwards the slide is exactly the snapshot rebuilt, in order, with no leftover element and nothing dragging; its result depends on the snapshot alone (restoring twice is idempotent); the stacks are untouched; one mouseup listener is registered per rebuilt element |
| `Script.Editor.Undo` | assets/js/script.js:191-197 | with an empty undo stack nothing changes; otherwise the top moves to the redo stack and the slide becomes exactly that snapshot rebuilt, registering one mouseup listener per rebuilt element; the bound is kept |
| `Script.Editor.Redo` | assets/js/script.js:199-205 | the mirror of undo: with an empty redo stack nothing changes; otherwise the top moves to the undo stack and is restored, registering one listener per rebuilt element; the bound is kept |
| `Script.Editor.AddText` | assets/js/script.js:106-123 | exactly one element is appended at the end of the slide, one mouseup listener is registered for it, and then the new slide is recorded |
| `Script.Editor.AddTextButton` | assets/js/script.js:207-209 | the button adds the text `New Text` as above, untrimmed |
| `Script.Editor.KeyDown` | assets/js/script.js:126-135 | only Enter acts; a blank field adds and records nothing and keeps the field; otherwise the trimmed text is added and recorded, and the field is emptied |
| `Script.Editor.SetFontFamily` | assets/js/script.js:148-153 | every element gets the new family, all other fields and the slide length stay, both stacks are unchanged |
| `Script.Editor.SetFontStyle` | assets/js/script.js:155-160 | every element gets the new style; all else, including both stacks, is unchanged |
| `Script.Editor.SetFontSize` | assets/js/script.js:162-167 | every element gets size = value + `px`; all else, including both stacks, is unchanged |
| `Script.Editor.SetFontColor` | assets/js/script.js:169-174 | every element gets the new colour; all else, including both stacks, is unchanged |
| `Script.Editor.ToggleAlign` | assets/js/script.js:176-182 | every element's alignment is toggled on its own value, the button's `active` flag flips, and nothing is recorded |
| `Script.Editor.ToggleLineHeight` | assets/js/script.js:184-189 | every element's line height is toggled on its own value, and nothing is recorded |
| `Script.Editor.Press` | assets/js/script.js:85-91 | only the pressed element changes, and it becomes `Pressed` |
| `Script.Editor.Move` | assets/js/script.js:93-98 | every element becomes `Moved`, so only dragging ones follow the pointer; nothing is recorded |
| `Script.Editor.Release` | assets/js/script.js:100-103 | every element stops dragging, and the slide is recorded once per registered mouseup listener, even if nothing was dragged, and not at all before the first text |

## Left out

- Carousel construction and navigation (assets/js/script.js:7-16): this is a third-party widget. The active slide is the `slide` field. In the source both stacks are shared by all slides, and a restore writes into whichever slide is active at the time; the model has one slide, so it does not show a snapshot of one slide restored into another.
- DOM element lookups, element creation and listener registration: each handler is a method of `Script.Editor`, and each element is a value in `slide`.
- `getBoundingClientRect` and fractional pixel values: the pointer and the element's corner are integer parameters of `Press` and `Move`.
- The `position: absolute` and `zIndex` changes on press and on add: they affect rendering only, and snapshots do not record them.
- The `preventDefault` call on Enter and the browser's own typing into the text field: the `input` field is the field's value, which the environment assigns.
- CSS parsing: font, size, colour and alignment values are opaque strings. A value the browser would reject (for example a size field left empty, giving `px`) is stored as given.
- The page's initial markup is not part of this model. The editor starts with an empty slide, and the initial state of the alignment button is a constructor parameter.
- Script.Editor.Release: the listeners run in registration order, each clearing its own element's flag and then recording; the model clears every flag first and then records `listeners` times. The order is immaterial, because the flag is not part of a snapshot.
- Script.Editor.Move: the listeners of removed elements are not modelled. They can only move detached elements, which are not on the slide.
- Text.Placeholder: keys inherited from the object prototype (such as `toString`) are not modelled. Only the five own keys and the fallback are.
- Text.IsWhitespace: characters are Unicode scalar values rather than UTF-16 code units. This does not change `trim`, because every whitespace character is a single code unit.
