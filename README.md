# box-label: the annotation state machine

This project models the interactive core of `box-label`, a tool for drawing labelled
rectangles ("boxes") on an image with OpenCV. The program keeps its state in globals:

- the boxes in creation order;
- a pointer to the selected box;
- the drag anchor `pt1`, the drag position `pt2` and `originRect`;
- the `clicked` and `moving` flags;
- the keyboard step `unitSize`;
- the mode, VIEW or EDIT;
- the label buffer `inputText`.

Event handlers change this state.

The model is the class `BoxLabel.Annotator`. It has one field per global. The image width and
height are constructor parameters (`cols`, `rows`). The selection is an index: an
`Option<nat>` that the object invariant `Valid()` keeps inside the box sequence. Each handler is
a method. Its `modifies` clause names exactly the fields it may change. Its `ensures` state the
whole new state in terms of pure functions, and lemmas prove what those functions promise:

- `Geometry` holds OpenCV's `Point`, `Rect` and `Rect::contains`. It also holds the rectangle a
  creating drag stretches (`Span`), the corner a moving drag computes (`DragMove`), and the
  clamped keyboard translation (`Moved`), resizing (`Resized`) and step change (`NextUnitSize`).
- `Boxes` holds the `Box` record, the first-hit search of a button-down (`FirstHit`, and the
  loop `FindFirstContaining`), and the erasure of one box (`Without`).
- `LabelText` holds what one EDIT-mode key does to the label text (`Typed`) and what a run of
  keys does (`TypedAll`).
- `BoxLabel` holds the key table of VIEW mode, the `Annotator` class and three client methods.
  Two client methods exhibit the findings below. The third drives a drag and a label edit end
  to end.

This revision of the program has no edge-zone resize and does not discard degenerate boxes on
button-up. It has no text cursor, no box files and no image list. The model follows this code
and models none of those features. The label buffer is edited only at its end.

The help text says `j` moves right and `l` moves left. The key handler does the opposite: `j`
moves left and `l` moves right. The model follows the handler.

## Model

| member | source | states |
|---|---|---|
| `BoxLabel.Annotator.constructor` | box-label.cpp:28-41 | Initial state: no boxes, no selection, both points at the origin, `originRect` empty, no drag, step 5, VIEW mode, empty buffer; `Valid()` holds |
| `BoxLabel.Annotator.OnMouse` | box-label.cpp:123-180 | EDIT mode: nothing changes. While a drag is on, every event first records the pointer as `pt2`. Button-down: anchors `pt1 = pt2` at the point and sets `clicked`. If some box contains the point, the first such box in creation order is selected, `moving` is set, `originRect` is that box's rectangle, and the boxes are unchanged. Otherwise exactly one box `Rect(x,y,1,1)` with an empty label is appended and selected. A move with no prior button-down changes no box. A move during a drag replaces only the selected box's rectangle: with the shifted `originRect` corner (same width and height) when moving, or with the anchor-to-pointer span when creating. Button-up clears `clicked` and `moving` and changes no box |
| `Boxes.FindFirstContaining` | box-label.cpp:140-146 | The loop returns the least index whose box contains the point, with no earlier box containing it, or `None` when no box contains it |
| `Boxes.FirstHitFromIsLeast` | box-label.cpp:140-146 | A search from index `i` finds the least index from `i` on whose box contains the point, and finds nothing exactly when there is none |
| `Boxes.FirstHitIff` | box-label.cpp:140-146 | `FirstHit` returns `Some(k)` if and only if box `k` contains the point and no earlier box does, and `None` if and only if no box does |
| `Geometry.SpanShape` | box-label.cpp:158-171 | A creating drag gives `x = min(pt1.x, pt2.x)`, `y = min(pt1.y, pt2.y)`, `width = abs(pt2.x - pt1.x) + 1` and `height = abs(pt2.y - pt1.y) + 1`, so both sides are at least 1 |
| `Geometry.SpanSymmetric` | box-label.cpp:160-167 | Swapping the anchor and the pointer gives the same rectangle, so dragging past the anchor flips the box |
| `Geometry.SpanContains` | box-label.cpp:160-170 | A point lies in the created rectangle exactly when each of its coordinates lies between the two drag ends, both included |
| `Geometry.SpanSmallest` | box-label.cpp:160-170 | The created rectangle holds both drag ends, and it lies within every rectangle that holds them both |
| `Geometry.DragMoveTranslates` | box-label.cpp:162-170 | A moving drag keeps the box's size. When the box still has `originRect`'s size, the box covers a point exactly when `originRect` covered the point shifted back by `pt2 - pt1` |
| `Geometry.DragMoveBack` | box-label.cpp:162-170 | Moving the pointer back to the anchor returns the box to `originRect`'s corner |
| `BoxLabel.Annotator.Move` | box-label.cpp:187-193 | Only the selected box's rectangle changes, and it becomes `Moved(...)` with the current step and image size. With no selection, nothing changes |
| `Geometry.MovedKeepsSize` | box-label.cpp:187-193 | `move` changes only `x` and `y`. A box of non-positive width or height is not moved |
| `Geometry.MovedInside` | box-label.cpp:189-190 | When `0 < width <= cols` and `0 < height <= rows`, the moved box satisfies `0 <= x <= cols - width` and `0 <= y <= rows - height` |
| `Geometry.MovedNearest` | box-label.cpp:189-190 | On each axis the clamp picks the admissible corner nearest to `x + unitSize * dx`, and reaches that target exactly when it is admissible |
| `BoxLabel.Annotator.ChangeSize` | box-label.cpp:195-205 | As written, it requires a selection. Only the selected box's rectangle changes, and it becomes `Resized(...)` |
| `Geometry.ResizedSides` | box-label.cpp:195-205 | `x` and `y` never change. A step that would make a side non-positive is refused. Otherwise the side takes the requested length, or `cols - x` (`rows - y`) when that is smaller |
| `Geometry.ResizedInside` | box-label.cpp:195-205 | A box inside the image with positive sides stays inside after resizing, and its sides stay positive |
| `BoxLabel.Annotator.ChangeUnitSize` | box-label.cpp:182-185 | The step becomes `max(1, unitSize + delta)`; nothing else changes |
| `Geometry.NextUnitSize` | box-label.cpp:182-184 | The new step is at least 1 and at least `unitSize + delta`, and it is one of the two |
| `Geometry.UnitSizeRoundTrip` | box-label.cpp:182-184 | `+` then `-` restores the step. `-` then `+` restores it unless the floor of 1 was hit |
| `BoxLabel.Annotator.Remove` | box-label.cpp:207-216 | Exactly the selected box is erased and the selection is cleared. With no selection, nothing changes |
| `Boxes.WithoutKeepsOthers` | box-label.cpp:207-216 | Erasing leaves one box fewer. Boxes before the erased one keep their places and later ones shift down by one, so their relative order is kept. The erased box is the only one missing from the multiset |
| `BoxLabel.Annotator.EnterEditMode` | box-label.cpp:218-224 | With a selection, EDIT mode starts with the selected box's label in the buffer. With no selection, nothing changes |
| `BoxLabel.Annotator.LeaveEditMode` | box-label.cpp:226-233 | With `save`, only the selected box's label changes, and it becomes the buffer. Without `save`, the boxes are unchanged. Either way the buffer is emptied and VIEW mode resumes |
| `BoxLabel.ViewKeysAreUnitSteps` | box-label.cpp:270-318 | Each movement or resize key is a single step along one axis, and `+`/`-` change the step by one. CTRL-Q, CTRL-D and CTRL-E are the only keys for quit, remove and edit |
| `BoxLabel.Annotator.HandleViewModeKey` | box-label.cpp:270-318 | Each key has the effect of its operation per the key table, with the other fields unchanged. CTRL-Q is reported as `quit` and leaves the state unchanged. A resize key with no selection changes nothing (the correction in Findings) |
| `BoxLabel.Annotator.HandleEditModeKey` | box-label.cpp:320-347 | ENTER commits the buffer to the selected box's label; ESC leaves the labels as they were. Both empty the buffer and return to VIEW. Any other key edits the buffer as `Typed` says and stays in EDIT |
| `LabelText.TypedKeys` | box-label.cpp:327-344 | A key in 32..126 appends exactly its character. CTRL-U yields the empty text. DEL drops the last character, and on empty text it does nothing. Any other key leaves the text unchanged |
| `LabelText.TypeThenDelete` | box-label.cpp:335-343 | A printable key followed by DEL restores the text |
| `LabelText.TypingAppends` | box-label.cpp:339-344 | A run of printable keys appends their characters, in order |
| `LabelText.DeletingErases` | box-label.cpp:335-338 | After characters are appended to a text, as many DELs as characters give back that text |
| `LabelText.TypeThenErase` | box-label.cpp:335-344 | Typing any run of printable keys and then as many DELs restores the original text |
| `BoxLabel.Annotator.HandleKey` | box-label.cpp:375-383 | A key goes to the handler of the current mode and has that handler's effect |
| `BoxLabel.ResizeAtStartup` | box-label.cpp:195-198 | A reachable state (right after start-up) has no selection, yet `>` is a resize command. The source's `changeSize` is undefined there |
| `BoxLabel.RemoveWhileDragging` | box-label.cpp:154-171 | Button-down, then CTRL-D, leaves the drag on with no selection. The source's drag-move branch is undefined there |
| `BoxLabel.DragAndLabel` | box-label.cpp:123-233 | On a 100x50 image: drag (10,10) to (40,30), then CTRL-E, `cat`, ENTER. The result is exactly one box, `Rect(10,10,31,21)` labelled `cat` |

## Left out

- `showImage` (box-label.cpp:65-121) is left out: it only draws boxes, text and the mode on a copy of the image and displays it.
- `makedirs` (box-label.cpp:43-63) is left out: it is filesystem I/O and nothing in this revision calls it.
- `help` (box-label.cpp:235-268) is left out: it only writes to the console.
- `main` (box-label.cpp:349-386) is left out except for the key dispatch in its loop (`HandleKey`). Reading the image, opening the window, registering the callback and polling `waitKey` are I/O. The image size is a constructor parameter instead.
- CTRL-Q calls `exit(0)`. The model reports it as `quit = true` from `HandleViewModeKey` and leaves the state unchanged.
- `selectRect` (box-label.cpp:31) is declared but never used.
- `OnMouse` ignores the `flags` and `userdata` arguments, as the source does.
- OpenCV event codes other than left-button-down, left-button-up and move are all `OtherEvent`, since the handler treats them alike.
- The model does not capture C++ `int` overflow. Coordinates, sizes and `unitSize * dx` are unbounded integers, while the source uses 32-bit `int`.
- The selection is an index, not a pointer. In this revision `push_back` happens only after the selection has been cleared, so no stale pointer can arise. The model therefore does not capture pointer invalidation.
- `Annotator.Remove` and `Annotator.HandleViewModeKey` require VIEW mode, and `Annotator.HandleEditModeKey` and `Annotator.LeaveEditMode` require EDIT mode. In the source these run only from the key loop of `main`, which routes each key by mode.

## Findings

| source | as written | input that shows it | evidently intended | confidence | as-written member | corrected member |
|---|---|---|---|---|---|---|
| box-label.cpp:195-198, 293-304 | `changeSize` reads `selected->rect` without testing `selected`, and the key table calls it whatever the selection | start the program and press `>` (or `<`, `^`, `_`) before any box is selected: a null pointer is dereferenced | like `move`, do nothing when no box is selected | high, not executed | `BoxLabel.Annotator.ChangeSize` (requires a selection) and `BoxLabel.ResizeAtStartup` (a reachable state outside `SourceViewKeyDefined`) | `BoxLabel.Annotator.HandleViewModeKey` (a resize key with no selection changes nothing) |
| box-label.cpp:154-171, 207-216 | `remove` clears `selected` but not `clicked`, and the drag-move branch tests only `clicked` before writing through `selected` | press the button on a spot, press CTRL-D while still holding it, then move the pointer: a null pointer is dereferenced | a move while nothing is selected changes no box | medium, not executed | `BoxLabel.RemoveWhileDragging` (a reachable state outside `SourceMouseDefined(MouseMove)`) | `BoxLabel.Annotator.OnMouse` (a move with no selection changes no box) |
