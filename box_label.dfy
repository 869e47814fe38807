/**
 * The interactive annotation state machine: the pointer handler that creates, selects, moves
 * and stretches boxes, the VIEW-mode keys that move, resize and delete the selected box and
 * change the step size, and the EDIT mode in which the selected box's label is typed.
 */
module BoxLabel {
  import opened Wrappers
  import opened Geometry
  import opened Boxes
  import opened LabelText

  /** `MODE_VIEW` and `MODE_EDIT`. */
  datatype Mode = View | Edit

  /** The pointer events the handler distinguishes; every other OpenCV event is `OtherEvent`. */
  datatype MouseEvent = MouseMove | LButtonDown | LButtonUp | OtherEvent

  /** What a VIEW-mode key asks for. */
  datatype ViewCommand =
    | Remove
    | EnterEdit
    | Quit
    | Move(dx: int, dy: int)
    | Resize(dx: int, dy: int)
    | ChangeUnit(delta: int)
    | Help
    | Redraw

  const InitialUnitSize := 5

  /** The key table of the VIEW mode: CTRL-D, CTRL-E, CTRL-Q, `i k j l`, `> < ^ _`, `+ -`, `h`; any other key redraws. */
  function ViewCommandOf(key: int): ViewCommand {
    if key == 4 then Remove
    else if key == 5 then EnterEdit
    else if key == 17 then Quit
    else if key == 'i' as int then Move(0, -1)
    else if key == 'k' as int then Move(0, 1)
    else if key == 'j' as int then Move(-1, 0)
    else if key == 'l' as int then Move(1, 0)
    else if key == '>' as int then Resize(1, 0)
    else if key == '<' as int then Resize(-1, 0)
    else if key == '^' as int then Resize(0, 1)
    else if key == '_' as int then Resize(0, -1)
    else if key == '+' as int then ChangeUnit(1)
    else if key == '-' as int then ChangeUnit(-1)
    else if key == 'h' as int then Help
    else Redraw
  }

  /**
   * Every movement and resize key is a single step along one axis, and the step-size keys change
   * the step by one; each direction has its own key.
   */
  lemma ViewKeysAreUnitSteps(key: int)
    ensures ViewCommandOf(key).Move? ==> Abs(ViewCommandOf(key).dx) + Abs(ViewCommandOf(key).dy) == 1
    ensures ViewCommandOf(key).Resize? ==> Abs(ViewCommandOf(key).dx) + Abs(ViewCommandOf(key).dy) == 1
    ensures ViewCommandOf(key).ChangeUnit? ==> Abs(ViewCommandOf(key).delta) == 1
    ensures ViewCommandOf(key) == Quit <==> key == 17
    ensures ViewCommandOf(key) == Remove <==> key == 4
    ensures ViewCommandOf(key) == EnterEdit <==> key == 5
  {
  }

  /** `boxes` with the rectangle of box `k` replaced by `r`. */
  function WithRect(boxes: seq<Box>, k: nat, r: Rect): seq<Box>
    requires k < |boxes|
  {
    boxes[k := boxes[k].(rect := r)]
  }

  /** `boxes` with the label of box `k` replaced by `text`. */
  function WithContent(boxes: seq<Box>, k: nat, text: string): seq<Box>
    requires k < |boxes|
  {
    boxes[k := boxes[k].(content := text)]
  }

  /** The annotator's state: the globals of the program, with the image size fixed at construction. */
  class Annotator {
    const cols: int
    const rows: int
    var boxes: seq<Box>
    /** Index of the selected box; `None` where the source holds a null pointer. */
    var selected: Option<nat>
    /** Anchor and current position of a drag. */
    var pt1: Point
    var pt2: Point
    /** The selected box's rectangle when a moving drag began. */
    var originRect: Rect
    var clicked: bool
    var moving: bool
    var unitSize: int
    var mode: Mode
    var inputText: string

    /**
     * The selection names a box; the step is at least 1; EDIT mode always has a box to label, and
     * outside it the edit buffer is empty; a moving drag is a drag.
     */
    ghost predicate Valid()
      reads this
    {
      (selected.Some? ==> selected.value < |boxes|) &&
      unitSize >= 1 &&
      (mode == Edit ==> selected.Some?) &&
      (mode == View ==> inputText == "") &&
      (moving ==> clicked)
    }

    /** Where the source's `onMouse` is defined: it dereferences `selected` on a drag move without testing it. */
    ghost predicate SourceMouseDefined(event: MouseEvent)
      reads this
    {
      mode == Edit || event != MouseMove || !clicked || selected.Some?
    }

    /** Where the source's `handleViewModeKey` is defined: `changeSize` dereferences `selected` without testing it. */
    ghost predicate SourceViewKeyDefined(key: int)
      reads this
    {
      !ViewCommandOf(key).Resize? || selected.Some?
    }

    constructor (cols: int, rows: int)
      ensures Valid() && this.cols == cols && this.rows == rows
      ensures boxes == [] && selected == None
      ensures pt1 == Point(0, 0) && pt2 == Point(0, 0) && originRect == Rect(0, 0, 0, 0)
      ensures !clicked && !moving
      ensures unitSize == InitialUnitSize && mode == View && inputText == ""
    {
      this.cols := cols;
      this.rows := rows;
      boxes := [];
      selected := None;
      pt1, pt2 := Point(0, 0), Point(0, 0);
      originRect := Rect(0, 0, 0, 0);
      clicked, moving := false, false;
      unitSize := InitialUnitSize;
      mode := View;
      inputText := "";
    }

    /**
     * `onMouse`. In EDIT mode nothing changes. Otherwise, while a drag is on, every event first
     * records the pointer as `pt2`. A button-down anchors a drag at the point and selects the first
     * box containing it (a moving drag), or appends a new 1x1 box there and selects it (a creating
     * drag). A move during a drag sets the selected box's rectangle: shifted `originRect` for a
     * moving drag, the span from anchor to pointer for a creating one. A button-up ends the drag.
     */
    method OnMouse(event: MouseEvent, x: int, y: int)
      requires Valid()
      modifies this`boxes, this`selected, this`pt1, this`pt2, this`originRect, this`clicked, this`moving
      ensures Valid()
      ensures old(mode) == Edit ==>
        boxes == old(boxes) && selected == old(selected) && pt1 == old(pt1) && pt2 == old(pt2) &&
        originRect == old(originRect) && clicked == old(clicked) && moving == old(moving)
      ensures old(mode) == View && event == LButtonDown ==>
        clicked && pt1 == Point(x, y) && pt2 == Point(x, y) &&
        match FirstHit(old(boxes), Point(x, y))
        case Some(k) =>
          boxes == old(boxes) && selected == Some(k) && moving && originRect == old(boxes)[k].rect
        case None =>
          boxes == old(boxes) + [Box(Rect(x, y, 1, 1), "")] && selected == Some(|old(boxes)|) &&
          !moving && originRect == old(originRect)
      ensures old(mode) == View && event != LButtonDown ==>
        pt1 == old(pt1) && pt2 == (if old(clicked) then Point(x, y) else old(pt2)) &&
        originRect == old(originRect) && selected == old(selected)
      ensures old(mode) == View && event == MouseMove ==>
        clicked == old(clicked) && moving == old(moving) &&
        boxes == if old(clicked) && old(selected).Some? then
                   var k := old(selected).value;
                   WithRect(old(boxes), k,
                     if old(moving) then DragMove(old(boxes)[k].rect, old(originRect), old(pt1), Point(x, y))
                     else Span(old(pt1), Point(x, y)))
                 else old(boxes)
      ensures old(mode) == View && event == LButtonUp ==> !clicked && !moving && boxes == old(boxes)
      ensures old(mode) == View && event == OtherEvent ==>
        clicked == old(clicked) && moving == old(moving) && boxes == old(boxes)
    {
      if mode == Edit {
        return;
      }
      if clicked {
        pt2 := Point(x, y);
      }
      match event
      case LButtonDown =>
        clicked := true;
        pt1, pt2 := Point(x, y), Point(x, y);
        selected := None;
        moving := false;
        var hit := FindFirstContaining(boxes, pt1);
        if hit.Some? {
          originRect := boxes[hit.value].rect;
          selected := hit;
        }
        if selected.Some? {
          moving := true;
        } else {
          boxes := boxes + [Box(Rect(x, y, 1, 1), "")];
          selected := Some(|boxes| - 1);
        }
      case LButtonUp =>
        clicked := false;
        moving := false;
      case MouseMove =>
        if clicked && selected.Some? {
          var k := selected.value;
          var r := boxes[k].rect;
          var x0 := Min(pt1.x, pt2.x);
          var y0 := Min(pt1.y, pt2.y);
          if moving {
            x0 := originRect.x + pt2.x - pt1.x;
            y0 := originRect.y + pt2.y - pt1.y;
          } else {
            r := r.(width := Max(pt1.x, pt2.x) - x0 + 1, height := Max(pt1.y, pt2.y) - y0 + 1);
          }
          r := r.(x := x0, y := y0);
          boxes := boxes[k := boxes[k].(rect := r)];
        }
      case OtherEvent =>
    }

    /** `changeUnitSize`: the step changes by `delta`, with a floor of 1. */
    method ChangeUnitSize(delta: int)
      requires Valid()
      modifies this`unitSize
      ensures Valid()
      ensures unitSize == NextUnitSize(old(unitSize), delta)
    {
      unitSize := Max(1, unitSize + delta);
    }

    /** `move`: the selected box is translated by one step per unit of `(dx, dy)` and clamped into the image; without a selection nothing happens. */
    method Move(dx: int, dy: int)
      requires Valid()
      modifies this`boxes
      ensures Valid()
      ensures boxes == if old(selected).Some? then
                         WithRect(old(boxes), old(selected).value,
                           Moved(old(boxes)[old(selected).value].rect, dx, dy, unitSize, cols, rows))
                       else old(boxes)
    {
      if selected.Some? && boxes[selected.value].rect.width > 0 && boxes[selected.value].rect.height > 0 {
        var k := selected.value;
        var r := boxes[k].rect;
        r := r.(x := Min(Max(0, r.x + unitSize * dx), cols - r.width));
        r := r.(y := Min(Max(0, r.y + unitSize * dy), rows - r.height));
        boxes := boxes[k := boxes[k].(rect := r)];
      }
    }

    /**
     * `changeSize`, as the source writes it: it reads the selected box without testing that there
     * is one, so a selection is required.
     */
    method ChangeSize(dx: int, dy: int)
      requires Valid() && selected.Some?
      modifies this`boxes
      ensures Valid()
      ensures boxes == WithRect(old(boxes), selected.value,
                         Resized(old(boxes)[selected.value].rect, dx, dy, unitSize, cols, rows))
    {
      var k := selected.value;
      var r := boxes[k].rect;
      if r.width > 0 && r.height > 0 {
        if r.width + dx * unitSize > 0 {
          r := r.(width := Min(r.width + dx * unitSize, cols - r.x));
        }
        if r.height + dy * unitSize > 0 {
          r := r.(height := Min(r.height + dy * unitSize, rows - r.y));
        }
        boxes := boxes[k := boxes[k].(rect := r)];
      }
    }

    /** `remove`: the selected box is erased and the selection cleared; without a selection nothing happens. */
    method Remove()
      requires Valid() && mode == View
      modifies this`boxes, this`selected
      ensures Valid()
      ensures selected == None
      ensures boxes == if old(selected).Some? then Without(old(boxes), old(selected).value) else old(boxes)
    {
      var i := 0;
      while i < |boxes|
        invariant 0 <= i <= |boxes|
        invariant boxes == old(boxes) && selected == old(selected)
        invariant selected.Some? ==> i <= selected.value
      {
        if selected == Some(i) {
          boxes := Without(boxes, i);
          selected := None;
          break;
        }
        i := i + 1;
      }
    }

    /** `enterEditMode`: with a box selected, EDIT mode starts with the box's label in the buffer. */
    method EnterEditMode()
      requires Valid()
      modifies this`mode, this`inputText
      ensures Valid()
      ensures old(selected).Some? ==> mode == Edit && inputText == old(boxes)[old(selected).value].content
      ensures old(selected).None? ==> mode == old(mode) && inputText == old(inputText)
    {
      if selected.Some? {
        mode := Edit;
        inputText := boxes[selected.value].content;
      }
    }

    /** `leaveEditMode`: the buffer is written to the selected box's label when `save` holds, then emptied, and VIEW mode resumes. */
    method LeaveEditMode(save: bool)
      requires Valid() && mode == Edit
      modifies this`boxes, this`mode, this`inputText
      ensures Valid()
      ensures boxes == if save then WithContent(old(boxes), selected.value, old(inputText)) else old(boxes)
      ensures inputText == "" && mode == View
    {
      if save {
        boxes := boxes[selected.value := boxes[selected.value].(content := inputText)];
      }
      inputText := "";
      mode := View;
    }

    /** What a VIEW-mode key does to the state, with the resize keys ignored when nothing is selected. */
    twostate predicate ViewKeyDone(key: int)
      requires old(Valid())
      reads this
    {
      var k := old(selected);
      match ViewCommandOf(key)
      case Remove =>
        boxes == (if k.Some? then Without(old(boxes), k.value) else old(boxes)) && selected == None &&
        unitSize == old(unitSize) && mode == old(mode) && inputText == old(inputText)
      case EnterEdit =>
        boxes == old(boxes) && selected == k && unitSize == old(unitSize) &&
        if k.Some? then mode == Edit && inputText == old(boxes)[k.value].content
        else mode == old(mode) && inputText == old(inputText)
      case Move(dx, dy) =>
        boxes == (if k.Some? then WithRect(old(boxes), k.value, Moved(old(boxes)[k.value].rect, dx, dy, old(unitSize), cols, rows))
                  else old(boxes)) &&
        selected == k && unitSize == old(unitSize) && mode == old(mode) && inputText == old(inputText)
      case Resize(dx, dy) =>
        boxes == (if k.Some? then WithRect(old(boxes), k.value, Resized(old(boxes)[k.value].rect, dx, dy, old(unitSize), cols, rows))
                  else old(boxes)) &&
        selected == k && unitSize == old(unitSize) && mode == old(mode) && inputText == old(inputText)
      case ChangeUnit(delta) =>
        boxes == old(boxes) && selected == k && unitSize == NextUnitSize(old(unitSize), delta) &&
        mode == old(mode) && inputText == old(inputText)
      case _ =>
        boxes == old(boxes) && selected == k && unitSize == old(unitSize) &&
        mode == old(mode) && inputText == old(inputText)
    }

    /**
     * `handleViewModeKey`. CTRL-Q, which halts the program, is reported as `quit` with the state
     * untouched. A resize key with nothing selected does nothing (the source dereferences a null
     * selection there).
     */
    method HandleViewModeKey(key: int) returns (quit: bool)
      requires Valid() && mode == View
      modifies this`boxes, this`selected, this`unitSize, this`mode, this`inputText
      ensures Valid()
      ensures quit <==> key == 17
      ensures ViewKeyDone(key)
    {
      quit := false;
      match ViewCommandOf(key)
      case Remove =>
        Remove();
      case EnterEdit =>
        EnterEditMode();
      case Quit =>
        quit := true;
      case Move(dx, dy) =>
        Move(dx, dy);
      case Resize(dx, dy) =>
        if selected.Some? {
          ChangeSize(dx, dy);
        }
      case ChangeUnit(delta) =>
        ChangeUnitSize(delta);
      case Help =>
      case Redraw =>
    }

    /** What an EDIT-mode key does to the state. */
    twostate predicate EditKeyDone(key: int)
      requires old(Valid()) && old(mode) == Edit
      reads this
    {
      selected == old(selected) && unitSize == old(unitSize) &&
      if key == Enter then
        boxes == WithContent(old(boxes), old(selected).value, old(inputText)) && inputText == "" && mode == View
      else if key == Esc then
        boxes == old(boxes) && inputText == "" && mode == View
      else
        boxes == old(boxes) && mode == Edit && inputText == Typed(old(inputText), key)
    }

    /** `handleEditModeKey`: ENTER commits the label, ESC discards it, and every other key edits the buffer. */
    method HandleEditModeKey(key: int)
      requires Valid() && mode == Edit
      modifies this`boxes, this`mode, this`inputText
      ensures Valid()
      ensures EditKeyDone(key)
    {
      if key == Enter {
        LeaveEditMode(true);
      } else if key == CtrlU {
        inputText := "";
      } else if key == Esc {
        LeaveEditMode(false);
      } else if key == Del {
        if |inputText| > 0 {
          inputText := inputText[..|inputText| - 1];
        }
      } else if 32 <= key <= 126 {
        inputText := inputText + [key as char];
      }
    }

    /** One turn of the key loop of `main`: the key goes to the handler of the current mode. */
    method HandleKey(key: int) returns (quit: bool)
      requires Valid()
      modifies this`boxes, this`selected, this`unitSize, this`mode, this`inputText
      ensures Valid()
      ensures old(mode) == View ==> ViewKeyDone(key) && (quit <==> key == 17)
      ensures old(mode) == Edit ==> EditKeyDone(key) && !quit
    {
      quit := false;
      if mode == View {
        quit := HandleViewModeKey(key);
      } else {
        HandleEditModeKey(key);
      }
    }
  }

  /**
   * Right after start-up nothing is selected, yet the `>` key asks for a resize, which the source
   * performs as `changeSize(1, 0)` and so dereferences the null selection.
   */
  method ResizeAtStartup() returns (a: Annotator)
    ensures a.Valid() && a.mode == View && a.selected == None
    ensures ViewCommandOf('>' as int) == Resize(1, 0) && !a.SourceViewKeyDefined('>' as int)
  {
    a := new Annotator(640, 480);
  }

  /**
   * CTRL-D pressed while the button is still down removes the box being dragged but leaves the
   * drag on, so the next pointer move reaches the source's dereference of the null selection.
   */
  method RemoveWhileDragging() returns (a: Annotator)
    ensures a.Valid() && a.mode == View && a.clicked && a.selected == None
    ensures !a.SourceMouseDefined(MouseMove)
  {
    a := new Annotator(640, 480);
    a.OnMouse(LButtonDown, 10, 10);
    var quit := a.HandleKey(4);
  }

  /**
   * A creating drag from (10, 10) to (40, 30) on a 100x50 image, then CTRL-E, "cat" and ENTER,
   * leaves exactly one box, 31x21 at (10, 10), labelled "cat".
   */
  method DragAndLabel() returns (a: Annotator)
    ensures a.Valid() && a.mode == View
    ensures a.boxes == [Box(Rect(10, 10, 31, 21), "cat")] && a.selected == Some(0)
  {
    a := new Annotator(100, 50);
    a.OnMouse(LButtonDown, 10, 10);
    a.OnMouse(MouseMove, 40, 30);
    a.OnMouse(LButtonUp, 40, 30);
    assert a.boxes == [Box(Rect(10, 10, 31, 21), "")];
    var quit := a.HandleKey(5);
    quit := a.HandleKey('c' as int);
    quit := a.HandleKey('a' as int);
    quit := a.HandleKey('t' as int);
    assert a.inputText == "cat";
    quit := a.HandleKey(Enter);
  }
}
