/** The per-tile drag/resize state machine of GcWindow: a press captures a
    snapshot of the frame and classifies the hotspot, each pointer move
    applies the geometry rule of the current state, a release reports what
    the gesture did and ends it. */
module GcWindowTile {
  import opened TileGeometry

  /** What the tile tells its owner. NewSize(w, h) stands for a call to
      setNewSize(w, h): the request to resize, whose grid snapping is not
      part of this model. */
  datatype Signal = Moving | Resizing | Moved | Resized | NewSize(w: int, h: int)

  /** An event the tile's event filter sees on one of its children. */
  datatype FilteredEvent = MouseMoveEvent(px: int, py: int) | ButtonReleaseEvent | OtherEvent

  /** The signals a release reports for the state it ends. */
  function ReleaseSignals(d: DragState): (s: seq<Signal>)
    ensures Moved in s <==> d == Move
    ensures Resized in s <==> d.IsResize()
    ensures |s| <= 1
    ensures forall g :: g in s ==> g == Moved || g == Resized
  {
    if d == Move then [Moved] else if d.IsResize() then [Resized] else []
  }

  class GcWindow {
    // frame and toolkit state read by the handlers
    var resizable: bool
    var hidden: bool
    var x: int
    var y: int
    var width: int
    var height: int
    var topMargin: int
    var widthFactor: real
    var heightFactor: real
    var cursor: Cursor

    // the drag state machine
    var dragState: DragState
    var gripped: bool
    var oWidth: int
    var oHeight: int
    var oWidthFactor: real
    var oHeightFactor: real
    var oX: int
    var oY: int
    var mX: int
    var mY: int

    /** Everything the tile has emitted, oldest first. */
    var signals: seq<Signal>

    /** `gripped` is true exactly while a move is in progress; Close and Flip
        are never entered; during a resize the snapshot position is the
        frame's current position. */
    ghost predicate Valid()
      reads this
    {
      && gripped == (dragState == Move)
      && dragState != Close && dragState != Flip
      && (dragState.IsResize() ==> oX == x && oY == y)
    }

    /** A new tile at (x0, y0) of size w0 x h0: not resizable, no margins,
        no drag in progress. */
    constructor (x0: int, y0: int, w0: int, h0: int)
      ensures Valid()
      ensures dragState == DragState.None && !resizable && topMargin == 0
      ensures x == x0 && y == y0 && width == w0 && height == h0
      ensures signals == []
    {
      resizable, hidden := false, false;
      x, y, width, height := x0, y0, w0, h0;
      topMargin := 0;
      widthFactor, heightFactor := 1.0, 1.0;
      cursor := Arrow;
      dragState, gripped := DragState.None, false;
      oWidth, oHeight, oWidthFactor, oHeightFactor := w0, h0, 1.0, 1.0;
      oX, oY, mX, mY := x0, y0, 0, 0;
      signals := [];
    }

    /** Nothing but the drag state, `gripped` and the cursor changes. */
    twostate predicate OnlyDragStateChanged()
      reads this
    {
      && resizable == old(resizable) && hidden == old(hidden)
      && x == old(x) && y == old(y) && width == old(width) && height == old(height)
      && topMargin == old(topMargin)
      && widthFactor == old(widthFactor) && heightFactor == old(heightFactor)
      && oWidth == old(oWidth) && oHeight == old(oHeight)
      && oWidthFactor == old(oWidthFactor) && oHeightFactor == old(oHeightFactor)
      && oX == old(oX) && oY == old(oY) && mX == old(mX) && mY == old(mY)
    }

    /** Enters state d: `gripped` follows whether d is Move and the cursor
        takes d's shape. */
    method SetDragState(d: DragState)
      modifies this
      ensures dragState == d && gripped == (d == Move) && cursor == CursorShape(d)
      ensures OnlyDragStateChanged() && signals == old(signals)
    {
      dragState := d;
      gripped := d == Move;
      cursor := CursorShape(d);
    }

    /** The toolkit reports that the frame has moved to (nx, ny), by the
        tile's own doing or by whoever answers `moving`: the frame is now
        there, and outside a move gesture the drag in progress is abandoned. */
    method MoveEvent(nx: int, ny: int)
      requires Valid()
      modifies this
      ensures Valid()
      ensures x == nx && y == ny
      ensures old(dragState) == Move ==> dragState == Move && gripped && cursor == old(cursor)
      ensures old(dragState) != Move ==> dragState == DragState.None && !gripped && cursor == Arrow
      ensures resizable == old(resizable) && hidden == old(hidden)
      ensures width == old(width) && height == old(height) && topMargin == old(topMargin)
      ensures widthFactor == old(widthFactor) && heightFactor == old(heightFactor)
      ensures oWidth == old(oWidth) && oHeight == old(oHeight)
      ensures oWidthFactor == old(oWidthFactor) && oHeightFactor == old(oHeightFactor)
      ensures oX == old(oX) && oY == old(oY) && mX == old(mX) && mY == old(mY)
      ensures signals == old(signals)
    {
      x, y := nx, ny;
      if dragState != Move {
        SetDragState(DragState.None);
      }
    }

    /** A press at local position (px, py); `withButton` is false for a
        press that reports no button. */
    method MousePress(px: int, py: int, withButton: bool)
      requires Valid()
      modifies this
      ensures Valid()
      ensures signals == old(signals)
      ensures !old(resizable) || !withButton || old(hidden) ==>
        dragState == DragState.None && !gripped && cursor == Arrow && OnlyDragStateChanged()
      ensures old(resizable) && withButton && !old(hidden) ==>
        && dragState == SpotHotSpot(px, py, old(width), old(height), old(topMargin))
        && gripped == (dragState == Move)
        && cursor == CursorShape(dragState)
        && oWidth == old(width) && oHeight == old(height)
        && oWidthFactor == old(widthFactor) && oHeightFactor == old(heightFactor)
        && oX == old(x) && oY == old(y) && mX == px && mY == py
      ensures resizable == old(resizable) && hidden == old(hidden)
      ensures x == old(x) && y == old(y) && width == old(width) && height == old(height)
      ensures topMargin == old(topMargin)
      ensures widthFactor == old(widthFactor) && heightFactor == old(heightFactor)
    {
      if !resizable || !withButton || hidden {
        SetDragState(DragState.None);
        return;
      }

      var h := SpotHotSpot(px, py, width, height, topMargin);
      TakeSnapshot(px, py);
      SetDragState(h);
    }

    /** Records the frame's current geometry and the press point. */
    method TakeSnapshot(px: int, py: int)
      modifies this`oWidth, this`oHeight, this`oWidthFactor, this`oHeightFactor, this`oX, this`oY, this`mX, this`mY
      ensures oWidth == width && oHeight == height
      ensures oWidthFactor == widthFactor && oHeightFactor == heightFactor
      ensures oX == x && oY == y && mX == px && mY == py
    {
      oWidth := width;
      oHeight := height;
      oWidthFactor := widthFactor;
      oHeightFactor := heightFactor;
      oX := x;
      oY := y;
      mX := px;
      mY := py;
    }

    /** The state a pointer move at (px, py) leaves behind, in the fields a
        move may change (the frame position, the position snapshot, the
        cursor and the signals; DragKept says the rest stays). Outside a drag
        only the cursor follows the hotspot; in Move only `moving` is
        emitted; in a resize state the frame goes where ResizeOutcome puts
        it, or stays put when that is too small. Afterwards the position
        snapshot is the frame's position. */
    twostate predicate MouseMoved(px: int, py: int)
      reads this
    {
      && (!old(resizable) ==>
            x == old(x) && y == old(y) && oX == old(oX) && oY == old(oY)
            && cursor == old(cursor) && signals == old(signals))
      && (old(resizable) && old(dragState) == DragState.None ==>
            x == old(x) && y == old(y) && oX == old(oX) && oY == old(oY)
            && cursor == CursorShape(SpotHotSpot(px, py, old(width), old(height), old(topMargin)))
            && signals == old(signals))
      && (old(resizable) && old(dragState) == Move ==>
            x == old(x) && y == old(y) && oX == x && oY == y
            && cursor == DragMove && signals == old(signals) + [Moving])
      && (old(resizable) && old(dragState).IsResize() ==>
            var outcome := ResizeOutcome(old(dragState), Frame(old(oX), old(oY), old(oWidth), old(oHeight)),
                                         px - old(mX), py - old(mY));
            && cursor == old(cursor) && oX == x && oY == y
            && (outcome.Some? ==>
                  x == outcome.value.x && y == outcome.value.y
                  && signals == old(signals) + [NewSize(outcome.value.w, outcome.value.h), Resizing])
            && (outcome.None? ==> x == old(x) && y == old(y) && signals == old(signals)))
    }

    /** The drag state, `gripped`, the size snapshot, the press point and
        the frame's size and settings are as they were. */
    twostate predicate DragKept()
      reads this
    {
      && resizable == old(resizable) && hidden == old(hidden)
      && width == old(width) && height == old(height) && topMargin == old(topMargin)
      && widthFactor == old(widthFactor) && heightFactor == old(heightFactor)
      && dragState == old(dragState) && gripped == old(gripped)
      && oWidth == old(oWidth) && oHeight == old(oHeight)
      && oWidthFactor == old(oWidthFactor) && oHeightFactor == old(oHeightFactor)
      && mX == old(mX) && mY == old(mY)
    }

    /** A pointer move to local position (px, py). */
    method MouseMove(px: int, py: int)
      requires Valid()
      modifies this`x, this`y, this`oX, this`oY, this`cursor, this`signals
      ensures Valid()
      ensures MouseMoved(px, py)
    {
      if !resizable {
        return;
      }

      if dragState == DragState.None {
        cursor := CursorShape(SpotHotSpot(px, py, width, height, topMargin));
        return;
      }

      // the pointer's offset from where it was pressed
      var relx := px - mX;
      var rely := py - mY;

      if dragState.IsResize() {
        Resize(relx, rely);
      } else {
        // Move; the frame itself is left where it is
        cursor := DragMove;
        signals := signals + [Moving];
      }

      oX := x;
      oY := y;
    }

    /** One pointer move in a resize state, (relx, rely) from the press
        point: the geometry rule of that state, guarded by the minimum size. */
    method Resize(relx: int, rely: int)
      requires dragState.IsResize() && oX == x && oY == y
      modifies this`x, this`y, this`signals
      ensures var f := Candidate(dragState, Frame(oX, oY, oWidth, oHeight), relx, rely);
        && (BigEnough(dragState, f) ==>
              x == f.x && y == f.y && signals == old(signals) + [NewSize(f.w, f.h), Resizing])
        && (!BigEnough(dragState, f) ==> x == old(x) && y == old(y) && signals == old(signals))
    {
      match dragState {
        case TLCorner =>
          var newWidth := oWidth - relx;
          var newHeight := oHeight - rely;
          if newWidth > MinSize && newHeight > MinSize {
            x, y := oX + relx, oY + rely;
            signals := signals + [NewSize(newWidth, newHeight), Resizing];
          }
        case TRCorner =>
          var newWidth := oWidth + relx;
          var newHeight := oHeight - rely;
          if newWidth > MinSize && newHeight > MinSize {
            x, y := oX, oY + rely;
            signals := signals + [NewSize(newWidth, newHeight), Resizing];
          }
        case BLCorner =>
          var newWidth := oWidth - relx;
          var newHeight := oHeight + rely;
          if newWidth > MinSize && newHeight > MinSize {
            x, y := oX + relx, oY;
            signals := signals + [NewSize(newWidth, newHeight), Resizing];
          }
        case BRCorner =>
          var newWidth := oWidth + relx;
          var newHeight := oHeight + rely;
          if newWidth > MinSize && newHeight > MinSize {
            signals := signals + [NewSize(newWidth, newHeight), Resizing];
          }
        case Top =>
          var newHeight := oHeight - rely;
          if newHeight > MinSize {
            x, y := oX, oY + rely;
            signals := signals + [NewSize(oWidth, newHeight), Resizing];
          }
        case Bottom =>
          var newHeight := oHeight + rely;
          if newHeight > MinSize {
            signals := signals + [NewSize(oWidth, newHeight), Resizing];
          }
        case Left =>
          var newWidth := oWidth - relx;
          if newWidth > MinSize {
            x, y := oX + relx, oY;
            signals := signals + [NewSize(newWidth, oHeight), Resizing];
          }
        case Right =>
          var newWidth := oWidth + relx;
          if newWidth > MinSize {
            signals := signals + [NewSize(newWidth, oHeight), Resizing];
          }
        case _ =>
      }
    }

    /** The pointer is released: a move reports `moved`, a resize reports
        `resized`, and the gesture ends. */
    method MouseRelease()
      requires Valid()
      modifies this
      ensures Valid()
      ensures dragState == DragState.None && !gripped && cursor == Arrow
      ensures signals == old(signals) + ReleaseSignals(old(dragState))
      ensures OnlyDragStateChanged()
    {
      if dragState == Move {
        gripped := false;
        signals := signals + [Moved];
      } else if dragState == Left || dragState == Right || dragState == Top || dragState == Bottom
             || dragState == TLCorner || dragState == TRCorner || dragState == BLCorner || dragState == BRCorner {
        signals := signals + [Resized];
      }
      SetDragState(DragState.None);
    }

    /** The filter the tile installs on its children: while a drag is in
        progress it forwards pointer moves and releases to the tile. It never
        consumes the event. */
    method EventFilter(e: FilteredEvent) returns (consumed: bool)
      requires Valid()
      modifies this
      ensures Valid()
      ensures !consumed
      ensures !old(resizable) || old(dragState) == DragState.None || e.OtherEvent? ==> unchanged(this)
      ensures old(resizable) && old(dragState) != DragState.None && e.MouseMoveEvent? ==>
        MouseMoved(e.px, e.py) && DragKept()
      ensures old(resizable) && old(dragState) != DragState.None && e.ButtonReleaseEvent? ==>
        && dragState == DragState.None && !gripped && cursor == Arrow
        && signals == old(signals) + ReleaseSignals(old(dragState))
        && OnlyDragStateChanged()
    {
      if !resizable {
        return false;
      }
      if dragState != DragState.None {
        match e {
          case MouseMoveEvent(px, py) =>
            MouseMove(px, py);
          case ButtonReleaseEvent =>
            MouseRelease();
          case OtherEvent =>
        }
      }
      return false;
    }
  }
}
