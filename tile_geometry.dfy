/** The pure part of the drag/resize handling of a chart tile (GcWindow):
    which hotspot a pointer position falls in, which cursor a drag state
    shows, and where a frame goes when one of its edges is dragged. */
module TileGeometry {
  import Wrappers

  /** Side of the square, at each corner, that grabs the corner. */
  const CornerSize := 9
  /** Width of the band, along each side, that grabs that side. */
  const BorderWidth := 3
  /** A resize is carried out only while every dimension it changes stays
      strictly above this many pixels. */
  const MinSize := 30

  /** What a press at a given point starts. Close and Flip belong to the
      enumeration but no hotspot test produces them. */
  datatype DragState =
    | None | Move
    | Left | Right | Top | Bottom
    | TLCorner | TRCorner | BLCorner | BRCorner
    | Close | Flip
  {
    predicate GrabsLeft() { this == Left || this == TLCorner || this == BLCorner }
    predicate GrabsRight() { this == Right || this == TRCorner || this == BRCorner }
    predicate GrabsTop() { this == Top || this == TLCorner || this == TRCorner }
    predicate GrabsBottom() { this == Bottom || this == BLCorner || this == BRCorner }

    predicate IsCorner() { this == TLCorner || this == TRCorner || this == BLCorner || this == BRCorner }
    predicate IsEdge() { this == Left || this == Right || this == Top || this == Bottom }
    /** The states in which a pointer move resizes the frame. */
    predicate IsResize() { IsCorner() || IsEdge() }

    predicate ChangesWidth() { GrabsLeft() || GrabsRight() }
    predicate ChangesHeight() { GrabsTop() || GrabsBottom() }
  }

  /** The pointer shapes the tile shows. DragMove is the one shown while a
      tile is being moved (the toolkit from version 4.7 on). */
  datatype Cursor = Arrow | SizeVer | SizeHor | SizeFDiag | SizeBDiag | DragMove

  /** Position and size of a frame, in pixels. */
  datatype Frame = Frame(x: int, y: int, w: int, h: int)

  /** The pointer lies in one of the four corner squares. */
  predicate InCornerZone(px: int, py: int, w: int, h: int)
  {
    (px <= CornerSize || px >= w - CornerSize) && (py <= CornerSize || py >= h - CornerSize)
  }

  /** The pointer lies in the band along one of the four sides. */
  predicate InBorderZone(px: int, py: int, w: int, h: int)
  {
    px <= BorderWidth || px >= w - BorderWidth || py <= BorderWidth || py >= h - BorderWidth
  }

  /** Classifies a pointer position, local to a frame of size w x h whose
      title band is `top` pixels high: corners first, then the side bands,
      then the title band (Move), else None. Where zones overlap on a small
      frame the left and top sides win: the top-left corner takes the other
      corners' squares, the right side is grabbed only away from the left
      band and the bottom only away from the top band. */
  function SpotHotSpot(px: int, py: int, w: int, h: int, top: int): (r: DragState)
    ensures r != Close && r != Flip
    ensures r.IsCorner() <==> InCornerZone(px, py, w, h)
    ensures r.IsEdge() <==> !InCornerZone(px, py, w, h) && InBorderZone(px, py, w, h)
    ensures r == Move <==> !InCornerZone(px, py, w, h) && !InBorderZone(px, py, w, h) && py <= top
    ensures r == DragState.None <==> !InCornerZone(px, py, w, h) && !InBorderZone(px, py, w, h) && py > top
    ensures r == TLCorner <==> px <= CornerSize && py <= CornerSize
    ensures r.GrabsLeft() ==> px <= (if r.IsCorner() then CornerSize else BorderWidth)
    ensures r.GrabsRight() ==> px >= w - (if r.IsCorner() then CornerSize else BorderWidth)
    ensures r.GrabsTop() ==> py <= (if r.IsCorner() then CornerSize else BorderWidth)
    ensures r.GrabsBottom() ==> py >= h - (if r.IsCorner() then CornerSize else BorderWidth)
    ensures r.GrabsRight() ==> !(px <= (if r.IsCorner() then CornerSize else BorderWidth))
    ensures r.GrabsBottom() ==> !(py <= (if r.IsCorner() then CornerSize else BorderWidth))
  {
    if px <= CornerSize && py <= CornerSize then TLCorner
    else if px >= w - CornerSize && py <= CornerSize then TRCorner
    else if px <= CornerSize && py >= h - CornerSize then BLCorner
    else if px >= w - CornerSize && py >= h - CornerSize then BRCorner
    else if px <= BorderWidth then Left
    else if px >= w - BorderWidth then Right
    else if py <= BorderWidth then Top
    else if py >= h - BorderWidth then Bottom
    else if py <= top then Move
    else DragState.None
  }

  /** The cursor a drag state shows: its arrows point along the axes the
      state resizes, and a state that resizes nothing shows the plain arrow. */
  function CursorShape(d: DragState): (c: Cursor)
    ensures c == Arrow <==> !d.IsResize()
    ensures c == SizeVer <==> d.ChangesHeight() && !d.ChangesWidth()
    ensures c == SizeHor <==> d.ChangesWidth() && !d.ChangesHeight()
    ensures c == SizeFDiag <==> (d.GrabsLeft() && d.GrabsTop()) || (d.GrabsRight() && d.GrabsBottom())
    ensures c == SizeBDiag <==> (d.GrabsRight() && d.GrabsTop()) || (d.GrabsLeft() && d.GrabsBottom())
    ensures c != DragMove
  {
    match d
    case Bottom | Top => SizeVer
    case Left | Right => SizeHor
    case TLCorner | BRCorner => SizeFDiag
    case TRCorner | BLCorner => SizeBDiag
    case Move => Arrow
    case Close | None | Flip => Arrow
  }

  /** Each grabbed edge of `f` sits where the same edge of `o` was, shifted
      by the pointer delta; every edge that is not grabbed stays where it was. */
  ghost predicate FollowsPointer(d: DragState, o: Frame, relx: int, rely: int, f: Frame)
  {
    && f.x == o.x + (if d.GrabsLeft() then relx else 0)
    && f.x + f.w == o.x + o.w + (if d.GrabsRight() then relx else 0)
    && f.y == o.y + (if d.GrabsTop() then rely else 0)
    && f.y + f.h == o.y + o.h + (if d.GrabsBottom() then rely else 0)
  }

  /** Every dimension that `d` changes is above the minimum. */
  predicate BigEnough(d: DragState, f: Frame)
  {
    (d.ChangesWidth() ==> f.w > MinSize) && (d.ChangesHeight() ==> f.h > MinSize)
  }

  /** The frame that dragging with state `d` by (relx, rely) produces from the
      press-time frame `o`, or None when the drag would shrink a changed
      dimension to MinSize or below (the move is then ignored). */
  function ResizeOutcome(d: DragState, o: Frame, relx: int, rely: int): (r: Wrappers.Option<Frame>)
    requires d.IsResize()
    ensures r.Some? ==> FollowsPointer(d, o, relx, rely, r.value) && BigEnough(d, r.value)
    ensures r.None? ==> forall f :: FollowsPointer(d, o, relx, rely, f) ==> !BigEnough(d, f)
    ensures r.Some? && !d.GrabsLeft() ==> r.value.x == o.x
    ensures r.Some? && !d.GrabsTop() ==> r.value.y == o.y
    ensures r.Some? && !d.ChangesWidth() ==> r.value.w == o.w
    ensures r.Some? && !d.ChangesHeight() ==> r.value.h == o.h
    ensures r.Some? && d.GrabsLeft() ==> r.value.x - o.x == o.w - r.value.w
    ensures r.Some? && d.GrabsTop() ==> r.value.y - o.y == o.h - r.value.h
  {
    var f := Candidate(d, o, relx, rely);
    if BigEnough(d, f) then Wrappers.Some(f) else Wrappers.None
  }

  /** The frame the edge rule of `d` proposes, before the minimum-size guard. */
  function Candidate(d: DragState, o: Frame, relx: int, rely: int): (f: Frame)
  {
    var w := if d.GrabsLeft() then o.w - relx else if d.GrabsRight() then o.w + relx else o.w;
    var h := if d.GrabsTop() then o.h - rely else if d.GrabsBottom() then o.h + rely else o.h;
    Frame(o.x + (if d.GrabsLeft() then relx else 0), o.y + (if d.GrabsTop() then rely else 0), w, h)
  }

  /** The size a drag asks for, and whether it is carried out, depend on the
      press-time size and the pointer delta only, not on where the frame is:
      a second move event at the same pointer position asks for the same size. */
  lemma SizeIgnoresPosition(d: DragState, o1: Frame, o2: Frame, relx: int, rely: int)
    requires d.IsResize() && o1.w == o2.w && o1.h == o2.h
    ensures ResizeOutcome(d, o1, relx, rely).Some? == ResizeOutcome(d, o2, relx, rely).Some?
    ensures ResizeOutcome(d, o1, relx, rely).Some? ==>
      && ResizeOutcome(d, o1, relx, rely).value.w == ResizeOutcome(d, o2, relx, rely).value.w
      && ResizeOutcome(d, o1, relx, rely).value.h == ResizeOutcome(d, o2, relx, rely).value.h
  {
  }
}
