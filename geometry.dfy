/** Pure box arithmetic of the window policy: maximize targets, edge snapping,
    resize-edge detection, interactive resize clamping, the proportional
    re-anchoring of a maximized window and centering. */
module Geometry {
  import opened Config

  /** The outer frame of a window whose content box is `b`: the border on
      every side plus the title bar above the content. The decoration rect
      is placed at (-BorderSize, -(th + BorderSize)) relative to the content
      and sized (width + 2*BorderSize, height + th + 2*BorderSize). */
  function Frame(b: Box, th: int): Box {
    Box(b.x - BorderSize, b.y - th - BorderSize,
        b.width + 2 * BorderSize, b.height + th + 2 * BorderSize)
  }

  /** The part of an output that a maximize with `edge` is meant to cover:
      the whole output, or its left, right, top or bottom half (halves use
      C's truncating `/ 2`). Any other edge value means the whole output. */
  function Target(edge: Edges, out: Output): Box {
    if edge == EdgeLeft then Box(0, 0, Half(out.width), out.height)
    else if edge == EdgeRight then Box(Half(out.width), 0, Half(out.width), out.height)
    else if edge == EdgeBottom then Box(0, Half(out.height), out.width, Half(out.height))
    else if edge == EdgeTop then Box(0, 0, out.width, Half(out.height))
    else Box(0, 0, out.width, out.height)
  }

  /** The content position and requested size that `maximize_view` computes
      for `edge`. Its decorated frame covers exactly the target region. */
  function MaximizeBox(edge: Edges, out: Output, th: int): (b: Box)
    ensures Frame(b, th) == Target(edge, out)
    ensures b.x == BorderSize || (edge == EdgeRight && b.x == Half(out.width) + BorderSize)
  {
    var x := BorderSize;
    var y := th + BorderSize;
    var width := out.width - BorderSize * 2;
    var height := out.height - (th + BorderSize * 2);
    if edge == EdgeLeft then
      Box(x, y, Half(out.width) - BorderSize * 2, height)
    else if edge == EdgeRight then
      Box(Half(out.width) + BorderSize, y, Half(out.width) - BorderSize * 2, height)
    else if edge == EdgeBottom then
      Box(x, Half(out.height) + (th + BorderSize), width, Half(out.height) - (th + BorderSize * 2))
    else if edge == EdgeTop then
      Box(x, y, width, Half(out.height) - (th + BorderSize * 2))
    else
      Box(x, y, width, height)
  }

  lemma MaximizeFullExample()
    ensures MaximizeBox(EdgeNone, Output(1920, 1080), 20) == Box(3, 23, 1914, 1054)
    ensures MaximizeBox(EdgeRight, Output(1920, 1080), 20) == Box(963, 23, 954, 1054)
    ensures MaximizeBox(EdgeBottom, Output(1920, 1080), 20) == Box(3, 563, 1914, 514)
  {
  }

  /** The left and right half targets meet without overlap, and so do the
      top and bottom ones; together they span the output up to one pixel
      lost to the truncating halving of an odd extent. */
  lemma HalvesAdjacent(out: Output)
    requires out.width >= 0 && out.height >= 0
    ensures Target(EdgeLeft, out).x + Target(EdgeLeft, out).width == Target(EdgeRight, out).x
    ensures out.width - 1 <= Target(EdgeRight, out).x + Target(EdgeRight, out).width <= out.width
    ensures Target(EdgeTop, out).y + Target(EdgeTop, out).height == Target(EdgeBottom, out).y
    ensures out.height - 1 <= Target(EdgeBottom, out).y + Target(EdgeBottom, out).height <= out.height
  {
  }

  /** The edge the window snaps to while being dragged with the cursor at
      (cx, cy), checking left, right, bottom and top in that order; `None`
      when the cursor is not within the edge margin of any of them. Only the
      output's width and height are compared, never its layout origin. */
  function SnapEdge(cx: int, cy: int, out: Output): (r: Option<Edges>)
    ensures r == Some(EdgeLeft) <==> cx <= EdgeMargin
    ensures r == Some(EdgeRight) <==> EdgeMargin < cx && out.width - EdgeMargin <= cx
    ensures r == Some(EdgeBottom) <==>
      EdgeMargin < cx < out.width - EdgeMargin && out.height - EdgeMargin <= cy
    ensures r == Some(EdgeTop) <==>
      EdgeMargin < cx < out.width - EdgeMargin && cy < out.height - EdgeMargin && cy <= EdgeMargin
    ensures r.None? <==>
      EdgeMargin < cx < out.width - EdgeMargin && EdgeMargin < cy < out.height - EdgeMargin
  {
    if cx <= EdgeMargin then Some(EdgeLeft)
    else if cx >= out.width - EdgeMargin then Some(EdgeRight)
    else if cy >= out.height - EdgeMargin then Some(EdgeBottom)
    else if cy <= EdgeMargin then Some(EdgeTop)
    else None
  }

  /** `find_resize_edge`: the edges of a window at (x, y) with surface size
      (w, h) that the cursor (cx, cy) is within the border of. Each flag is
      decided on its own, so a corner yields two flags. */
  function FindResizeEdge(cx: int, cy: int, x: int, y: int, w: int, h: int): (e: Edges)
    ensures Has(e, EdgeLeft) <==> cx < x + BorderSize
    ensures Has(e, EdgeTop) <==> cy < y + BorderSize
    ensures Has(e, EdgeRight) <==> cx >= x + w - BorderSize
    ensures Has(e, EdgeBottom) <==> cy >= y + h - BorderSize
    ensures e & !(EdgeTop | EdgeBottom | EdgeLeft | EdgeRight) == 0
  {
    var left := if cx < x + BorderSize then EdgeLeft else EdgeNone;
    var top := if cy < y + BorderSize then EdgeTop else EdgeNone;
    var right := if cx >= x + w - BorderSize then EdgeRight else EdgeNone;
    var bottom := if cy >= y + h - BorderSize then EdgeBottom else EdgeNone;
    left | top | right | bottom
  }

  /** A cursor in the top-left corner of a window at least two borders wide
      and high selects exactly the top and left edges. */
  lemma CornerSelectsTwoEdges(cx: int, cy: int, x: int, y: int, w: int, h: int)
    requires x <= cx < x + BorderSize && y <= cy < y + BorderSize
    requires w >= 2 * BorderSize && h >= 2 * BorderSize
    ensures FindResizeEdge(cx, cy, x, y, w, h) == EdgeTop | EdgeLeft
  {
    var e := FindResizeEdge(cx, cy, x, y, w, h);
    assert !Has(e, EdgeRight) && !Has(e, EdgeBottom);
    assert e & !(EdgeTop | EdgeBottom | EdgeLeft | EdgeRight) == 0;
  }

  /** On a window at least two borders wide, the left and right flags
      exclude each other (and likewise top and bottom for the height). */
  lemma OppositeEdgesExclusive(cx: int, cy: int, x: int, y: int, w: int, h: int)
    requires w >= 2 * BorderSize && h >= 2 * BorderSize
    ensures !(Has(FindResizeEdge(cx, cy, x, y, w, h), EdgeLeft) &&
              Has(FindResizeEdge(cx, cy, x, y, w, h), EdgeRight))
    ensures !(Has(FindResizeEdge(cx, cy, x, y, w, h), EdgeTop) &&
              Has(FindResizeEdge(cx, cy, x, y, w, h), EdgeBottom))
  {
  }

  /** The four sides of a box being resized. */
  datatype Sides = Sides(left: int, top: int, right: int, bottom: int)

  /** `process_cursor_resize`'s box: starting from the grabbed geometry box,
      the active vertical edge (top before bottom) and the active horizontal
      edge (left before right) follow the border position (borderX, borderY),
      but never reach or cross the opposite side. */
  function ResizeSides(geo: Box, edges: Edges, borderX: int, borderY: int): (r: Sides)
    ensures Has(edges, EdgeTop) ==>
      r.bottom == geo.y + geo.height && r.top < r.bottom && r.top <= borderY &&
      (r.top == borderY || r.top == r.bottom - 1)
    ensures !Has(edges, EdgeTop) && Has(edges, EdgeBottom) ==>
      r.top == geo.y && r.top < r.bottom && borderY <= r.bottom &&
      (r.bottom == borderY || r.bottom == r.top + 1)
    ensures !Has(edges, EdgeTop) && !Has(edges, EdgeBottom) ==>
      r.top == geo.y && r.bottom == geo.y + geo.height
    ensures Has(edges, EdgeLeft) ==>
      r.right == geo.x + geo.width && r.left < r.right && r.left <= borderX &&
      (r.left == borderX || r.left == r.right - 1)
    ensures !Has(edges, EdgeLeft) && Has(edges, EdgeRight) ==>
      r.left == geo.x && r.left < r.right && borderX <= r.right &&
      (r.right == borderX || r.right == r.left + 1)
    ensures !Has(edges, EdgeLeft) && !Has(edges, EdgeRight) ==>
      r.left == geo.x && r.right == geo.x + geo.width
  {
    var left, right := geo.x, geo.x + geo.width;
    var top, bottom := geo.y, geo.y + geo.height;
    var vertical :=
      if Has(edges, EdgeTop) then (if borderY >= bottom then bottom - 1 else borderY, bottom)
      else if Has(edges, EdgeBottom) then (top, if borderY <= top then top + 1 else borderY)
      else (top, bottom);
    var horizontal :=
      if Has(edges, EdgeLeft) then (if borderX >= right then right - 1 else borderX, right)
      else if Has(edges, EdgeRight) then (left, if borderX <= left then left + 1 else borderX)
      else (left, right);
    Sides(horizontal.0, vertical.0, horizontal.1, vertical.1)
  }

  /** C's conversion of a floating-point value to `int`: truncation toward zero. */
  function Truncate(r: real): (n: int)
    ensures r >= 0.0 ==> n as real <= r < n as real + 1.0
    ensures r < 0.0 ==> n as real - 1.0 < r <= n as real
  {
    if r >= 0.0 then r.Floor else -((-r).Floor)
  }

  /** The unclamped origin of `max_move_scale`: keep the cursor at the same
      fraction of the window's extent when the extent changes from
      `sizeCurrent` to `sizeOrig`. */
  function ProportionalOrigin(cursor: int, current: int, sizeCurrent: int, sizeOrig: int): int
    requires sizeCurrent != 0
  {
    var anchor := (cursor - current) as real / sizeCurrent as real;
    Truncate(cursor as real - sizeOrig as real * anchor)
  }

  /** `max_move_scale`: the proportional origin, clamped so that it never
      lies before the current origin. A zero current extent, where the
      source divides by zero, yields the clamp value. */
  function MaxMoveScale(cursor: int, current: int, sizeCurrent: int, sizeOrig: int): (r: int)
    ensures r >= current
    ensures sizeCurrent != 0 && ProportionalOrigin(cursor, current, sizeCurrent, sizeOrig) >= current ==>
      r == ProportionalOrigin(cursor, current, sizeCurrent, sizeOrig)
    ensures sizeCurrent != 0 && ProportionalOrigin(cursor, current, sizeCurrent, sizeOrig) < current ==>
      r == current
  {
    if sizeCurrent == 0 then current
    else
      var candidate := ProportionalOrigin(cursor, current, sizeCurrent, sizeOrig);
      if candidate < current then current else candidate
  }

  /** `position_view_centered`: the origin that centres a `geo`-sized window
      in a `main`-sized area, or `None` when the area has zero width (then
      the window is left where it is). */
  function Centered(main: Size, geo: Box): (r: Option<(int, int)>)
    ensures r.None? <==> main.width == 0
    ensures r.Some? && main.width >= 0 && geo.width >= 0 ==>
      -1 <= 2 * r.value.0 + geo.width - main.width <= 1
    ensures r.Some? && main.height >= 0 && geo.height >= 0 ==>
      -1 <= 2 * r.value.1 + geo.height - main.height <= 1
    ensures r.Some? && main.width % 2 == 0 && geo.width % 2 == 0 && main.width >= 0 && geo.width >= 0 ==>
      2 * r.value.0 + geo.width == main.width
    ensures r.Some? && main.height % 2 == 0 && geo.height % 2 == 0 && main.height >= 0 && geo.height >= 0 ==>
      2 * r.value.1 + geo.height == main.height
  {
    if main.width != 0 then
      Some((Half(main.width) - Half(geo.width), Half(main.height) - Half(geo.height)))
    else None
  }

  lemma CenteredExample()
    ensures Centered(Size(1920, 1080), Box(0, 0, 400, 300)) == Some((760, 390))
  {
  }
}
