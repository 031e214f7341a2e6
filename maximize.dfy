/** The maximize/restore engine and the geometry side of interactive move and
    resize, as functions on the geometry state of one view. The `View` class
    of module Compositor updates its fields exactly as these functions say. */
module Maximize {
  import opened Config
  import opened Geometry

  /** The geometry state of one view. `geometry` (the client's geometry box)
      and `surface` (the surface's size) belong to the client: the
      compositor reads them and never writes them. `surface` stands for both
      the pending size (read when a move or resize begins) and the current
      size (read when a title is laid out); the two coincide once the
      client has committed its pending state, which the model takes to be
      so whenever either is read. `requested` is the last
      size the compositor asked the client to take, if any. The maximized flag
      is the toplevel's, taken to change as soon as it is requested. */
  datatype ViewGeo = ViewGeo(
    x: int, y: int,
    saved: Box,
    maximized: bool,
    requested: Option<Size>,
    geometry: Box,
    surface: Size)

  /** `save_view_geometry`: the current position and the client's geometry size. */
  function SaveGeometry(g: ViewGeo): (r: ViewGeo)
    ensures r.saved == Box(g.x, g.y, g.geometry.width, g.geometry.height)
    ensures r.(saved := g.saved) == g
  {
    g.(saved := Box(g.x, g.y, g.geometry.width, g.geometry.height))
  }

  datatype Outcome = Outcome(ok: bool, geo: ViewGeo)

  /** The content box a geometry state requests, when it has requested a size. */
  function RequestedBox(g: ViewGeo): Box
    requires g.requested.Some?
  {
    Box(g.x, g.y, g.requested.value.width, g.requested.value.height)
  }

  /** `maximize_view`. A view that is already maximized is refused and left
      as it is. Otherwise the geometry is saved first, unless a move is in
      progress (a snap during a drag keeps the geometry saved when the drag
      began), and only then is the output under the cursor consulted: with no
      output the call fails, but the save has happened. On success the
      decorated frame covers the target region of the output. */
  function Maximize(g: ViewGeo, edge: Edges, mode: CursorMode, out: Option<Output>, th: int): (r: Outcome)
    ensures r.ok <==> !g.maximized && out.Some?
    ensures g.maximized ==> r.geo == g
    ensures !g.maximized && mode != Move ==> r.geo.saved == Box(g.x, g.y, g.geometry.width, g.geometry.height)
    ensures g.maximized || mode == Move ==> r.geo.saved == g.saved
    ensures !r.ok ==> r.geo == g.(saved := r.geo.saved)
    ensures r.ok ==>
      r.geo.maximized && r.geo.requested.Some? &&
      Frame(RequestedBox(r.geo), th) == Target(edge, out.value)
    ensures r.geo.geometry == g.geometry && r.geo.surface == g.surface
  {
    if g.maximized then Outcome(false, g)
    else
      var s := if mode != Move then SaveGeometry(g) else g;
      match out
      case None => Outcome(false, s)
      case Some(o) =>
        var b := MaximizeBox(edge, o, th);
        Outcome(true, s.(x := b.x, y := b.y, requested := Some(Size(b.width, b.height)), maximized := true))
  }

  /** `unmaximize_view`: refused when the view is not maximized; otherwise
      the saved position comes back and the saved size is requested. */
  function Unmaximize(g: ViewGeo): (r: Outcome)
    ensures r.ok == g.maximized
    ensures !r.ok ==> r.geo == g
    ensures r.ok ==>
      !r.geo.maximized && r.geo.saved == g.saved &&
      r.geo.requested == Some(Size(g.saved.width, g.saved.height)) &&
      RequestedBox(r.geo) == g.saved
    ensures r.geo.geometry == g.geometry && r.geo.surface == g.surface
  {
    if g.maximized then
      Outcome(true, g.(x := g.saved.x, y := g.saved.y,
                       requested := Some(Size(g.saved.width, g.saved.height)), maximized := false))
    else Outcome(false, g)
  }

  /** `toggle_maximize`: unmaximize, and maximize to the whole output
      exactly when unmaximizing was refused. */
  function Toggle(g: ViewGeo, mode: CursorMode, out: Option<Output>, th: int): (r: ViewGeo)
    ensures r.maximized <==> !g.maximized && out.Some?
    ensures g.maximized ==> r == Unmaximize(g).geo
    ensures !g.maximized ==> r == Maximize(g, EdgeNone, mode, out, th).geo
  {
    var u := Unmaximize(g);
    if u.ok then u.geo else Maximize(g, EdgeNone, mode, out, th).geo
  }

  /** Maximizing and then unmaximizing a view (outside a drag) restores its
      position and requests the size it had before. */
  lemma RoundTrip(g: ViewGeo, edge: Edges, mode: CursorMode, out: Option<Output>, th: int)
    requires !g.maximized && mode != Move && out.Some?
    ensures Maximize(g, edge, mode, out, th).ok
    ensures Unmaximize(Maximize(g, edge, mode, out, th).geo).ok
    ensures var r := Unmaximize(Maximize(g, edge, mode, out, th).geo).geo;
      !r.maximized && r.x == g.x && r.y == g.y &&
      r.requested == Some(Size(g.geometry.width, g.geometry.height))
  {
  }

  /** Two toggles outside a drag: the first maximizes to the whole output,
      the second restores the original position and size. */
  lemma ToggleTwice(g: ViewGeo, mode: CursorMode, out: Option<Output>, th: int)
    requires !g.maximized && mode != Move && out.Some?
    ensures Toggle(g, mode, out, th).maximized
    ensures Frame(RequestedBox(Toggle(g, mode, out, th)), th) == Box(0, 0, out.value.width, out.value.height)
    ensures var r := Toggle(Toggle(g, mode, out, th), mode, out, th);
      !r.maximized && r.x == g.x && r.y == g.y &&
      r.requested == Some(Size(g.geometry.width, g.geometry.height))
  {
    RoundTrip(g, EdgeNone, mode, out, th);
  }

  /** A second maximize without an unmaximize in between fails and changes
      nothing, whatever its edge. */
  lemma MaximizeTwice(g: ViewGeo, e1: Edges, e2: Edges, mode: CursorMode, out: Option<Output>, th: int)
    requires Maximize(g, e1, mode, out, th).ok
    ensures var m := Maximize(g, e1, mode, out, th).geo;
      Maximize(m, e2, mode, out, th) == Outcome(false, m)
  {
  }

  /** `process_cursor_move` while dragging with the cursor at (cx, cy) and
      grab offset (grabX, grabY): with no output under the cursor nothing
      happens; near an output edge the view is maximized to that edge;
      elsewhere it is unmaximized if need be and follows the cursor. */
  function CursorMove(g: ViewGeo, cx: int, cy: int, grabX: int, grabY: int, out: Option<Output>, th: int): (r: ViewGeo)
    ensures out.None? ==> r == g
    ensures r.saved == g.saved && r.geometry == g.geometry && r.surface == g.surface
    ensures out.Some? && SnapEdge(cx, cy, out.value).Some? && !g.maximized ==>
      r.maximized && r.requested.Some? && Frame(RequestedBox(r), th) == Target(SnapEdge(cx, cy, out.value).value, out.value)
    ensures out.Some? && SnapEdge(cx, cy, out.value).Some? && g.maximized ==> r == g
    ensures out.Some? && SnapEdge(cx, cy, out.value).None? ==>
      !r.maximized && r.x == cx - grabX && r.y == cy - grabY &&
      r.requested == (if g.maximized then Some(Size(g.saved.width, g.saved.height)) else g.requested)
  {
    match out
    case None => g
    case Some(o) =>
      match SnapEdge(cx, cy, o)
      case Some(e) => Maximize(g, e, Move, out, th).geo
      case None => Unmaximize(g).geo.(x := cx - grabX, y := cy - grabY)
  }

  /** The geometry state and grab offset `begin_interactive` records for a move. */
  datatype MoveGrab = MoveGrab(geo: ViewGeo, grabX: int, grabY: int)

  /** The move branch of `begin_interactive`: a maximized view is re-anchored
      under the cursor for its saved size (never moving back past its current
      origin); any other view has its geometry saved, so that a snap during
      the drag can later be undone. The grab offset is the cursor's offset
      from the resulting origin. */
  function BeginMove(g: ViewGeo, cx: int, cy: int): (r: MoveGrab)
    ensures g.maximized ==>
      r.geo == g.(x := MaxMoveScale(cx, g.x, g.surface.width, g.saved.width),
                  y := MaxMoveScale(cy, g.y, g.surface.height, g.saved.height))
    ensures !g.maximized ==> r.geo == SaveGeometry(g)
    ensures r.geo.x >= g.x && r.geo.y >= g.y
    ensures r.grabX == cx - r.geo.x && r.grabY == cy - r.geo.y
  {
    var geo :=
      if g.maximized then
        g.(x := MaxMoveScale(cx, g.x, g.surface.width, g.saved.width),
           y := MaxMoveScale(cy, g.y, g.surface.height, g.saved.height))
      else SaveGeometry(g);
    MoveGrab(geo, cx - geo.x, cy - geo.y)
  }

  /** Starting a move and moving without the cursor leaving the interior of
      the output leaves a non-maximized view exactly where it was. */
  lemma MoveWithoutMotionKeepsPlace(g: ViewGeo, cx: int, cy: int, out: Option<Output>, th: int)
    requires !g.maximized && out.Some? && SnapEdge(cx, cy, out.value).None?
    ensures var m := BeginMove(g, cx, cy);
      CursorMove(m.geo, cx, cy, m.grabX, m.grabY, out, th) == SaveGeometry(g)
  {
  }

  /** Dragging a maximized view off its position restores its saved size,
      with the origin re-anchored by `BeginMove` when the cursor has not
      moved since. */
  lemma DragOffMaximized(g: ViewGeo, cx: int, cy: int, out: Option<Output>, th: int)
    requires g.maximized && out.Some? && SnapEdge(cx, cy, out.value).None?
    ensures var m := BeginMove(g, cx, cy);
      var r := CursorMove(m.geo, cx, cy, m.grabX, m.grabY, out, th);
      !r.maximized && r.x == m.geo.x && r.y == m.geo.y && r.x >= g.x && r.y >= g.y &&
      r.requested == Some(Size(g.saved.width, g.saved.height))
  {
  }

  /** Snapping to an edge during a drag and then dragging away from the edges
      gives back the size the view had when the drag began, placed under the
      cursor at the original grab offset. */
  lemma SnapThenDragOutRestores(g: ViewGeo, cx0: int, cy0: int, cx1: int, cy1: int,
                                cx2: int, cy2: int, out: Option<Output>, th: int)
    requires !g.maximized && out.Some?
    requires SnapEdge(cx1, cy1, out.value).Some? && SnapEdge(cx2, cy2, out.value).None?
    ensures var m := BeginMove(g, cx0, cy0);
      var snapped := CursorMove(m.geo, cx1, cy1, m.grabX, m.grabY, out, th);
      var r := CursorMove(snapped, cx2, cy2, m.grabX, m.grabY, out, th);
      snapped.maximized && !r.maximized &&
      r.x == cx2 - (cx0 - g.x) && r.y == cy2 - (cy0 - g.y) &&
      r.requested == Some(Size(g.geometry.width, g.geometry.height))
  {
  }

  /** Grabbing a 400x300 view at (500, 500) and dragging the cursor to x = 1
      on a 1920x1080 output snaps it to the left half instead of following
      the cursor. */
  lemma EdgeSnapExample(g: ViewGeo)
    requires !g.maximized && g.geometry == Box(0, 0, 400, 300)
    ensures var m := BeginMove(g, 500, 500);
      var r := CursorMove(m.geo, 1, 500, m.grabX, m.grabY, Some(Output(1920, 1080)), 20);
      r.maximized && r.x == 3 && r.y == 23 && r.requested == Some(Size(954, 1054))
  {
    var m := BeginMove(g, 500, 500);
    assert SnapEdge(1, 500, Output(1920, 1080)) == Some(EdgeLeft);
    assert MaximizeBox(EdgeLeft, Output(1920, 1080), 20) == Box(3, 23, 954, 1054);
  }

  /** The grab `begin_interactive` records for a resize. */
  datatype ResizeGrab = ResizeGrab(grabX: int, grabY: int, geobox: Box, edges: Edges)

  /** The resize branch of `begin_interactive`: the geometry box in layout
      coordinates, the edges, and the cursor's offset from the border being
      dragged (the right and bottom borders when those edges are active). */
  function BeginResize(g: ViewGeo, cx: int, cy: int, edges: Edges): (r: ResizeGrab)
    ensures r.geobox == Box(g.x + g.geometry.x, g.y + g.geometry.y, g.geometry.width, g.geometry.height)
    ensures r.edges == edges
    ensures cx - r.grabX == r.geobox.x + (if Has(edges, EdgeRight) then r.geobox.width else 0)
    ensures cy - r.grabY == r.geobox.y + (if Has(edges, EdgeBottom) then r.geobox.height else 0)
  {
    var borderX := (g.x + g.geometry.x) + (if Has(edges, EdgeRight) then g.geometry.width else 0);
    var borderY := (g.y + g.geometry.y) + (if Has(edges, EdgeBottom) then g.geometry.height else 0);
    var geobox := Box(g.x + g.geometry.x, g.y + g.geometry.y, g.geometry.width, g.geometry.height);
    ResizeGrab(cx - borderX, cy - borderY, geobox, edges)
  }

  /** `process_cursor_resize`: the view is placed so that its geometry box
      starts at the recomputed left/top sides and the recomputed extent is
      requested. An axis with an active edge never drops below one pixel; an
      axis without one keeps the grabbed extent. */
  function CursorResize(g: ViewGeo, cx: int, cy: int, grab: ResizeGrab): (r: ViewGeo)
    ensures r.requested.Some?
    ensures Has(grab.edges, EdgeTop) || Has(grab.edges, EdgeBottom) ==> r.requested.value.height >= 1
    ensures Has(grab.edges, EdgeLeft) || Has(grab.edges, EdgeRight) ==> r.requested.value.width >= 1
    ensures !Has(grab.edges, EdgeTop) && !Has(grab.edges, EdgeBottom) ==>
      r.requested.value.height == grab.geobox.height && r.y + g.geometry.y == grab.geobox.y
    ensures !Has(grab.edges, EdgeLeft) && !Has(grab.edges, EdgeRight) ==>
      r.requested.value.width == grab.geobox.width && r.x + g.geometry.x == grab.geobox.x
    ensures var s := ResizeSides(grab.geobox, grab.edges, cx - grab.grabX, cy - grab.grabY);
      r.x == s.left - g.geometry.x && r.y == s.top - g.geometry.y &&
      r.requested == Some(Size(s.right - s.left, s.bottom - s.top))
    ensures r.(x := g.x, y := g.y, requested := g.requested) == g
  {
    var s := ResizeSides(grab.geobox, grab.edges, cx - grab.grabX, cy - grab.grabY);
    g.(x := s.left - g.geometry.x, y := s.top - g.geometry.y,
       requested := Some(Size(s.right - s.left, s.bottom - s.top)))
  }

  /** Starting a resize and moving without moving the cursor keeps the view
      where it is and requests its current size (when the grabbed edges do
      not pull both sides of one axis and the view is at least a pixel in
      each direction). */
  lemma ResizeWithoutMotionKeepsBox(g: ViewGeo, cx: int, cy: int, edges: Edges)
    requires g.geometry.width >= 1 && g.geometry.height >= 1
    requires !(Has(edges, EdgeTop) && Has(edges, EdgeBottom))
    requires !(Has(edges, EdgeLeft) && Has(edges, EdgeRight))
    ensures var r := CursorResize(g, cx, cy, BeginResize(g, cx, cy, edges));
      r.x == g.x && r.y == g.y && r.requested == Some(Size(g.geometry.width, g.geometry.height))
  {
    var grab := BeginResize(g, cx, cy, edges);
    var s := ResizeSides(grab.geobox, edges, cx - grab.grabX, cy - grab.grabY);
    assert s.left == grab.geobox.x && s.right == grab.geobox.x + grab.geobox.width;
    assert s.top == grab.geobox.y && s.bottom == grab.geobox.y + grab.geobox.height;
  }
}
