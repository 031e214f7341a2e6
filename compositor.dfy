/** The compositor's mutable state: the views with the fields the window
    policy updates in place, and the server with its view list, focus and
    pointer-grab state. Each method is proved against the pure functions of
    modules Maximize, Geometry, Clicks, Title, Scene and ZOrder. Toolkit
    calls with no effect on this state (scene-node positioning and colours,
    cursor images, events sent to clients) are not modelled; the output
    under the cursor, the text measurement of a title and the scene lookup
    at the cursor are inputs. */
module Compositor {
  import opened Config
  import opened Geometry
  import opened Maximize
  import opened Clicks
  import opened Title
  import opened ZOrder
  import Scene

  /** Every mutable field of a view, as one value. */
  datatype ViewState = ViewState(
    geo: ViewGeo,
    activated: bool,
    borderActive: bool,
    title: TitleWidths,
    decorationSize: Size,
    closeRequested: bool)

  /** A view's state once it is activated and, when decorated, drawn with
      the active border colour. */
  function Activate(s: ViewState, hasDecoration: bool): ViewState {
    s.(activated := true, borderActive := hasDecoration || s.borderActive)
  }

  /** A view's state once it is deactivated and, when decorated, drawn with
      the inactive border colour. */
  function Deactivate(s: ViewState, hasDecoration: bool): ViewState {
    s.(activated := false, borderActive := !hasDecoration && s.borderActive)
  }

  /** A toplevel window. `surface` identifies the client surface; a view
      without a decoration (a child window) has no border or title bar. The
      client owns `geometry` and `surfaceSize`. `activated` is the activated
      state sent to the client, `borderActive` the colour of the border
      (active or inactive), and `closeRequested` whether a close request has
      been sent. */
  class View {
    const surface: SurfaceId
    const hasDecoration: bool
    var x: int
    var y: int
    var saved: Box
    var maximized: bool
    var requested: Option<Size>
    var geometry: Box
    var surfaceSize: Size
    var activated: bool
    var borderActive: bool
    var title: TitleWidths
    var decorationSize: Size
    var closeRequested: bool

    function Geo(): ViewGeo
      reads this
    {
      ViewGeo(x, y, saved, maximized, requested, geometry, surfaceSize)
    }

    function State(): ViewState
      reads this
    {
      ViewState(Geo(), activated, borderActive, title, decorationSize, closeRequested)
    }

    /** A new view: at the origin, not maximized, nothing requested. */
    constructor (surface: SurfaceId, hasDecoration: bool, geometry: Box, surfaceSize: Size)
      ensures this.surface == surface && this.hasDecoration == hasDecoration
      ensures Geo() == ViewGeo(0, 0, Box(0, 0, 0, 0), false, None, geometry, surfaceSize)
      ensures !activated && !borderActive && !closeRequested
    {
      this.surface := surface;
      this.hasDecoration := hasDecoration;
      x, y := 0, 0;
      saved := Box(0, 0, 0, 0);
      maximized := false;
      requested := None;
      this.geometry := geometry;
      this.surfaceSize := surfaceSize;
      activated, borderActive, closeRequested := false, false, false;
      title := TitleWidths(0, 0);
      decorationSize := Size(0, 0);
    }

    /** `save_view_geometry`. */
    method SaveGeometry()
      modifies this`saved
      ensures Geo() == Maximize.SaveGeometry(old(Geo()))
    {
      saved := Box(x, y, geometry.width, geometry.height);
    }

    /** `unmaximize_view`. */
    method Unmaximize() returns (ok: bool)
      modifies this`x, this`y, this`requested, this`maximized
      ensures Outcome(ok, Geo()) == Maximize.Unmaximize(old(Geo()))
    {
      if !maximized {
        return false;
      }
      x, y := saved.x, saved.y;
      requested := Some(Size(saved.width, saved.height));
      maximized := false;
      ok := true;
    }
  }

  /** The index of the first view of `vs` with surface `s`, or -1. */
  function IndexOfSurface(vs: seq<View>, s: SurfaceId): (i: int)
    ensures -1 <= i < |vs|
    ensures i >= 0 ==> vs[i].surface == s
    ensures forall j :: 0 <= j < |vs| && (i < 0 || j < i) ==> vs[j].surface != s
  {
    if vs == [] then -1
    else if vs[0].surface == s then 0
    else
      var k := IndexOfSurface(vs[1..], s);
      if k < 0 then -1 else k + 1
  }

  /** The first view of `vs` with surface `s`, or null. */
  function ViewFor(vs: seq<View>, s: SurfaceId): (v: View?)
    ensures v == null <==> forall j :: 0 <= j < |vs| ==> vs[j].surface != s
    ensures v != null ==> v in vs && v.surface == s
  {
    var i := IndexOfSurface(vs, s);
    if i < 0 then null else vs[i]
  }

  /** Putting a view with another surface in front does not change which
      view is found for `s`. */
  lemma ViewForSkips(v: View, vs: seq<View>, s: SurfaceId)
    requires v.surface != s
    ensures ViewFor([v] + vs, s) == ViewFor(vs, s)
  {
    assert ([v] + vs)[1..] == vs;
  }

  /** The view whose surface has keyboard focus, if it is in `vs`. */
  function FocusedView(vs: seq<View>, focus: Option<SurfaceId>): View? {
    match focus
    case None => null
    case Some(s) => ViewFor(vs, s)
  }

  function ViewOrNull(v: Option<View>): View? {
    match v
    case None => null
    case Some(w) => w
  }

  /** The size a new view is centred in: its parent's geometry size for a
      child window, the output's size otherwise. */
  function MainSize(parent: Option<Box>, output: Output): Size {
    match parent
    case Some(p) => Size(p.width, p.height)
    case None => Size(output.width, output.height)
  }

  /** Keysyms of the two compositor bindings (held with Alt). */
  const KeyEscape: bv32 := 0xff1b
  const KeyF1: bv32 := 0xffbe

  predicate IsBinding(sym: bv32) {
    sym == KeyEscape || sym == KeyF1
  }

  /** Whether `keyboard_handle_key` keeps a key event from the client: only
      a press with Alt held, and only by the verdict on the LAST keysym the
      key produces, since every keysym overwrites the verdict. */
  function KeyHandled(syms: seq<bv32>, alt: bool, pressed: bool): (handled: bool)
    ensures handled ==> alt && pressed && |syms| > 0
    ensures handled <==> alt && pressed && exists k :: 0 <= k < |syms| && IsBinding(syms[k]) && k == |syms| - 1
  {
    alt && pressed && |syms| > 0 && IsBinding(syms[|syms| - 1])
  }

  /** A key whose keysyms are a binding followed by an ordinary keysym is
      passed on to the client, although the binding took effect. */
  lemma LastKeysymDecides(b: bv32, other: bv32)
    requires IsBinding(b) && !IsBinding(other)
    ensures !KeyHandled([b, other], true, true)
    ensures KeyHandled([other, b], true, true)
  {
  }

  /** The scene as the hit test sees it at one moment: the scene graph, the
      decoration nodes of each view, and the topmost node at the cursor. */
  datatype Pick = Pick(graph: Scene.Graph<View>, registry: map<View, Scene.ViewDecor>, top: Option<Scene.TopHit>)
  {
    /** The scene graph is well formed, tags only registered views, and
        each view's registered surface is its own. */
    predicate Consistent() {
      Scene.Consistent(graph, registry, top) &&
      forall v :: v in registry ==> registry[v].surface == v.surface
    }

    function Hit(): Scene.Hit<View>
      requires Consistent()
    {
      Scene.ClassifyHit(graph, registry, top)
    }
  }

  /** The server: the views front to back, the keyboard- and pointer-focused
      surfaces, the cursor, the pointer mode with its grab, the title-bar
      height of the last rendered title, and whether the event loop runs. */
  class Server {
    var views: seq<View>
    var keyboardFocus: Option<SurfaceId>
    var pointerFocus: Option<SurfaceId>
    var cursorX: int
    var cursorY: int
    var cursorMode: CursorMode
    var grabbedView: View?
    var grabX: int
    var grabY: int
    var grabGeobox: Box
    var resizeEdges: Edges
    var titlebarHeight: int
    var running: bool
    const clicks: ClickCounter

    /** A view is linked into the list at most once, and every mode other
        than pass-through has a grabbed view. */
    ghost predicate Valid()
      reads this
    {
      Distinct(views) && (cursorMode != Passthrough ==> grabbedView != null)
    }

    constructor ()
      ensures Valid() && fresh(clicks) && clicks.State() == Initial
      ensures views == [] && keyboardFocus.None? && pointerFocus.None?
      ensures cursorMode == Passthrough && grabbedView == null && running
    {
      views := [];
      keyboardFocus, pointerFocus := None, None;
      cursorX, cursorY := 0, 0;
      cursorMode := Passthrough;
      grabbedView := null;
      grabX, grabY := 0, 0;
      grabGeobox := Box(0, 0, 0, 0);
      resizeEdges := EdgeNone;
      titlebarHeight := 0;
      running := true;
      clicks := new ClickCounter();
    }

    /** `tinywl_view_from_wlr_surface`: the first view on the list whose
        surface is `s`, or null. */
    method ViewFromSurface(s: SurfaceId) returns (v: View?)
      ensures v == ViewFor(views, s)
    {
      var i := 0;
      while i < |views|
        invariant 0 <= i <= |views|
        invariant forall j :: 0 <= j < i ==> views[j].surface != s
        invariant IndexOfSurface(views, s) < 0 || i <= IndexOfSurface(views, s)
      {
        if views[i].surface == s {
          return views[i];
        }
        i := i + 1;
      }
      v := null;
    }

    /** The deactivation half of `focus_view`: the view holding keyboard
        focus, when it is on the list, is deactivated and drawn inactive. */
    method DeactivateFocused()
      modifies views
      ensures var p := FocusedView(views, keyboardFocus);
        (p != null ==> p.State() == Deactivate(old(p.State()), p.hasDecoration)) &&
        forall v :: v in views && v != p ==> unchanged(v)
    {
      if keyboardFocus.Some? {
        var prev := ViewFromSurface(keyboardFocus.value);
        if prev != null {
          prev.activated := false;
          if prev.hasDecoration {
            prev.borderActive := false;
          }
        }
      }
    }

    /** `focus_view`. Nothing happens for a null view or when `surface`
        already has keyboard focus. Otherwise the previously focused view, if
        it is on the list, is deactivated and drawn inactive; the view moves
        to the front of the list, the others keeping their order; it is
        activated, drawn active, and given keyboard focus. */
    method FocusView(view: View?, surface: Option<SurfaceId>)
      requires Valid()
      requires view != null ==> view in views
      modifies this`views, this`keyboardFocus, views
      ensures Valid()
      ensures multiset(views) == multiset(old(views))
      ensures view == null || old(keyboardFocus) == surface ==>
        views == old(views) && keyboardFocus == old(keyboardFocus) &&
        forall v :: v in old(views) ==> unchanged(v)
      ensures view != null && old(keyboardFocus) != surface ==>
        views == MoveToFront<View>(old(views), view) && keyboardFocus == Some(view.surface)
      ensures view != null && old(keyboardFocus) != surface ==>
        view.State() == Activate(old(view.State()), view.hasDecoration)
      ensures view != null && old(keyboardFocus) != surface ==>
        var p := FocusedView(old(views), old(keyboardFocus));
        (p != null && p != view ==> p.State() == Deactivate(old(p.State()), p.hasDecoration)) &&
        forall v :: v in old(views) && v != view && v != p ==> unchanged(v)
    {
      if view == null || keyboardFocus == surface {
        return;
      }
      DeactivateFocused();
      var v: View := view;
      MoveToFrontPermutes(views, v);
      views := MoveToFront(views, v);
      view.activated := true;
      if view.hasDecoration {
        view.borderActive := true;
      }
      keyboardFocus := Some(view.surface);
    }

    /** `maximize_view` for the output under the cursor (`None` when there is
        none). */
    method MaximizeView(view: View, edge: Edges, output: Option<Output>) returns (ok: bool)
      modifies view`x, view`y, view`saved, view`requested, view`maximized
      ensures Outcome(ok, view.Geo()) == Maximize.Maximize(old(view.Geo()), edge, cursorMode, output, titlebarHeight)
    {
      if view.maximized {
        return false;
      }
      if cursorMode != Move {
        view.SaveGeometry();
      }
      if output.None? {
        return false;
      }
      var b := MaximizeBox(edge, output.value, titlebarHeight);
      view.x, view.y := b.x, b.y;
      view.requested := Some(Size(b.width, b.height));
      view.maximized := true;
      ok := true;
    }

    /** `toggle_maximize`. */
    method ToggleMaximize(view: View, output: Option<Output>)
      modifies view`x, view`y, view`saved, view`requested, view`maximized
      ensures view.Geo() == Toggle(old(view.Geo()), cursorMode, output, titlebarHeight)
    {
      var restored := view.Unmaximize();
      if !restored {
        var _ := MaximizeView(view, EdgeNone, output);
      }
    }

    /** `process_cursor_move`: snap to an output edge, or follow the cursor. */
    method ProcessCursorMove(output: Option<Output>)
      requires cursorMode == Move && grabbedView != null
      modifies grabbedView`x, grabbedView`y, grabbedView`saved, grabbedView`requested, grabbedView`maximized
      ensures grabbedView.Geo() ==
        CursorMove(old(grabbedView.Geo()), cursorX, cursorY, grabX, grabY, output, titlebarHeight)
    {
      var view := grabbedView;
      if output.None? {
        return;
      }
      var out := output.value;
      var ok: bool;
      if cursorX <= EdgeMargin {
        ok := MaximizeView(view, EdgeLeft, output);
      } else if cursorX >= out.width - EdgeMargin {
        ok := MaximizeView(view, EdgeRight, output);
      } else if cursorY >= out.height - EdgeMargin {
        ok := MaximizeView(view, EdgeBottom, output);
      } else if cursorY <= EdgeMargin {
        ok := MaximizeView(view, EdgeTop, output);
      } else {
        ok := view.Unmaximize();
        view.x := cursorX - grabX;
        view.y := cursorY - grabY;
      }
    }

    /** `process_cursor_resize`. */
    method ProcessCursorResize()
      requires grabbedView != null
      modifies grabbedView`x, grabbedView`y, grabbedView`requested
      ensures grabbedView.Geo() ==
        CursorResize(old(grabbedView.Geo()), cursorX, cursorY, ResizeGrab(grabX, grabY, grabGeobox, resizeEdges))
    {
      var view := grabbedView;
      var sides := ResizeSides(grabGeobox, resizeEdges, cursorX - grabX, cursorY - grabY);
      view.x := sides.left - view.geometry.x;
      view.y := sides.top - view.geometry.y;
      view.requested := Some(Size(sides.right - sides.left, sides.bottom - sides.top));
    }

    /** `begin_interactive`. Refused, with nothing changed, unless the view's
        surface has pointer focus. Otherwise the view is grabbed in `mode`;
        a move re-anchors a maximized view or saves the geometry of any
        other, then records the cursor's offset from the view; a resize
        records the grab box, the edges and the cursor's offset from the
        dragged border. */
    method BeginInteractive(view: View, mode: CursorMode, edges: Edges)
      requires Valid()
      modifies this`grabbedView, this`cursorMode, this`grabX, this`grabY, this`grabGeobox, this`resizeEdges
      modifies view`x, view`y, view`saved
      ensures Valid()
      ensures pointerFocus != Some(view.surface) ==> unchanged(this) && unchanged(view)
      ensures pointerFocus == Some(view.surface) ==> grabbedView == view && cursorMode == mode
      ensures pointerFocus == Some(view.surface) && mode == Move ==>
        MoveGrab(view.Geo(), grabX, grabY) == BeginMove(old(view.Geo()), cursorX, cursorY) &&
        grabGeobox == old(grabGeobox) && resizeEdges == old(resizeEdges)
      ensures pointerFocus == Some(view.surface) && mode != Move ==>
        ResizeGrab(grabX, grabY, grabGeobox, resizeEdges) == BeginResize(old(view.Geo()), cursorX, cursorY, edges) &&
        view.Geo() == old(view.Geo())
    {
      if pointerFocus != Some(view.surface) {
        return;
      }
      grabbedView := view;
      cursorMode := mode;
      if mode == Move {
        if view.maximized {
          var newX := MaxMoveScale(cursorX, view.x, view.surfaceSize.width, view.saved.width);
          var newY := MaxMoveScale(cursorY, view.y, view.surfaceSize.height, view.saved.height);
          view.x, view.y := newX, newY;
        } else {
          view.SaveGeometry();
        }
        grabX := cursorX - view.x;
        grabY := cursorY - view.y;
      } else {
        var geo := view.geometry;
        var borderX := (view.x + geo.x) + (if Has(edges, EdgeRight) then geo.width else 0);
        var borderY := (view.y + geo.y) + (if Has(edges, EdgeBottom) then geo.height else 0);
        grabX := cursorX - borderX;
        grabY := cursorY - borderY;
        grabGeobox := Box(geo.x + view.x, geo.y + view.y, geo.width, geo.height);
        resizeEdges := edges;
      }
    }

    /** `xdg_toplevel_request_move`. */
    method RequestMove(view: View)
      requires Valid()
      modifies this`grabbedView, this`cursorMode, this`grabX, this`grabY, this`grabGeobox, this`resizeEdges
      modifies view`x, view`y, view`saved
      ensures Valid()
      ensures pointerFocus != Some(view.surface) ==> unchanged(this) && unchanged(view)
      ensures pointerFocus == Some(view.surface) ==>
        grabbedView == view && cursorMode == Move &&
        MoveGrab(view.Geo(), grabX, grabY) == BeginMove(old(view.Geo()), cursorX, cursorY) &&
        grabGeobox == old(grabGeobox) && resizeEdges == old(resizeEdges)
    {
      BeginInteractive(view, Move, EdgeNone);
    }

    /** `xdg_toplevel_request_resize`. */
    method RequestResize(view: View, edges: Edges)
      requires Valid()
      modifies this`grabbedView, this`cursorMode, this`grabX, this`grabY, this`grabGeobox, this`resizeEdges
      modifies view`x, view`y, view`saved
      ensures Valid()
      ensures pointerFocus != Some(view.surface) ==> unchanged(this) && unchanged(view)
      ensures pointerFocus == Some(view.surface) ==>
        grabbedView == view && cursorMode == Resize && view.Geo() == old(view.Geo()) &&
        ResizeGrab(grabX, grabY, grabGeobox, resizeEdges) == BeginResize(old(view.Geo()), cursorX, cursorY, edges)
    {
      BeginInteractive(view, Resize, edges);
    }

    /** `xdg_toplevel_request_maximize`: a client's maximize request toggles. */
    method RequestMaximize(view: View, output: Option<Output>)
      modifies view`x, view`y, view`saved, view`requested, view`maximized
      ensures view.Geo() == Toggle(old(view.Geo()), cursorMode, output, titlebarHeight)
    {
      ToggleMaximize(view, output);
    }

    /** The pointer-focus tail of `process_cursor_motion` for the hit `h`.
        While a button is held and the cursor is not over the view it went
        down on, the focus stays. Otherwise the focus enters a plain
        surface, is cleared over no surface, and over a decoration is
        cleared unless a button is held. */
    method UpdatePointerFocus(h: Scene.Hit<View>)
      modifies this`pointerFocus
      ensures cursorMode == Pressed && ViewOrNull(h.view) != grabbedView ==> pointerFocus == old(pointerFocus)
      ensures !(cursorMode == Pressed && ViewOrNull(h.view) != grabbedView) ==>
        (h.surface.None? ==> pointerFocus.None?) &&
        (h.surface.Some? && h.region == NoDecoration ==> pointerFocus == h.surface) &&
        (h.surface.Some? && h.region != NoDecoration ==>
          pointerFocus == if cursorMode == Pressed then old(pointerFocus) else None)
    {
      if cursorMode == Pressed && ViewOrNull(h.view) != grabbedView {
      } else if h.surface.Some? {
        if h.region == NoDecoration {
          pointerFocus := h.surface;
        } else if cursorMode != Pressed {
          pointerFocus := None;
        }
      } else {
        pointerFocus := None;
      }
    }

    /** The pass-through and pressed part of `process_cursor_motion`: the
        hit test, a title-bar drag that starts a move, and the pointer-focus
        update. */
    method PointerMotion(p: Pick)
      requires Valid() && p.Consistent()
      requires cursorMode == Passthrough || cursorMode == Pressed
      modifies this`pointerFocus, this`grabbedView, this`cursorMode
      modifies this`grabX, this`grabY, this`grabGeobox, this`resizeEdges, p.registry.Keys
      ensures Valid()
      ensures old(cursorMode) == Pressed && p.Hit().region == Titlebar ==>
        var v := p.Hit().view.value;
        cursorMode == Move && grabbedView == v && pointerFocus.None? &&
        MoveGrab(v.Geo(), grabX, grabY) == BeginMove(old(v.Geo()), cursorX, cursorY) &&
        grabGeobox == old(grabGeobox) && resizeEdges == old(resizeEdges) &&
        v.State() == old(v.State()).(geo := v.Geo()) &&
        (old(grabbedView) != v ==> unchanged(old(grabbedView))) &&
        forall w :: w in p.registry && w != v ==> unchanged(w)
      ensures old(cursorMode) == Passthrough || (old(cursorMode) == Pressed && p.Hit().region != Titlebar) ==>
        cursorMode == old(cursorMode) && grabbedView == old(grabbedView) &&
        grabX == old(grabX) && grabY == old(grabY) &&
        grabGeobox == old(grabGeobox) && resizeEdges == old(resizeEdges) &&
        (grabbedView != null ==> unchanged(grabbedView)) && unchanged(p.registry.Keys)
      ensures old(cursorMode) == Passthrough && p.Hit().surface.None? ==> pointerFocus.None?
      ensures old(cursorMode) == Passthrough && p.Hit().region != NoDecoration ==> pointerFocus.None?
      ensures old(cursorMode) == Passthrough && p.Hit().region == NoDecoration ==> pointerFocus == p.Hit().surface
      ensures old(cursorMode) == Pressed && p.Hit().region == Border ==> pointerFocus == old(pointerFocus)
      ensures old(cursorMode) == Pressed && p.Hit().region == NoDecoration ==>
        pointerFocus == if ViewOrNull(p.Hit().view) == old(grabbedView) then p.Hit().surface else old(pointerFocus)
    {
      var h := Scene.DesktopViewAt(p.graph, p.registry, p.top);
      // The other branches only choose a cursor image.
      if h.region == Titlebar && cursorMode == Pressed {
        pointerFocus := h.surface;
        BeginInteractive(h.view.value, Move, EdgeNone);
      }
      UpdatePointerFocus(h);
    }

    /** `process_cursor_motion` with the cursor at (cursorX, cursorY) and `p`
        the scene there. In move or resize mode the grabbed view follows the
        cursor and nothing else changes. Otherwise the view under the cursor
        is found: a drag on a title bar that was pressed starts a move;
        pointer focus enters a plain surface, is cleared over a decoration
        (unless a button is held) or over no surface, and while a button is
        held stays where it was when the cursor is not over the view the
        button went down on. */
    method ProcessCursorMotion(p: Pick, output: Option<Output>)
      requires Valid() && p.Consistent()
      modifies this`pointerFocus, this`grabbedView, this`cursorMode
      modifies this`grabX, this`grabY, this`grabGeobox, this`resizeEdges
      modifies grabbedView, p.registry.Keys
      ensures Valid()
      ensures old(cursorMode) == Move ==>
        unchanged(this) &&
        grabbedView.State() == old(grabbedView.State()).(geo :=
          CursorMove(old(grabbedView.Geo()), cursorX, cursorY, grabX, grabY, output, titlebarHeight))
      ensures old(cursorMode) == Resize ==>
        unchanged(this) &&
        grabbedView.State() == old(grabbedView.State()).(geo :=
          CursorResize(old(grabbedView.Geo()), cursorX, cursorY, ResizeGrab(grabX, grabY, grabGeobox, resizeEdges)))
      ensures old(cursorMode) == Move || old(cursorMode) == Resize ==>
        forall v :: v in p.registry && v != grabbedView ==> unchanged(v)
      ensures old(cursorMode) == Pressed && p.Hit().region == Titlebar ==>
        var v := p.Hit().view.value;
        cursorMode == Move && grabbedView == v && pointerFocus.None? &&
        MoveGrab(v.Geo(), grabX, grabY) == BeginMove(old(v.Geo()), cursorX, cursorY) &&
        grabGeobox == old(grabGeobox) && resizeEdges == old(resizeEdges) &&
        v.State() == old(v.State()).(geo := v.Geo()) &&
        (old(grabbedView) != v ==> unchanged(old(grabbedView))) &&
        forall w :: w in p.registry && w != v ==> unchanged(w)
      ensures old(cursorMode) == Passthrough || (old(cursorMode) == Pressed && p.Hit().region != Titlebar) ==>
        cursorMode == old(cursorMode) && grabbedView == old(grabbedView) &&
        grabX == old(grabX) && grabY == old(grabY) &&
        grabGeobox == old(grabGeobox) && resizeEdges == old(resizeEdges) &&
        (grabbedView != null ==> unchanged(grabbedView)) && unchanged(p.registry.Keys)
      ensures old(cursorMode) == Passthrough && p.Hit().surface.None? ==> pointerFocus.None?
      ensures old(cursorMode) == Passthrough && p.Hit().region != NoDecoration ==> pointerFocus.None?
      ensures old(cursorMode) == Passthrough && p.Hit().region == NoDecoration ==> pointerFocus == p.Hit().surface
      ensures old(cursorMode) == Pressed && p.Hit().region == Border ==> pointerFocus == old(pointerFocus)
      ensures old(cursorMode) == Pressed && p.Hit().region == NoDecoration ==>
        pointerFocus == if ViewOrNull(p.Hit().view) == old(grabbedView) then p.Hit().surface else old(pointerFocus)
    {
      if cursorMode == Move {
        ProcessCursorMove(output);
        return;
      } else if cursorMode == Resize {
        ProcessCursorResize();
        return;
      }
      PointerMotion(p);
    }

    /** What a release on the title bar of `view` does, the click being the
        `clicked`-th of its series. */
    method TitlebarRelease(view: View, button: bv32, clicked: int, output: Option<Output>)
      modifies view`x, view`y, view`saved, view`requested, view`maximized, view`closeRequested
      ensures var action := ReleaseAction(Titlebar, button, clicked);
        view.Geo() == (if action.ToggleMaximize? then Toggle(old(view.Geo()), cursorMode, output, titlebarHeight)
                       else old(view.Geo())) &&
        view.closeRequested == (old(view.closeRequested) || action.Close?)
      ensures view.State() == old(view.State()).(geo := view.Geo(), closeRequested := view.closeRequested)
    {
      if button == ButtonLeft && clicked == 2 {
        ToggleMaximize(view, output);
      } else if button == ButtonMiddle {
        view.closeRequested := true;
      }
    }

    /** The release branch of `server_cursor_button`, with `p` the scene at
        the cursor and `after` the scene there once the release has been
        acted on: any grab ends (the grabbed view stays recorded), the click
        is counted, the second left click of a series on a title bar toggles
        maximize and a middle click there requests a close, and then the
        motion is replayed. */
    method ButtonReleased(p: Pick, after: Pick, output: Option<Output>, button: bv32, time: Millis)
      requires Valid() && p.Consistent() && after.Consistent()
      modifies this`pointerFocus, this`cursorMode, clicks, p.registry.Keys
      ensures Valid()
      ensures clicks.State() == Click(old(clicks.State()), button, time)
      ensures cursorMode == Passthrough
      ensures pointerFocus == if after.Hit().region == NoDecoration then after.Hit().surface else None
      ensures p.Hit().view.Some? ==>
        var v := p.Hit().view.value;
        var action := ReleaseAction(p.Hit().region, button, clicks.clicked);
        v.Geo() == (if action.ToggleMaximize? then Toggle(old(v.Geo()), Passthrough, output, titlebarHeight)
                    else old(v.Geo())) &&
        v.closeRequested == (old(v.closeRequested) || action.Close?) &&
        v.State() == old(v.State()).(geo := v.Geo(), closeRequested := v.closeRequested)
      ensures forall v :: v in p.registry && Some(v) != p.Hit().view ==> unchanged(v)
    {
      var h := Scene.DesktopViewAt(p.graph, p.registry, p.top);
      cursorMode := Passthrough;
      var clicked := clicks.NumberOfClicks(button, time);
      if h.region == Titlebar {
        TitlebarRelease(h.view.value, button, clicked, output);
      }
      // The motion replay: in pass-through mode `process_cursor_motion` is
      // the hit test followed by the pointer-focus update.
      var replayed := Scene.DesktopViewAt(after.graph, after.registry, after.top);
      UpdatePointerFocus(replayed);
    }

    /** A press on a view's border: the view's surface takes pointer focus
        and a resize begins by the edges the cursor is near. */
    method PressOnBorder(view: View)
      requires Valid() && grabbedView == view
      modifies this`pointerFocus, this`grabbedView, this`cursorMode
      modifies this`grabX, this`grabY, this`grabGeobox, this`resizeEdges, view`x, view`y, view`saved
      ensures Valid()
      ensures grabbedView == view && cursorMode == Resize && pointerFocus == Some(view.surface)
      ensures view.Geo() == old(view.Geo())
      ensures ResizeGrab(grabX, grabY, grabGeobox, resizeEdges) ==
        BeginResize(old(view.Geo()), cursorX, cursorY,
                    FindResizeEdge(cursorX, cursorY, old(view.x), old(view.y),
                                   view.surfaceSize.width, view.surfaceSize.height))
    {
      pointerFocus := Some(view.surface);
      var edges := FindResizeEdge(cursorX, cursorY, view.x, view.y,
                                  view.surfaceSize.width, view.surfaceSize.height);
      BeginInteractive(view, Resize, edges);
    }

    /** A press on a view: the view is focused and grabbed; on its border a
        resize begins, anywhere else on it the pressed mode. */
    method PressOnView(view: View, region: Region)
      requires Valid() && view in views
      modifies this`views, this`keyboardFocus, this`pointerFocus, this`grabbedView, this`cursorMode
      modifies this`grabX, this`grabY, this`grabGeobox, this`resizeEdges, views
      ensures Valid()
      ensures multiset(views) == multiset(old(views))
      ensures grabbedView == view && keyboardFocus == Some(view.surface) &&
        views == (if old(keyboardFocus) == Some(view.surface) then old(views) else MoveToFront<View>(old(views), view))
      ensures region == Border ==>
        cursorMode == Resize && pointerFocus == Some(view.surface) && view.Geo() == old(view.Geo()) &&
        ResizeGrab(grabX, grabY, grabGeobox, resizeEdges) ==
          BeginResize(old(view.Geo()), cursorX, cursorY,
                      FindResizeEdge(cursorX, cursorY, old(view.x), old(view.y),
                                     view.surfaceSize.width, view.surfaceSize.height))
      ensures region != Border ==>
        cursorMode == Pressed && pointerFocus == old(pointerFocus) &&
        grabX == old(grabX) && grabY == old(grabY) &&
        grabGeobox == old(grabGeobox) && resizeEdges == old(resizeEdges)
      ensures old(keyboardFocus) == Some(view.surface) ==> forall w :: w in old(views) ==> unchanged(w)
      ensures old(keyboardFocus) != Some(view.surface) ==>
        var prev := FocusedView(old(views), old(keyboardFocus));
        view.State() == Activate(old(view.State()), view.hasDecoration) &&
        (prev != null && prev != view ==> prev.State() == Deactivate(old(prev.State()), prev.hasDecoration)) &&
        forall w :: w in old(views) && w != view && w != prev ==> unchanged(w)
    {
      FocusView(view, Some(view.surface));
      grabbedView := view;
      if region == Border {
        PressOnBorder(view);
      } else {
        cursorMode := Pressed;
      }
    }

    /** The press branch of `server_cursor_button`, with `p` the scene at the
        cursor: the view under the cursor is focused and grabbed; on its
        border a resize starts by the edges the cursor is near, anywhere
        else on it the pressed mode begins, and only a resize records a new
        grab. With no view nothing changes: not the list, the focus, the
        mode, the grabbed view nor the grab offset, box and edges. */
    method ButtonPressed(p: Pick)
      requires Valid() && p.Consistent()
      requires forall v :: v in p.registry ==> v in views
      modifies this`views, this`keyboardFocus, this`pointerFocus, this`grabbedView, this`cursorMode
      modifies this`grabX, this`grabY, this`grabGeobox, this`resizeEdges, views
      ensures Valid()
      ensures multiset(views) == multiset(old(views))
      ensures p.Hit().view.None? ==>
        views == old(views) && keyboardFocus == old(keyboardFocus) && pointerFocus == old(pointerFocus) &&
        cursorMode == old(cursorMode) && grabbedView == old(grabbedView) &&
        grabX == old(grabX) && grabY == old(grabY) &&
        grabGeobox == old(grabGeobox) && resizeEdges == old(resizeEdges)
      ensures p.Hit().view.Some? ==>
        var v := p.Hit().view.value;
        grabbedView == v && keyboardFocus == Some(v.surface) &&
        views == (if old(keyboardFocus) == Some(v.surface) then old(views) else MoveToFront<View>(old(views), v))
      ensures p.Hit().region == Border ==>
        var v := p.Hit().view.value;
        cursorMode == Resize && pointerFocus == Some(v.surface) && v.Geo() == old(v.Geo()) &&
        ResizeGrab(grabX, grabY, grabGeobox, resizeEdges) ==
          BeginResize(old(v.Geo()), cursorX, cursorY,
                      FindResizeEdge(cursorX, cursorY, old(v.x), old(v.y), v.surfaceSize.width, v.surfaceSize.height))
      ensures p.Hit().view.Some? && p.Hit().region != Border ==>
        cursorMode == Pressed && pointerFocus == old(pointerFocus) &&
        grabX == old(grabX) && grabY == old(grabY) &&
        grabGeobox == old(grabGeobox) && resizeEdges == old(resizeEdges)
      ensures p.Hit().view.None? || old(keyboardFocus) == Some(p.Hit().view.value.surface) ==>
        forall w :: w in old(views) ==> unchanged(w)
      ensures p.Hit().view.Some? && old(keyboardFocus) != Some(p.Hit().view.value.surface) ==>
        var v := p.Hit().view.value;
        var prev := FocusedView(old(views), old(keyboardFocus));
        v.State() == Activate(old(v.State()), v.hasDecoration) &&
        (prev != null && prev != v ==> prev.State() == Deactivate(old(prev.State()), prev.hasDecoration)) &&
        forall w :: w in old(views) && w != v && w != prev ==> unchanged(w)
    {
      var h := Scene.DesktopViewAt(p.graph, p.registry, p.top);
      if h.view.None? {
        FocusView(null, h.surface);
      } else {
        // A hit on a view reports that view's own surface.
        PressOnView(h.view.value, h.region);
      }
    }

    /** The F1 binding: the view at the back of the list is focused, which
        rotates the list by one unless that view already has keyboard focus. */
    method FocusLast()
      requires Valid() && |views| >= 1
      modifies this`views, this`keyboardFocus, views
      ensures Valid()
      ensures multiset(views) == multiset(old(views))
      ensures old(keyboardFocus) != Some(old(views)[|old(views)| - 1].surface) ==>
        var last := old(views)[|old(views)| - 1];
        var prev := FocusedView(old(views), old(keyboardFocus));
        views == [last] + old(views)[..|old(views)| - 1] && keyboardFocus == Some(last.surface) &&
        last.State() == Activate(old(last.State()), last.hasDecoration) &&
        (prev != null && prev != last ==> prev.State() == Deactivate(old(prev.State()), prev.hasDecoration)) &&
        forall w :: w in old(views) && w != last && w != prev ==> unchanged(w)
      ensures old(keyboardFocus) == Some(old(views)[|old(views)| - 1].surface) ==>
        views == old(views) && keyboardFocus == old(keyboardFocus) && forall w :: w in old(views) ==> unchanged(w)
    {
      var last := views[|views| - 1];
      TailToFrontRotates(views);
      FocusView(last, Some(last.surface));
    }

    /** `handle_keybinding` (with Alt held): Escape stops the event loop; F1
        focuses the view at the back of the list when there are at least two,
        which rotates the list by one unless that view already has keyboard
        focus; any other keysym is not a binding. */
    method HandleKeybinding(sym: bv32) returns (handled: bool)
      requires Valid()
      modifies this`running, this`views, this`keyboardFocus, views
      ensures Valid()
      ensures handled == IsBinding(sym)
      ensures running == (old(running) && sym != KeyEscape)
      ensures multiset(views) == multiset(old(views))
      ensures sym == KeyF1 && |old(views)| >= 2 && old(keyboardFocus) != Some(old(views)[|old(views)| - 1].surface) ==>
        var last := old(views)[|old(views)| - 1];
        var prev := FocusedView(old(views), old(keyboardFocus));
        views == [last] + old(views)[..|old(views)| - 1] && keyboardFocus == Some(last.surface) &&
        last.State() == Activate(old(last.State()), last.hasDecoration) &&
        (prev != null && prev != last ==> prev.State() == Deactivate(old(prev.State()), prev.hasDecoration)) &&
        forall w :: w in old(views) && w != last && w != prev ==> unchanged(w)
      ensures !(sym == KeyF1 && |old(views)| >= 2 && old(keyboardFocus) != Some(old(views)[|old(views)| - 1].surface)) ==>
        views == old(views) && keyboardFocus == old(keyboardFocus) && forall w :: w in old(views) ==> unchanged(w)
    {
      if sym == KeyEscape {
        running := false;
      } else if sym == KeyF1 {
        if |views| >= 2 {
          FocusLast();
        }
      } else {
        return false;
      }
      handled := true;
    }

    /** `keyboard_handle_key` for a key producing the keysyms `syms`: with
        Alt held on a press every keysym is tried as a binding in turn, and
        the key is forwarded to the client unless the last keysym was one. */
    method KeyboardHandleKey(syms: seq<bv32>, alt: bool, pressed: bool) returns (forwarded: bool)
      requires Valid()
      modifies this`running, this`views, this`keyboardFocus, views
      ensures Valid()
      ensures forwarded == !KeyHandled(syms, alt, pressed)
      ensures running == (old(running) && !(alt && pressed && KeyEscape in syms))
      ensures multiset(views) == multiset(old(views))
      ensures !(alt && pressed) ==>
        views == old(views) && keyboardFocus == old(keyboardFocus) && forall w :: w in old(views) ==> unchanged(w)
      ensures alt && pressed && syms == [KeyF1] && |old(views)| >= 2 &&
              old(keyboardFocus) != Some(old(views)[|old(views)| - 1].surface) ==>
        var last := old(views)[|old(views)| - 1];
        var prev := FocusedView(old(views), old(keyboardFocus));
        views == [last] + old(views)[..|old(views)| - 1] && keyboardFocus == Some(last.surface) &&
        last.State() == Activate(old(last.State()), last.hasDecoration) &&
        (prev != null && prev != last ==> prev.State() == Deactivate(old(prev.State()), prev.hasDecoration)) &&
        forall w :: w in old(views) && w != last && w != prev ==> unchanged(w)
    {
      var handled := false;
      if alt && pressed {
        for i := 0 to |syms|
          invariant Valid()
          invariant handled == (i > 0 && IsBinding(syms[i - 1]))
          invariant running == (old(running) && KeyEscape !in syms[..i])
          invariant multiset(views) == multiset(old(views))
          invariant forall k :: 0 <= k < |views| ==> views[k] in old(views)
          invariant i == 0 ==>
            views == old(views) && keyboardFocus == old(keyboardFocus) && forall w :: w in old(views) ==> unchanged(w)
          invariant syms == [KeyF1] && i == 1 && |old(views)| >= 2 &&
                    old(keyboardFocus) != Some(old(views)[|old(views)| - 1].surface) ==>
            var last := old(views)[|old(views)| - 1];
            var prev := FocusedView(old(views), old(keyboardFocus));
            views == [last] + old(views)[..|old(views)| - 1] && keyboardFocus == Some(last.surface) &&
            last.State() == Activate(old(last.State()), last.hasDecoration) &&
            (prev != null && prev != last ==> prev.State() == Deactivate(old(prev.State()), prev.hasDecoration)) &&
            forall w :: w in old(views) && w != last && w != prev ==> unchanged(w)
        {
          assert syms[..i + 1] == syms[..i] + [syms[i]];
          handled := HandleKeybinding(syms[i]);
        }
        assert syms[..|syms|] == syms;
      }
      forwarded := !handled;
    }

    /** `position_view_centered`: the view is centred in its parent (a
        child window) or in the output under the cursor, unless that area
        has zero width. */
    method PlaceCentered(view: View, parent: Option<Box>, output: Output)
      modifies view`x, view`y
      ensures var c := Centered(MainSize(parent, output), view.geometry);
        (c.Some? ==> view.x == c.value.0 && view.y == c.value.1) &&
        (c.None? ==> view.x == old(view.x) && view.y == old(view.y))
      ensures view.State() == old(view.State()).(geo := old(view.Geo()).(x := view.x, y := view.y))
    {
      var main := MainSize(parent, output);
      if main.width != 0 {
        view.x := Half(main.width) - Half(view.geometry.width);
        view.y := Half(main.height) - Half(view.geometry.height);
      }
    }

    /** `wl_list_insert` at the head of the view list. */
    method LinkAtFront(view: View)
      requires Valid() && view !in views
      modifies this`views
      ensures Valid() && views == [view] + old(views)
      ensures MoveToFront<View>(views, view) == views
      ensures forall w :: w in old(views) ==> w in views
    {
      PrependDistinct(views, view);
      views := [view] + views;
      MoveFrontToFront(views);
    }

    /** The list and focus half of `xdg_toplevel_map`: the view is inserted
        at the front of the list and focused. */
    method LinkAndFocus(view: View)
      requires Valid() && view !in views
      modifies this`views, this`keyboardFocus, views, view
      ensures Valid()
      ensures views == [view] + old(views)
      ensures keyboardFocus == Some(view.surface)
      ensures old(keyboardFocus) == Some(view.surface) ==>
        unchanged(view) && forall w :: w in old(views) ==> unchanged(w)
      ensures old(keyboardFocus) != Some(view.surface) ==>
        var prev := FocusedView(old(views), old(keyboardFocus));
        view.State() == Activate(old(view.State()), view.hasDecoration) &&
        (prev != null ==> prev.State() == Deactivate(old(prev.State()), prev.hasDecoration)) &&
        forall w :: w in old(views) && w != prev ==> unchanged(w)
    {
      if keyboardFocus.Some? && keyboardFocus.value != view.surface {
        ViewForSkips(view, views, keyboardFocus.value);
      }
      LinkAtFront(view);
      FocusView(view, Some(view.surface));
    }

    /** `xdg_toplevel_map`: the view is centred, inserted at the front of
        the list and focused; the view that had keyboard focus is
        deactivated, and no other view changes. */
    method MapView(view: View, parent: Option<Box>, output: Output)
      requires Valid() && view !in views
      modifies this`views, this`keyboardFocus, views, view
      ensures Valid()
      ensures views == [view] + old(views)
      ensures keyboardFocus == Some(view.surface)
      ensures var c := Centered(MainSize(parent, output), old(view.geometry));
        (c.Some? ==> view.x == c.value.0 && view.y == c.value.1) &&
        (c.None? ==> view.x == old(view.x) && view.y == old(view.y))
      ensures old(keyboardFocus) == Some(view.surface) ==>
        view.State() == old(view.State()).(geo := old(view.Geo()).(x := view.x, y := view.y)) &&
        forall w :: w in old(views) ==> unchanged(w)
      ensures old(keyboardFocus) != Some(view.surface) ==>
        var prev := FocusedView(old(views), old(keyboardFocus));
        view.State() == Activate(old(view.State()).(geo := old(view.Geo()).(x := view.x, y := view.y)), view.hasDecoration) &&
        (prev != null ==> prev.State() == Deactivate(old(prev.State()), prev.hasDecoration)) &&
        forall w :: w in old(views) && w != prev ==> unchanged(w)
    {
      PlaceCentered(view, parent, output);
      assert forall w :: w in old(views) ==> w != view && unchanged(w);
      LinkAndFocus(view);
    }

    /** `xdg_toplevel_unmap`: the view is unlinked from the list. Focus and
        the grabbed view are left as they are. */
    method UnmapView(view: View)
      requires Valid() && view in views
      modifies this`views
      ensures Valid()
      ensures views == Remove(old(views), view)
      ensures |views| == |old(views)| - 1 && view !in views
    {
      DistinctOnce(views, view);
      RemoveLength(views, view);
      RemoveDistinct(views, view);
      views := Remove(views, view);
    }

    /** `view_title_update` with the title measured at `measured`: the
        title is laid out for the view's surface width and the title-bar
        height follows the text height. */
    method TitleUpdate(view: View, measured: Size)
      modifies this`titlebarHeight, view`title
      ensures view.title == Layout(measured, view.surfaceSize.width)
      ensures titlebarHeight == TitlebarHeight(measured)
    {
      titlebarHeight := measured.height + TitlebarPadding * 2;
      var width := measured.width;
      var pendingWidth := view.surfaceSize.width - BorderSize;
      if pendingWidth > 0 && width > pendingWidth {
        width := pendingWidth;
      }
      view.title := TitleWidths(measured.width, width);
    }

    /** `xdg_toplevel_commit` for a pending geometry size: the title is
        re-rendered when it no longer fits, and the decoration rect of a
        decorated view is resized to frame the pending size when the guard
        as written fires (see module Title for what that guard misses). */
    method Commit(view: View, pendingWidth: int, pendingHeight: int, measured: Size)
      modifies this`titlebarHeight, view`title, view`decorationSize
      ensures NeedsRegenerate(pendingWidth, old(view.title)) ==>
        view.title == Layout(measured, view.surfaceSize.width) && titlebarHeight == TitlebarHeight(measured)
      ensures !NeedsRegenerate(pendingWidth, old(view.title)) ==>
        view.title == old(view.title) && titlebarHeight == old(titlebarHeight)
      ensures view.hasDecoration &&
              DecorationGuardAsWritten(pendingWidth, pendingHeight, old(view.decorationSize), titlebarHeight) ==>
        view.decorationSize == DecorationSize(pendingWidth, pendingHeight, titlebarHeight)
      ensures !(view.hasDecoration &&
                DecorationGuardAsWritten(pendingWidth, pendingHeight, old(view.decorationSize), titlebarHeight)) ==>
        view.decorationSize == old(view.decorationSize)
    {
      if NeedsRegenerate(pendingWidth, view.title) {
        TitleUpdate(view, measured);
      }
      if view.hasDecoration && DecorationGuardAsWritten(pendingWidth, pendingHeight, view.decorationSize, titlebarHeight) {
        view.decorationSize := DecorationSize(pendingWidth, pendingHeight, titlebarHeight);
      }
    }
  }
}
