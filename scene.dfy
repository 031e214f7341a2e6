/** Decoration hit-testing over the scene graph. The scene graph is the
    toolkit's; here it is a finite map from node identifiers to the node's
    parent, kind and tag (the view a view's root node is tagged with). The
    toolkit's "topmost node at a layout point" lookup is an input. */
module Scene {
  import opened Config

  type NodeId = nat

  /** The kinds of scene node the hit test distinguishes. */
  datatype NodeKind = Tree | SurfaceNode | Rect(width: int, height: int) | Buffer

  datatype SceneNode<T> = SceneNode(parent: Option<NodeId>, kind: NodeKind, tag: Option<T>)

  type Graph<T> = map<NodeId, SceneNode<T>>

  /** Every parent is a node of the graph created before its child: nodes are
      only ever created under an existing parent and never re-parented, so
      identifiers handed out in creation order decrease towards the root. */
  predicate WellFormed<T>(g: Graph<T>) {
    forall n :: n in g && g[n].parent.Some? ==> g[n].parent.value in g && g[n].parent.value < n
  }

  /** Every node from `n` up to, but not including, its ancestor-or-self `a`
      is untagged. */
  predicate UntaggedPath<T>(g: Graph<T>, n: NodeId, a: NodeId)
    requires WellFormed(g) && n in g
    decreases n
  {
    n == a ||
    (g[n].tag.None? && g[n].parent.Some? && UntaggedPath(g, g[n].parent.value, a))
  }

  /** No node from `n` up to the root is tagged. */
  predicate UntaggedToRoot<T>(g: Graph<T>, n: NodeId)
    requires WellFormed(g) && n in g
    decreases n
  {
    g[n].tag.None? && (g[n].parent.Some? ==> UntaggedToRoot(g, g[n].parent.value))
  }

  /** The nearest tagged ancestor-or-self of `n`: the root node of the view
      that `n` belongs to, or `None` when no node up to the root is tagged. */
  function Owner<T>(g: Graph<T>, n: NodeId): (r: Option<NodeId>)
    requires WellFormed(g) && n in g
    ensures r.Some? ==> r.value in g && g[r.value].tag.Some? && r.value <= n && UntaggedPath(g, n, r.value)
    ensures r.None? <==> UntaggedToRoot(g, n)
    decreases n
  {
    if g[n].tag.Some? then Some(n)
    else
      match g[n].parent
      case None => None
      case Some(p) => Owner(g, p)
  }

  /** The owner is the only tagged node reachable from `n` along an
      untagged path. */
  lemma {:induction false} OwnerIsNearest<T>(g: Graph<T>, n: NodeId, a: NodeId)
    requires WellFormed(g) && n in g
    requires UntaggedPath(g, n, a) && a in g && g[a].tag.Some?
    ensures Owner(g, n) == Some(a)
    decreases n
  {
    if n != a {
      OwnerIsNearest(g, g[n].parent.value, a);
    }
  }

  /** The parent walk of `desktop_view_at`: follow parents from `n` while the
      node is untagged, stopping at the first tagged node or past the root. */
  method FindOwner<T>(g: Graph<T>, n: NodeId) returns (r: Option<NodeId>)
    requires WellFormed(g) && n in g
    ensures r == Owner(g, n)
  {
    var cur: Option<NodeId> := Some(n);
    while cur.Some? && g[cur.value].tag.None?
      invariant cur.Some? ==> cur.value in g && Owner(g, cur.value) == Owner(g, n)
      invariant cur.None? ==> Owner(g, n).None?
      decreases if cur.Some? then cur.value + 1 else 0
    {
      cur := g[cur.value].parent;
    }
    r := cur;
  }

  /** The scene nodes a view owns: its surface, its decoration rect (none for
      a child view) and its title buffer. */
  datatype ViewDecor = ViewDecor(surface: SurfaceId, decoration: Option<NodeId>, title: Option<NodeId>)

  /** Every tag names a view whose nodes are known. */
  predicate Registered<T>(g: Graph<T>, reg: map<T, ViewDecor>) {
    forall n :: n in g && g[n].tag.Some? ==> g[n].tag.value in reg
  }

  /** The topmost node at the cursor and the cursor's coordinates local to it. */
  datatype TopHit = TopHit(node: NodeId, sx: int, sy: int)

  /** What `desktop_view_at` reports: the view, the view's surface and the
      decoration region. */
  datatype Hit<T> = Hit(view: Option<T>, surface: Option<SurfaceId>, region: Region)

  /** A local point within one border of an edge of a `w` by `h` rect,
      the boundary itself included. */
  predicate OnBorder(sx: int, sy: int, w: int, h: int) {
    sx <= BorderSize || sy <= BorderSize || sx >= w - BorderSize || sy >= h - BorderSize
  }

  predicate Consistent<T>(g: Graph<T>, reg: map<T, ViewDecor>, top: Option<TopHit>) {
    WellFormed(g) && Registered(g, reg) && (top.Some? ==> top.value.node in g)
  }

  /** The view tagged on the owner of the hit node, when it has one. */
  function OwningView<T>(g: Graph<T>, top: TopHit): Option<T>
    requires WellFormed(g) && top.node in g
  {
    match Owner(g, top.node)
    case None => None
    case Some(o) => g[o].tag
  }

  /** `desktop_view_at`. A hit on the owning view's decoration rect is a
      border hit within one border of its edges and a title-bar hit
      elsewhere; a hit on the view's own title buffer is a title-bar hit; a
      rect or buffer of any other view yields no view; any other node is the
      view's content. With no node, or no tagged node above the hit, there is
      no view. */
  function ClassifyHit<T>(g: Graph<T>, reg: map<T, ViewDecor>, top: Option<TopHit>): (h: Hit<T>)
    requires Consistent(g, reg, top)
    ensures h.region != NoDecoration ==> h.view.Some?
    ensures h.view.Some? ==> top.Some? && h.view.value in reg
    ensures h.view.Some? ==> h.view == OwningView(g, top.value) && h.surface == Some(reg[h.view.value].surface)
    ensures top.None? || OwningView(g, top.value).None? ==> h == Hit(None, None, NoDecoration)
    ensures top.Some? && OwningView(g, top.value).Some? ==>
      var v := OwningView(g, top.value).value;
      var t := top.value;
      h.surface == Some(reg[v].surface) &&
      match g[t.node].kind
      case Rect(w, rh) =>
        if reg[v].decoration == Some(t.node) then
          h.view == Some(v) && (h.region == Border <==> OnBorder(t.sx, t.sy, w, rh)) &&
          (h.region == Titlebar <==> !OnBorder(t.sx, t.sy, w, rh))
        else h.view.None? && h.region == NoDecoration
      case Buffer =>
        if reg[v].title == Some(t.node) then h.view == Some(v) && h.region == Titlebar
        else h.view.None? && h.region == NoDecoration
      case _ => h.view == Some(v) && h.region == NoDecoration
  {
    match top
    case None => Hit(None, None, NoDecoration)
    case Some(t) =>
      match Owner(g, t.node)
      case None => Hit(None, None, NoDecoration)
      case Some(o) =>
        var v := g[o].tag.value;
        var d := reg[v];
        match g[t.node].kind
        case Rect(w, rh) =>
          if d.decoration != Some(t.node) then Hit(None, Some(d.surface), NoDecoration)
          else if OnBorder(t.sx, t.sy, w, rh) then Hit(Some(v), Some(d.surface), Border)
          else Hit(Some(v), Some(d.surface), Titlebar)
        case Buffer =>
          if d.title != Some(t.node) then Hit(None, Some(d.surface), NoDecoration)
          else Hit(Some(v), Some(d.surface), Titlebar)
        case _ => Hit(Some(v), Some(d.surface), NoDecoration)
  }

  /** `desktop_view_at` with its parent walk. */
  method DesktopViewAt<T>(g: Graph<T>, reg: map<T, ViewDecor>, top: Option<TopHit>) returns (h: Hit<T>)
    requires Consistent(g, reg, top)
    ensures h == ClassifyHit(g, reg, top)
  {
    if top.None? {
      return Hit(None, None, NoDecoration);
    }
    var t := top.value;
    var owner := FindOwner(g, t.node);
    if owner.None? {
      return Hit(None, None, NoDecoration);
    }
    var v := g[owner.value].tag.value;
    var d := reg[v];
    var surface := Some(d.surface);
    match g[t.node].kind {
      case Rect(w, rh) =>
        if d.decoration != Some(t.node) {
          return Hit(None, surface, NoDecoration);
        }
        if t.sx <= BorderSize || t.sy <= BorderSize || t.sx >= w - BorderSize || t.sy >= rh - BorderSize {
          h := Hit(Some(v), surface, Border);
        } else {
          h := Hit(Some(v), surface, Titlebar);
        }
      case Buffer =>
        if d.title != Some(t.node) {
          return Hit(None, surface, NoDecoration);
        }
        h := Hit(Some(v), surface, Titlebar);
      case _ =>
        h := Hit(Some(v), surface, NoDecoration);
    }
  }

  /** On a 406 by 326 decoration rect, a point exactly one border from the
      left edge is a border hit and the point one pixel further in is a
      title-bar hit. */
  lemma BorderBoundaryExample()
    ensures OnBorder(3, 10, 406, 326)
    ensures !OnBorder(4, 10, 406, 326)
    ensures OnBorder(403, 10, 406, 326) && !OnBorder(402, 10, 406, 326)
    ensures OnBorder(100, 323, 406, 326) && !OnBorder(100, 322, 406, 326)
  {
  }
}
