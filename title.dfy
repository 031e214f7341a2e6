/** Title-bar sizing: how wide the title bitmap is rendered, how tall the
    title bar is, when a commit re-renders the title, and how the decoration
    rect follows the surface size. Text measurement is an input: the natural
    width and height the font library reports for the title. */
module Title {
  import opened Config
  import opened Geometry

  /** The natural width of the title text and the width it is rendered at. */
  datatype TitleWidths = TitleWidths(originalWidth: int, currentWidth: int)

  /** The sizing part of `create_text_buffer`: the rendered width is the
      natural width, shrunk to the surface width less one border when that
      is positive and smaller. */
  function Layout(measured: Size, surfaceWidth: int): (r: TitleWidths)
    ensures r.originalWidth == measured.width
    ensures r.currentWidth <= r.originalWidth
    ensures surfaceWidth - BorderSize > 0 ==> r.currentWidth <= surfaceWidth - BorderSize
    ensures r.currentWidth == r.originalWidth || r.currentWidth == surfaceWidth - BorderSize
    ensures surfaceWidth - BorderSize <= 0 ==> r.currentWidth == r.originalWidth
  {
    var pending := surfaceWidth - BorderSize;
    var width := if pending > 0 && measured.width > pending then pending else measured.width;
    TitleWidths(measured.width, width)
  }

  /** The title bar's height: the text height plus padding above and below. */
  function TitlebarHeight(measured: Size): (h: int)
    ensures h - measured.height == 2 * TitlebarPadding
  {
    measured.height + TitlebarPadding * 2
  }

  /** The re-render test of `xdg_toplevel_commit` for a pending geometry
      width: the rendered title is wider than the window, or it was shrunk
      and no longer matches the width less one border. */
  predicate NeedsRegenerate(pendingWidth: int, t: TitleWidths) {
    pendingWidth < t.currentWidth ||
    (t.currentWidth != t.originalWidth && t.currentWidth != pendingWidth - BorderSize)
  }

  /** Once a title has been laid out for a window more than a border wide, a
      commit at a new width re-renders it exactly when the new width is
      smaller than the rendered title, or when the title had to be shrunk and
      the width changed: an unshrunk title that still fits is kept, a shrunk
      one follows every width change, and an unchanged width never re-renders. */
  lemma RegenerateIff(measured: Size, width: int, pendingWidth: int)
    requires width > BorderSize
    ensures var t := Layout(measured, width);
      NeedsRegenerate(pendingWidth, t) <==>
        pendingWidth < t.currentWidth || (t.currentWidth != t.originalWidth && pendingWidth != width)
    ensures !NeedsRegenerate(width, Layout(measured, width))
  {
    var t := Layout(measured, width);
    if t.currentWidth != t.originalWidth {
      assert t.currentWidth == width - BorderSize;
    }
  }

  /** When the commit's geometry width is narrower than the surface width a
      shrunk title was laid out at (a client that draws its own shadow, say),
      the title is re-rendered on every commit. */
  lemma ShrunkTitleRegeneratesWhenNarrower(measured: Size, width: int, pendingWidth: int)
    requires width > BorderSize && measured.width > width - BorderSize
    requires pendingWidth < width
    ensures NeedsRegenerate(pendingWidth, Layout(measured, width))
  {
    var t := Layout(measured, width);
    assert t.currentWidth == width - BorderSize;
  }

  /** The size the decoration rect takes for a pending surface size: the
      outer frame of the content, as `Geometry.Frame` describes it. */
  function DecorationSize(pendingWidth: int, pendingHeight: int, th: int): (s: Size)
    ensures Frame(Box(0, 0, pendingWidth, pendingHeight), th) ==
      Box(-BorderSize, -(th + BorderSize), s.width, s.height)
  {
    Size(pendingWidth + BorderSize * 2, pendingHeight + th + BorderSize * 2)
  }

  /** The resize guard of `xdg_toplevel_commit` as written: it compares the
      pending width with the rect's outer width and the pending height with
      the rect's height less the title bar and only one border. */
  predicate DecorationGuardAsWritten(pendingWidth: int, pendingHeight: int, deco: Size, th: int) {
    pendingWidth != deco.width || pendingHeight != deco.height - th - BorderSize
  }

  /** As written, the guard fires again on every commit after the rect has
      been sized for that very pending size. */
  lemma GuardAsWrittenAlwaysFires(pendingWidth: int, pendingHeight: int, th: int)
    ensures DecorationGuardAsWritten(pendingWidth, pendingHeight,
                                     DecorationSize(pendingWidth, pendingHeight, th), th)
  {
  }

  /** As written, the guard fires on every pending size except the one that
      is exactly two borders wider and one border taller than the size the
      rect was sized for. */
  lemma GuardAsWrittenIff(w0: int, h0: int, w1: int, h1: int, th: int)
    ensures DecorationGuardAsWritten(w1, h1, DecorationSize(w0, h0, th), th) <==>
      (w1, h1) != (w0 + 2 * BorderSize, h0 + BorderSize)
  {
    if (w1, h1) != (w0 + 2 * BorderSize, h0 + BorderSize) {
      assert w1 != w0 + 2 * BorderSize || h1 != h0 + BorderSize;
    }
  }

  /** As written, the guard misses a content size that grows by two borders
      in width and one in height: the rect keeps framing the old size, so
      the border and title bar no longer fit the content. */
  lemma GuardAsWrittenMissesGrowth(w0: int, h0: int, th: int)
    ensures !DecorationGuardAsWritten(w0 + 2 * BorderSize, h0 + BorderSize, DecorationSize(w0, h0, th), th)
    ensures DecorationSize(w0, h0, th) != DecorationSize(w0 + 2 * BorderSize, h0 + BorderSize, th)
  {
  }

  /** With a 20-pixel title bar, a rect sized 406 by 326 for 400 by 300
      content is sized again for 400 by 300, and is not resized for 406 by
      303. */
  lemma GuardAsWrittenExample()
    ensures DecorationSize(400, 300, 20) == Size(406, 326)
    ensures DecorationGuardAsWritten(400, 300, Size(406, 326), 20)
    ensures !DecorationGuardAsWritten(406, 303, Size(406, 326), 20)
  {
  }

  /** The guard as intended: the rect's size is not the one the pending size
      calls for. */
  predicate DecorationGuard(pendingWidth: int, pendingHeight: int, deco: Size, th: int) {
    deco != DecorationSize(pendingWidth, pendingHeight, th)
  }

  /** The intended guard fires on a commit exactly when the pending size
      differs from the one the rect was last sized for. */
  lemma GuardFiresExactlyOnChange(w0: int, h0: int, w1: int, h1: int, th: int)
    ensures DecorationGuard(w1, h1, DecorationSize(w0, h0, th), th) <==> (w1, h1) != (w0, h0)
  {
    if (w1, h1) != (w0, h0) {
      assert DecorationSize(w0, h0, th) != DecorationSize(w1, h1, th);
    }
  }
}
