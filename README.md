# tinywl window policy, modelled in Dafny

A model of the window-policy core of `tinywl.c`, a small Wayland compositor
built on wlroots, with proofs of what that policy promises. The core covers:

- the maximize/restore engine, including snapping to an output edge while a
  window is dragged;
- interactive move and resize (the grab state, the resize-edge bitmask and
  the clamped resize box);
- decoration hit-testing over the scene graph (border, title bar or client
  content);
- the pointer-mode state machine (pass-through, pressed, move, resize) driven
  by button presses, releases and motion;
- the double-click counter on the 32-bit event clock;
- the title-bar sizing and the decoration resize on commit;
- keyboard focus and the front-to-back view list, with Alt+Escape and
  Alt+F1;
- centring of newly mapped windows.

Modules:

- `Config`: constants (edge margin 2, title-bar padding 2, border 3,
  double-click interval 500 ms), the edge bitmask, boxes, modes and C's
  truncating `/ 2`.
- `Geometry`: the pure box arithmetic.
- `Maximize`: the geometry state of one view and the functions that update
  it.
- `Clicks`: the click counter, as a function and as the object holding its
  static variables.
- `Title`: title sizing, the re-render test and the decoration size.
- `Scene`: the scene graph as a finite map, the parent walk and the hit
  classification.
- `ZOrder`: the view list as a sequence, with unlink and move-to-front.
- `Compositor`: the `View` and `Server` classes. Their methods update fields
  in place and are proved against the functions of the other modules.

Inputs that the toolkit supplies are parameters:

- the output under the cursor (`None` when there is none);
- the topmost scene node at the cursor;
- the text size measured for a title.

Cursor coordinates are integers. The maximized flag changes as soon as it is
set.

Three behaviours of the source that the model keeps:

- A full-output maximize requests height H − (TH + 2·3). That is 1054 on a
  1920×1080 output with a 20-pixel title bar.
- A maximize that fails for lack of an output has still saved the geometry.
- The grabbed view is never cleared.

## Model

| member | source | states |
|---|---|---|
| Config.Half | tinywl.c:240-249 | C's `/ 2` on `int`: truncation toward zero, with bounds for both signs |
| Geometry.MaximizeBox | tinywl.c:232-253 | the decorated frame of the computed content box covers exactly the full output, or its left, right, bottom or top half; x is the border, or half the width plus the border for RIGHT |
| Geometry.MaximizeFullExample | tinywl.c:232-253 | on 1920×1080 with a 20-pixel title bar: full (3, 23, 1914, 1054), right (963, 23, 954, 1054), bottom (3, 563, 1914, 514) |
| Geometry.HalvesAdjacent | tinywl.c:238-250 | the left/right and top/bottom targets meet without overlap and span the output up to one pixel lost to halving |
| Geometry.SnapEdge | tinywl.c:695-702 | left iff cx ≤ 2; right iff not left and cx ≥ W−2; bottom iff neither and cy ≥ H−2; top iff none of these and cy ≤ 2; no snap iff the cursor is strictly inside all four margins |
| Geometry.FindResizeEdge | tinywl.c:767-785 | each edge flag is set iff the cursor is within the border of that side, independently, and no other bit is set |
| Geometry.CornerSelectsTwoEdges | tinywl.c:767-785 | a cursor in the top-left corner of a window at least two borders in size yields exactly TOP\|LEFT |
| Geometry.OppositeEdgesExclusive | tinywl.c:767-785 | on a window at least two borders in size, LEFT and RIGHT never both hold, and neither do TOP and BOTTOM |
| Geometry.ResizeSides | tinywl.c:723-754 | TOP takes precedence over BOTTOM and LEFT over RIGHT; the active side follows the border position but stays at least one pixel from the opposite side; an inactive axis keeps the grabbed box |
| Geometry.Truncate | tinywl.c:1107 | C's double-to-int conversion truncates toward zero |
| Geometry.MaxMoveScale | tinywl.c:1103-1113 | the result is never before the current origin; it is the proportional origin when that is not before it, and the current origin otherwise |
| Geometry.Centered | tinywl.c:450-472 | no position iff the main width is 0; otherwise the window is centred to within one pixel on each axis, and exactly for even sizes |
| Geometry.CenteredExample | tinywl.c:464-468 | a 400×300 window on 1920×1080 goes to (760, 390) |
| Maximize.SaveGeometry | tinywl.c:206-214 | the saved box is the current position with the geometry size; nothing else changes |
| Maximize.Maximize | tinywl.c:216-262 | succeeds iff not maximized and an output exists; a maximized view is left unchanged; the geometry is saved unless a move is in progress, even when the output is missing; on success the requested frame covers the target and the view is maximized |
| Maximize.Unmaximize | tinywl.c:264-276 | succeeds iff maximized; otherwise nothing changes; on success the saved position returns and the saved size is requested |
| Maximize.Toggle | tinywl.c:278-281 | unmaximizes a maximized view, and maximizes to the full output exactly when unmaximizing was refused |
| Maximize.RoundTrip | tinywl.c:206-276 | maximize then unmaximize outside a move restores x and y and requests the pre-maximize geometry size |
| Maximize.ToggleTwice | tinywl.c:278-281 | two toggles: first the frame covers the output, then the original position and size return |
| Maximize.MaximizeTwice | tinywl.c:218-219 | a second maximize fails and changes nothing, whatever its edge |
| Maximize.CursorMove | tinywl.c:688-712 | no output: no change; near an edge: the view is maximized to that edge, or left as it is if already maximized; elsewhere: not maximized and placed at cursor minus grab offset |
| Maximize.BeginMove | tinywl.c:1131-1145 | a maximized view is re-anchored by `max_move_scale` on each axis (never moving back); any other view has its geometry saved; the grab offset is the cursor's offset from the resulting origin |
| Maximize.MoveWithoutMotionKeepsPlace | tinywl.c:706-710 | starting a move and moving within the output interior without moving the cursor leaves the view where it was |
| Maximize.DragOffMaximized | tinywl.c:1132-1139 | dragging a maximized view off the edges requests its saved size at an origin no earlier than before |
| Maximize.SnapThenDragOutRestores | tinywl.c:222-225 | a snap during a drag followed by dragging away restores the pre-drag size, under the cursor at the original grab offset |
| Maximize.EdgeSnapExample | tinywl.c:695-696 | grabbing a 400×300 view and dragging to x = 1 on 1920×1080 snaps it to the left half at (3, 23), size 954×1054 |
| Maximize.BeginResize | tinywl.c:1146-1161 | the grab box is the geometry box in layout coordinates; the cursor's offset is taken from the right or bottom border when those edges are active |
| Maximize.CursorResize | tinywl.c:714-765 | the view is placed at the left and top sides `ResizeSides` computes from the grab box and the cursor less the grab offset, and requests the width and height between those sides; so the requested height is at least 1 with TOP or BOTTOM and the width at least 1 with LEFT or RIGHT, and an inactive axis keeps the grabbed extent and position |
| Maximize.ResizeWithoutMotionKeepsBox | tinywl.c:714-765 | beginning a resize and moving without cursor motion keeps the position and requests the current size |
| Clicks.Elapsed | tinywl.c:893-894 | the unsigned 32-bit difference of two event times is the one count in [0, 2^32) that brings the earlier time to the later on the wrapping clock |
| Clicks.Click | tinywl.c:888-904 | the same button within 500 ms of the last continues the count, anything else restarts it at one; the button and time are recorded |
| Clicks.ReleaseAction | tinywl.c:925-931 | toggle iff on a title bar with the left button on exactly the second click; close iff on a title bar with the middle button |
| Clicks.DoubleClickToggles | tinywl.c:888-931 | two left releases 100 ms apart, the first starting a series, toggle once, even across the wrap-around of the clock |
| Clicks.SlowClicksDoNotToggle | tinywl.c:888-931 | releases 600 ms apart are single clicks and do not toggle |
| Clicks.TripleClickTogglesOnce | tinywl.c:888-931 | a third quick release counts three and does not toggle again |
| Clicks.ClickCounter.NumberOfClicks | tinywl.c:888-904 | the static variables advance as `Click` says and the new count is returned |
| Title.Layout | tinywl.c:366-377 | the original width is the measured width; the rendered width never exceeds it, and not the surface width less a border either when that is positive |
| Title.TitlebarHeight | tinywl.c:370 | the title-bar height exceeds the text height by twice the padding |
| Title.NeedsRegenerate | tinywl.c:1086-1088 | the re-render test: the pending geometry width is below the rendered title width, or the title was shrunk and its width is not the pending width less one border |
| Title.RegenerateIff | tinywl.c:1086-1090 | for a title laid out at a surface width over one border, a commit re-renders iff the pending geometry width is below the rendered width or the title was shrunk and the pending width differs from that surface width; a pending width equal to that surface width never re-renders |
| Title.ShrunkTitleRegeneratesWhenNarrower | tinywl.c:1086-1088 | a shrunk title laid out at a surface width re-renders on every commit whose geometry width is below that surface width |
| Title.DecorationSize | tinywl.c:1094-1097 | the decoration rect is the frame of the pending content size |
| Title.DecorationGuardAsWritten | tinywl.c:1094-1095 | the resize guard as written: the pending width differs from the rect width, or the pending height differs from the rect height less the title bar and one border |
| Title.GuardAsWrittenAlwaysFires | tinywl.c:1094-1095 | the guard as written fires even right after the rect was sized for the same pending size |
| Title.GuardAsWrittenIff | tinywl.c:1094-1095 | against a rect sized for (w, h), the guard as written fires iff the pending size is not (w + 6, h + 3) |
| Title.GuardAsWrittenMissesGrowth | tinywl.c:1094-1095 | content that grows by (6, 3) does not fire the guard as written, although the rect it needs differs from the one it has |
| Title.GuardAsWrittenExample | tinywl.c:1094-1095 | with TH = 20 a 406×326 rect sized for 400×300 fires the guard as written again for 400×300 and not for 406×303 |
| Title.GuardFiresExactlyOnChange | tinywl.c:1094-1097 | the intended guard fires iff the pending size differs from the one the rect was sized for |
| Scene.Owner | tinywl.c:662-664 | the owner is a tagged ancestor-or-self reached by an untagged path; there is none iff nothing up to the root is tagged |
| Scene.OwnerIsNearest | tinywl.c:662-664 | any tagged node reached from a node by an untagged path is its owner |
| Scene.FindOwner | tinywl.c:662-664 | the parent-walk loop returns the owner |
| Scene.ClassifyHit | tinywl.c:649-686 | on the owner's decoration rect: border iff within one border of an edge, boundary included, else title bar; on its title buffer: title bar; any other rect or buffer: no view, though the surface is reported; other nodes: content; no node or no owner: nothing |
| Scene.DesktopViewAt | tinywl.c:649-686 | the lookup with its parent walk returns the classification |
| Scene.BorderBoundaryExample | tinywl.c:672-675 | on a 406×326 rect, points exactly three pixels from an edge are border and one further in are title bar |
| ZOrder.Remove | tinywl.c:1057 | unlinking removes every occurrence of the view and nothing else |
| ZOrder.RemoveAbsent | tinywl.c:189 | unlinking a view that is not in the list changes nothing |
| ZOrder.RemoveDistinct | tinywl.c:189 | unlinking keeps the list free of duplicates |
| ZOrder.DistinctOnce | tinywl.c:189-190 | in a duplicate-free list every member occurs once |
| ZOrder.PrependDistinct | tinywl.c:1048 | inserting a view that is not on the list at its head keeps it duplicate-free |
| ZOrder.MoveToFront | tinywl.c:189-190 | the moved view is at the front |
| ZOrder.MoveToFrontPermutes | tinywl.c:189-190 | moving to the front permutes the list, keeps it duplicate-free and leaves the others in order |
| ZOrder.MoveFrontToFront | tinywl.c:189-190 | moving the front view to the front changes nothing |
| ZOrder.RemoveLast | tinywl.c:189 | unlinking the last element leaves the prefix |
| ZOrder.TailToFrontRotates | tinywl.c:504-512 | bringing the tail to the front rotates the list by one |
| ZOrder.RemoveLength | tinywl.c:1057 | unlinking shortens the list by the number of occurrences |
| Compositor.IndexOfSurface | tinywl.c:144-155 | the index of the first view with the surface, or −1 exactly when no view has it |
| Compositor.ViewFor | tinywl.c:144-155 | null iff no view has the surface; otherwise a listed view with that surface |
| Compositor.KeyHandled | tinywl.c:539-545 | a key is kept from the client iff Alt is held, it is a press, and its last keysym is a binding |
| Compositor.LastKeysymDecides | tinywl.c:541-543 | a binding followed by an ordinary keysym is still forwarded |
| Compositor.View.SaveGeometry | tinywl.c:206-214 | the view's geometry state becomes `Maximize.SaveGeometry` of the old one |
| Compositor.View.Unmaximize | tinywl.c:264-276 | the result and the new state are `Maximize.Unmaximize` of the old state |
| Compositor.Server.ViewFromSurface | tinywl.c:144-155 | the list search returns `ViewFor` |
| Compositor.Server.DeactivateFocused | tinywl.c:169-184 | the view holding keyboard focus is deactivated and drawn inactive; the other views are unchanged |
| Compositor.Server.FocusView | tinywl.c:157-204 | null view or already focused: nothing changes; otherwise the view moves to the front with the others in order, is activated and drawn active and gets keyboard focus, the previous view is deactivated, and no other view changes |
| Compositor.Server.MaximizeView | tinywl.c:216-262 | the result and the new state are `Maximize.Maximize` under the current mode and title-bar height |
| Compositor.Server.ToggleMaximize | tinywl.c:278-281 | the new state is `Maximize.Toggle` of the old |
| Compositor.Server.ProcessCursorMove | tinywl.c:688-712 | the grabbed view's new state is `Maximize.CursorMove` of its old state |
| Compositor.Server.ProcessCursorResize | tinywl.c:714-765 | the grabbed view's new state is `Maximize.CursorResize` with the recorded grab |
| Compositor.Server.BeginInteractive | tinywl.c:1115-1163 | refused with nothing changed unless the view's surface has pointer focus; otherwise the view is grabbed in the mode, with the grab of `BeginMove` or `BeginResize` |
| Compositor.Server.RequestMove | tinywl.c:1165-1174 | a client's move request begins a move, on the same terms: refused unless the view's surface has pointer focus, otherwise the `BeginMove` grab, with the grab box and edges kept |
| Compositor.Server.RequestResize | tinywl.c:1176-1186 | a client's resize request begins a resize by the requested edges, on the same terms |
| Compositor.Server.RequestMaximize | tinywl.c:1188-1191 | a client's maximize request toggles maximize |
| Compositor.Server.UpdatePointerFocus | tinywl.c:822-854 | while a button is held off the grabbed view the focus stays; otherwise it enters a plain surface, is cleared over nothing, and over a decoration is cleared unless a button is held |
| Compositor.Server.PointerMotion | tinywl.c:801-855 | in pass-through or pressed mode: a drag on a pressed title bar starts a move with the `BeginMove` grab, keeps the grab box and edges, and clears pointer focus; otherwise the mode and grab are kept, and pointer focus follows the hit as `UpdatePointerFocus` says |
| Compositor.Server.ProcessCursorMotion | tinywl.c:791-855 | move and resize modes move the grabbed view as `CursorMove` or `CursorResize` say; pressed on a title bar starts a move with the `BeginMove` grab, keeps the grab box and edges, and clears pointer focus; otherwise the mode and grab are kept and pointer focus follows the hit |
| Compositor.Server.TitlebarRelease | tinywl.c:925-931 | toggles maximize or requests a close as `ReleaseAction` says; the view's other fields keep their values |
| Compositor.Server.ButtonReleased | tinywl.c:920-933 | mode becomes pass-through; the click is counted as `Click` says; the title-bar action happens, changing only the hit view's geometry and close request; no other view in the scene changes; pointer focus follows the hit after the release |
| Compositor.Server.ButtonPressed | tinywl.c:934-951 | with no view nothing changes (list, focus, mode, grabbed view, grab offset, box and edges); otherwise the view is grabbed and given keyboard focus, with a border press starting a resize by `FindResizeEdge` and any other press entering the pressed mode and leaving pointer focus and the grab offset, box and edges alone; unless it already had focus it moves to the front and is activated, the previously focused view is deactivated, and no other view changes |
| Compositor.Server.PressOnView | tinywl.c:935-950 | the view is grabbed and given keyboard focus; unless it already had focus it moves to the front and is activated, the previously focused view is deactivated and no other view changes, and otherwise no view changes; a border press starts a resize, any other press enters the pressed mode and leaves pointer focus and the grab offset, box and edges alone |
| Compositor.Server.PressOnBorder | tinywl.c:940-945 | the view's surface takes pointer focus, and a resize begins with the `BeginResize` grab by the edges `FindResizeEdge` reports for the cursor |
| Compositor.Server.FocusLast | tinywl.c:504-512 | unless the last view already has keyboard focus, the list is rotated so it comes first, it is focused and activated, the previously focused view is deactivated and no other view changes; otherwise nothing changes |
| Compositor.Server.HandleKeybinding | tinywl.c:492-517 | Escape stops the event loop; F1 with two or more views, the last not already focused, rotates the list so the last view comes first, focuses and activates it, deactivates the previously focused view and changes no other view; otherwise list, focus and views are left alone; the key counts as handled iff it is Escape or F1 |
| Compositor.Server.KeyboardHandleKey | tinywl.c:519-552 | the key is forwarded iff not `KeyHandled`; the event loop stops iff Escape was among the keysyms of an Alt press; the list is permuted; without Alt or on a release no view, list or focus changes; Alt+F1 alone rotates and refocuses as `HandleKeybinding` says |
| Compositor.Server.PlaceCentered | tinywl.c:450-472 | the view is moved to the position `Centered` gives, or left where it is when there is none |
| Compositor.Server.LinkAtFront | tinywl.c:1048 | the view is inserted at the head of the list, which stays duplicate-free, and moving it to the front again changes nothing |
| Compositor.Server.LinkAndFocus | tinywl.c:1048-1050 | the view is inserted at the front and given keyboard focus; unless it had focus it is activated and the previously focused view deactivated; no other view changes |
| Compositor.Server.MapView | tinywl.c:1042-1051 | the view is centred as `Centered` says (or left where it is), inserted at the front and given keyboard focus; its other fields keep their values except that, unless it had focus, it is activated; the previously focused view is deactivated, and no other view changes |
| Compositor.ViewForSkips | tinywl.c:144-155 | a view with another surface put in front does not change which view the search finds |
| Compositor.Server.UnmapView | tinywl.c:1053-1062 | the view is unlinked; the list stays duplicate-free and one shorter |
| Compositor.Server.TitleUpdate | tinywl.c:431-443 | the title widths are `Layout` of the measured size, and the title-bar height follows the text height |
| Compositor.Server.Commit | tinywl.c:1079-1099 | the title is re-laid out iff `NeedsRegenerate` holds; a decorated view's rect is sized to frame the pending size iff the guard as written fires, and keeps its size otherwise |

## Left out

- Floating point: cursor coordinates and `max_move_scale` are doubles. The
  model uses integers for the cursor and exact reals with truncation in
  `max_move_scale`, so IEEE rounding is not modelled.
- Geometry.MaxMoveScale: a zero current extent divides by zero in the
  source. The model returns the current origin in that case.
- Toolkit calls with no effect on the modelled state are not modelled:
  scene-node positions, raising and colours; cursor images; enter, motion,
  button and key events sent to clients; the size and maximized requests
  themselves. Their effects on the model are the view's `requested`,
  `maximized`, `activated`, `borderActive` and `closeRequested` fields.
- The xdg-shell configure/ack cycle. The source reads `current.maximized`,
  which the client acknowledges later; the model flips the flag at once.
- Pointer focus holds the root surface of the focused surface. Subsurfaces
  and popups are not modelled.
- `desktop_view_at` leaves the decoration type unassigned on a plain
  surface hit, when there is no node at the cursor (tinywl.c:657-658), and
  when it rejects a rect or buffer that is not the owner's decoration
  (tinywl.c:670-671, 680-681). The model reports `NoDecoration` in all of
  these. The source then reads an indeterminate value, and a release
  that reads TITLEBAR there would call `toggle_maximize` on a NULL view
  (tinywl.c:926-928).
- `server_cursor_motion` and `server_cursor_motion_absolute` move the cursor
  within the output layout. The model's `cursorX` and `cursorY` fields
  stand for the resulting position.
- Compositor.Server.ButtonReleased replays the motion through the hit test
  and `UpdatePointerFocus`. That is what `process_cursor_motion` does in
  pass-through mode, which the release has just set.
- Compositor.Server.KeyboardHandleKey: for an Alt press the contract
  spells out the effect on views and focus only for a key producing the
  single keysym F1. For other keysym sequences it states the running flag,
  the forwarding verdict and that the list is permuted, not the views'
  states.
- Compositor.Server.FocusView deactivates the previously focused surface
  only when it belongs to a listed view. The source also sends the
  deactivation to a surface that has been unmapped.
- The `clicked` counter is a C `int` and could overflow after 2^31 quick
  clicks. The model's counter is unbounded.
- Geometry.ResizeSides: dragging TOP|BOTTOM or LEFT|RIGHT together, which a
  client could request, uses only TOP or LEFT, as the source does. Such a
  drag is not analysed further.
- Memory-safety defects are not modelled:
  - the NULL dereference when `create_text_buffer` fails, and the leaked
    allocation beside it (tinywl.c:436-438);
  - the unchecked `text_buffer_create` (tinywl.c:412-415);
  - the unchecked tag of the topmost node (tinywl.c:665);
  - the NULL output when centring with no output under the cursor
    (tinywl.c:461), which is why `MapView` takes an output.
  - the NULL pointer focus handed to `wlr_surface_get_root_surface` when a
    move or resize is requested while no surface has pointer focus
    (tinywl.c:1121-1124). `BeginInteractive` refuses that case and changes
    nothing.
- `main`, output setup and frame rendering, input-device setup, keymaps,
  modifier forwarding, seat cursor and selection requests, and axis and
  frame forwarding are toolkit wiring and are not modelled.
- Cairo/Pango rendering and the text buffer implementation are not
  modelled. A title's measured size is an input.
- View creation and destruction are not modelled beyond the `View`
  constructor (tinywl.c:1064-1077, 1193-1258).

## Findings

| source | as written | input that shows it | evidently intended | confidence | as-written member | corrected member |
|---|---|---|---|---|---|---|
| tinywl.c:1094-1095 | the commit guard compares the pending width with the rect's outer width and the pending height with the rect height less the title bar and one border | TH = 20 and a rect sized 406×326 for 400×300 content: a commit of 406×303 does not fire the guard, so the border and title bar stay sized for the old content; a commit of 400×300 fires it again and resizes to the same size | resize the decoration exactly when the pending size differs from the one it frames | medium, not executed | Title.GuardAsWrittenMissesGrowth | Title.GuardFiresExactlyOnChange |
