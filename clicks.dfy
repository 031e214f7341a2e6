/** Double-click detection: the process-wide click counter and what a button
    release on a title bar does with its count. */
module Clicks {
  import opened Config

  /** A millisecond timestamp of an input event: a `uint32_t` that wraps
      around about every 49.7 days. */
  type Millis = t: int | 0 <= t < 0x1_0000_0000

  /** The event time `ms` milliseconds after `t`, on the wrapping clock. */
  function Later(t: Millis, ms: nat): Millis {
    (t + ms) % 0x1_0000_0000
  }

  /** Milliseconds from `last` to `now` on the wrapping event clock: C's
      unsigned subtraction, the one count in [0, 2^32) that brings `last`
      to `now`. */
  function Elapsed(last: Millis, now: Millis): (d: int)
    ensures 0 <= d < 0x1_0000_0000
    ensures Later(last, d) == now
  {
    (now - last) % 0x1_0000_0000
  }

  /** The counter's three static variables. */
  datatype ClickState = ClickState(clicked: int, lastButton: bv32, lastTime: Millis)

  /** The state before the first click: statics start at one, zero and zero. */
  const Initial := ClickState(1, 0, 0)

  /** `number_of_clicks` as a state transition: a release of the same button
      within the double-click interval of the previous one continues the
      count, anything else starts a new count at one; the button and the
      time are always recorded. */
  function Click(s: ClickState, button: bv32, time: Millis): (r: ClickState)
    ensures r.lastButton == button && r.lastTime == time
    ensures button == s.lastButton && Elapsed(s.lastTime, time) < DoubleclickInterval ==>
      r.clicked == s.clicked + 1
    ensures button != s.lastButton || Elapsed(s.lastTime, time) >= DoubleclickInterval ==>
      r.clicked == 1
  {
    var clicked :=
      if button == s.lastButton && Elapsed(s.lastTime, time) < DoubleclickInterval then s.clicked + 1
      else 1;
    ClickState(clicked, button, time)
  }

  /** What a button release on a title bar does. */
  datatype TitleAction = NoAction | ToggleMaximize | Close

  /** The release branch of `server_cursor_button`: on a title bar, the left
      button toggles maximize on exactly the second click of a series and the
      middle button asks the client to close; anywhere else nothing happens. */
  function ReleaseAction(region: Region, button: bv32, clicks: int): (a: TitleAction)
    ensures a == ToggleMaximize <==> region == Titlebar && button == ButtonLeft && clicks == 2
    ensures a == Close <==> region == Titlebar && button == ButtonMiddle
  {
    if region == Titlebar then
      if button == ButtonLeft && clicks == 2 then ToggleMaximize
      else if button == ButtonMiddle then Close
      else NoAction
    else NoAction
  }

  /** Two left releases on a title bar 100 ms apart toggle maximize once,
      when the first of them starts a new series; this holds across the
      wrap-around of the 32-bit clock. */
  lemma DoubleClickToggles(s: ClickState, t: Millis)
    requires s.lastButton != ButtonLeft
    ensures var s1 := Click(s, ButtonLeft, t);
      var s2 := Click(s1, ButtonLeft, Later(t, 100));
      ReleaseAction(Titlebar, ButtonLeft, s1.clicked) == NoAction &&
      ReleaseAction(Titlebar, ButtonLeft, s2.clicked) == ToggleMaximize
  {
    var s1 := Click(s, ButtonLeft, t);
    assert Elapsed(t, Later(t, 100)) == 100;
  }

  /** Two left releases 600 ms apart are two single clicks. */
  lemma SlowClicksDoNotToggle(s: ClickState, t: Millis)
    ensures var s1 := Click(s, ButtonLeft, t);
      var s2 := Click(s1, ButtonLeft, Later(t, 600));
      s2.clicked == 1 && ReleaseAction(Titlebar, ButtonLeft, s2.clicked) == NoAction
  {
    assert Elapsed(t, Later(t, 600)) == 600;
  }

  /** A third quick left release does not toggle again. */
  lemma TripleClickTogglesOnce(s: ClickState, t: Millis)
    requires s.lastButton != ButtonLeft
    ensures var s1 := Click(s, ButtonLeft, t);
      var s2 := Click(s1, ButtonLeft, Later(t, 100));
      var s3 := Click(s2, ButtonLeft, Later(t, 200));
      s3.clicked == 3 && ReleaseAction(Titlebar, ButtonLeft, s3.clicked) == NoAction
  {
    assert Elapsed(t, Later(t, 100)) == 100;
    assert Elapsed(Later(t, 100), Later(t, 200)) == 100;
  }

  /** The counter object holding `number_of_clicks`'s static variables. */
  class ClickCounter {
    var clicked: int
    var lastButton: bv32
    var lastTime: Millis

    function State(): ClickState
      reads this
    {
      ClickState(clicked, lastButton, lastTime)
    }

    constructor ()
      ensures State() == Initial
    {
      clicked, lastButton, lastTime := 1, 0, 0;
    }

    /** `number_of_clicks`: advance the statics and return the count. */
    method NumberOfClicks(button: bv32, time: Millis) returns (n: int)
      modifies this
      ensures State() == Click(old(State()), button, time)
      ensures n == clicked
    {
      if button == lastButton && Elapsed(lastTime, time) < DoubleclickInterval {
        clicked := clicked + 1;
      } else {
        clicked := 1;
      }
      lastButton := button;
      lastTime := time;
      n := clicked;
    }
  }
}
