/**
 * The polling-loop controller of src/main.cpp: a press-start latch on the
 * BOOT button, a long hold that enters pairing mode, a short release that
 * toggles mouse motion, and the pairing-mode blink of D4. It keeps its own
 * globals and shares nothing with the tinyfsm machine.
 *
 * One pass of `loop()` is `Step`, with the button level, the clock reading
 * and `bleMouse.isConnected()` as inputs; all `millis()` reads of one pass
 * see the same `now`.
 */
module MainLoop {
  import opened CTypes

  /** Hold time, in ms, after which a held button enters pairing mode. */
  const LONG_PRESS_MS: uint32 := 5000
  /** A release before this many ms counts as a short press. */
  const SHORT_PRESS_MS: uint32 := 1000
  /** Period of the D4 toggle while in pairing mode. */
  const PAIRING_BLINK_MS: uint32 := 333

  /** The globals of src/main.cpp and the last levels written to D4 and D5. */
  datatype Globals = Globals(
    isMouseMoving: bool,
    isPairingMode: bool,
    buttonPressStartTime: uint32,
    lastBlinkTime: uint32,
    ledState: bool,
    blinkCount: int,
    d4: bool,
    d5: bool)

  /** The globals' initialisers, with both LEDs driven low by `setup`. */
  const Boot := Globals(false, false, 0, 0, false, 0, false, false)

  /** `enterPairingMode` without the BLE restart. */
  function EnterPairingMode(g: Globals, now: uint32): (r: Globals)
    ensures r.isPairingMode && r.blinkCount == 0 && r.lastBlinkTime == now
    ensures r.(isPairingMode := g.isPairingMode, blinkCount := g.blinkCount, lastBlinkTime := g.lastBlinkTime) == g
  {
    g.(isPairingMode := true, blinkCount := 0, lastBlinkTime := now)
  }

  /** `toggleMouseMotion`: flip motion and show it on D5. */
  function ToggleMouseMotion(g: Globals): (r: Globals)
    ensures r.isMouseMoving == !g.isMouseMoving
    ensures r.d5 == r.isMouseMoving
    ensures r.(isMouseMoving := g.isMouseMoving, d5 := g.d5) == g
  {
    var moving := !g.isMouseMoving;
    g.(isMouseMoving := moving, d5 := moving)
  }

  /** `handlePairingModeBlink`: toggle D4 every 333 ms; a live link ends pairing mode. */
  function HandlePairingModeBlink(g: Globals, now: uint32, connected: bool): (r: Globals)
    ensures r.ledState != g.ledState <==> Elapsed(now, g.lastBlinkTime) >= PAIRING_BLINK_MS
    ensures r.ledState != g.ledState ==> r.lastBlinkTime == now
    ensures r.ledState == g.ledState ==> r.lastBlinkTime == g.lastBlinkTime
    ensures connected ==> !r.isPairingMode && !r.d4
    ensures !connected ==> r.isPairingMode == g.isPairingMode && r.d4 == (if r.ledState != g.ledState then r.ledState else g.d4)
    ensures r.isMouseMoving == g.isMouseMoving && r.d5 == g.d5 && r.buttonPressStartTime == g.buttonPressStartTime
    ensures r.blinkCount == g.blinkCount
  {
    var blinked :=
      if Elapsed(now, g.lastBlinkTime) >= PAIRING_BLINK_MS then
        var s := !g.ledState;
        g.(ledState := s, d4 := s, lastBlinkTime := now)
      else g;
    if connected then blinked.(isPairingMode := false, d4 := false) else blinked
  }

  /** The button part of `loop`. */
  function HandleButton(g: Globals, pressed: bool, now: uint32): (r: Globals)
    // the press-start latch, with 0 meaning "not pressed"
    ensures pressed && g.buttonPressStartTime == 0 ==> r == g.(buttonPressStartTime := now)
    ensures pressed && g.buttonPressStartTime != 0 ==> r.buttonPressStartTime == g.buttonPressStartTime
    // a long hold enters pairing mode once
    ensures pressed && g.buttonPressStartTime != 0 ==>
      if Elapsed(now, g.buttonPressStartTime) >= LONG_PRESS_MS && !g.isPairingMode
      then r == EnterPairingMode(g, now)
      else r == g
    // a release ends the press; only a short one toggles motion
    ensures !pressed ==> r.buttonPressStartTime == 0
    ensures !pressed && g.buttonPressStartTime != 0 ==>
      (r.isMouseMoving != g.isMouseMoving <==> Elapsed(now, g.buttonPressStartTime) < SHORT_PRESS_MS)
    ensures !pressed ==> r.isPairingMode == g.isPairingMode && r.lastBlinkTime == g.lastBlinkTime
    ensures !pressed && g.buttonPressStartTime != 0 ==>
      && r.(isMouseMoving := g.isMouseMoving, d5 := g.d5, buttonPressStartTime := g.buttonPressStartTime) == g
      && (r.isMouseMoving != g.isMouseMoving ==> r.d5 == r.isMouseMoving)
    ensures !pressed && g.buttonPressStartTime == 0 ==> r == g
  {
    if pressed then
      if g.buttonPressStartTime == 0 then g.(buttonPressStartTime := now)
      else if Elapsed(now, g.buttonPressStartTime) >= LONG_PRESS_MS && !g.isPairingMode then
        EnterPairingMode(g, now)
      else g
    else if g.buttonPressStartTime > 0 then
      var toggled :=
        if Elapsed(now, g.buttonPressStartTime) < SHORT_PRESS_MS then ToggleMouseMotion(g) else g;
      toggled.(buttonPressStartTime := 0)
    else g
  }

  /** What one pass of `loop` leaves behind, and whether it moved the mouse. */
  datatype Pass = Pass(globals: Globals, movesMouse: bool)

  /** One pass of `loop()`. */
  function Step(g: Globals, pressed: bool, now: uint32, connected: bool): (r: Pass)
    ensures r.movesMouse <==> r.globals.isMouseMoving && connected
    ensures connected ==> !r.globals.isPairingMode
    ensures r.globals.isPairingMode ==> g.isPairingMode || (pressed && g.buttonPressStartTime != 0)
    ensures r.globals.isMouseMoving != g.isMouseMoving <==>
      !pressed && g.buttonPressStartTime != 0 && Elapsed(now, g.buttonPressStartTime) < SHORT_PRESS_MS
    ensures r.globals.isMouseMoving != g.isMouseMoving ==> r.globals.d5 == r.globals.isMouseMoving
  {
    var afterButton := HandleButton(g, pressed, now);
    var afterBlink :=
      if afterButton.isPairingMode then HandlePairingModeBlink(afterButton, now, connected) else afterButton;
    Pass(afterBlink, afterBlink.isMouseMoving && connected)
  }

  /** The loop's inputs on one pass. */
  datatype Sample = Sample(pressed: bool, now: uint32, connected: bool)

  function Run(g: Globals, samples: seq<Sample>): Globals
    decreases |samples|
  {
    if |samples| == 0 then g
    else Run(Step(g, samples[0].pressed, samples[0].now, samples[0].connected).globals, samples[1..])
  }

  /** D5 shows whether motion is on. */
  predicate MotionShown(g: Globals)
  {
    g.d5 == g.isMouseMoving
  }

  // ---------------------------------------------------------------------------
  // Properties

  /** Toggling motion twice restores it. */
  lemma ToggleTwice(g: Globals)
    requires MotionShown(g)
    ensures ToggleMouseMotion(ToggleMouseMotion(g)) == g
  {
  }

  /** Every pass keeps D5 in step with the motion flag. */
  lemma StepShowsMotion(g: Globals, pressed: bool, now: uint32, connected: bool)
    requires MotionShown(g)
    ensures MotionShown(Step(g, pressed, now, connected).globals)
  {
  }

  /** From boot, D5 always shows whether motion is on. */
  lemma {:induction false} RunShowsMotion(g: Globals, samples: seq<Sample>)
    requires MotionShown(g)
    ensures MotionShown(Run(g, samples))
    decreases |samples|
  {
    if |samples| > 0 {
      var s := samples[0];
      StepShowsMotion(g, s.pressed, s.now, s.connected);
      RunShowsMotion(Step(g, s.pressed, s.now, s.connected).globals, samples[1..]);
    }
  }

  /** While in pairing mode, holding the button does not re-enter it: the blink
      counter and blink clock are left to the blink handler. */
  lemma PairingDoesNotRefire(g: Globals, now: uint32)
    requires g.isPairingMode
    ensures HandleButton(g, true, now).blinkCount == g.blinkCount
    ensures HandleButton(g, true, now).lastBlinkTime == g.lastBlinkTime
  {
  }

  /** A press that is held long enough enters pairing mode, and stays there until a link
      comes up. */
  lemma LongHoldEntersPairing(g: Globals, now: uint32)
    requires g.buttonPressStartTime != 0 && !g.isPairingMode
    requires Elapsed(now, g.buttonPressStartTime) >= LONG_PRESS_MS
    ensures Step(g, true, now, false).globals.isPairingMode
    ensures Step(g, true, now, true).globals.isPairingMode == false
    ensures Step(g, true, now, false).globals.blinkCount == 0
  {
  }

  /** A release after 1 s or more changes nothing but the latch. */
  lemma SlowReleaseOnlyClearsLatch(g: Globals, now: uint32)
    requires g.buttonPressStartTime != 0
    requires Elapsed(now, g.buttonPressStartTime) >= SHORT_PRESS_MS
    ensures HandleButton(g, false, now) == g.(buttonPressStartTime := 0)
  {
  }

  /** A press and a release less than 1 s later toggle motion once and clear the latch. */
  lemma ShortPressTogglesMotion(g: Globals, t0: uint32, d: nat)
    requires g.buttonPressStartTime == 0 && t0 != 0
    requires d < SHORT_PRESS_MS as nat
    ensures var pressed := HandleButton(g, true, t0);
      var released := HandleButton(pressed, false, Later(t0, d));
      released.isMouseMoving == !g.isMouseMoving && released.buttonPressStartTime == 0
  {
    ElapsedLater(t0, d);
  }
}
