/**
 * `LEDController` (include/led_controller.h, src/led_controller.cpp): a
 * six-mode indicator driver whose state lives in class-static fields, here one
 * immutable record. `millis()` is the parameter `now`; the pin writes are the
 * recorded `d4State`/`d5State`, which every `setState` writes together with
 * the pins. The function-local `static int heartbeatStep` of `update` is the
 * explicit field `heartbeatStep`.
 *
 * As written, `setState` always sets the mode to ON and `setMode` calls
 * `setState` after assigning the mode, so the only modes the controller ever
 * holds are OFF and ON and every blinking branch of `update` is dead. The second half of this
 * module is the evidently intended controller, where the mode survives.
 */
module LedController {
  import opened CTypes

  datatype Mode = Off | On | SlowBlink | FastBlink | Alternate | Heartbeat

  /** The class-static fields of `LEDController`, plus the hidden heartbeat counter. */
  datatype Controller = Controller(
    initialized: bool,
    lastBlinkTime: uint32,
    ledState: bool,
    currentMode: Mode,
    blinkInterval: uint32,
    d4State: bool,
    d5State: bool,
    heartbeatStep: int32)

  /** The static initialisers of the fields. */
  const Reset := Controller(false, 0, false, Off, 1000, false, false, 0)

  const ALTERNATE_INTERVAL: uint32 := 250
  const SLOW_BLINK_INTERVAL: uint32 := 1000
  const FAST_BLINK_INTERVAL: uint32 := 333
  const HEARTBEAT_INTERVAL: uint32 := 500

  /** Default arguments of `blinkSync` and `blinkAlternate`. */
  const DEFAULT_SYNC_INTERVAL: int32 := 1000
  const DEFAULT_ALTERNATE_INTERVAL: int32 := 500

  /** The interval `setMode` installs for a blinking mode. */
  function IntervalOf(mode: Mode): (r: uint32)
    requires mode != Off && mode != On
  {
    match mode
    case Alternate => ALTERNATE_INTERVAL
    case SlowBlink => SLOW_BLINK_INTERVAL
    case FastBlink => FAST_BLINK_INTERVAL
    case Heartbeat => HEARTBEAT_INTERVAL
  }

  /** The levels `setMode` first writes to D4 and D5 for `mode`. */
  function InitialLevels(mode: Mode): (bool, bool)
  {
    match mode
    case Off => (false, false)
    case Alternate => (true, false)
    case _ => (true, true)
  }

  /** `init`: the first call switches both LEDs off and sets OFF; later calls do nothing. */
  function Init(c: Controller): (r: Controller)
    ensures r.initialized
    ensures c.initialized ==> r == c
    ensures !c.initialized ==> r == c.(initialized := true, currentMode := Off, d4State := false, d5State := false)
  {
    if c.initialized then c
    else c.(initialized := true, currentMode := Off, d4State := false, d5State := false)
  }

  /** `setState`: drive D4 and D5 and leave any automatic mode for ON. */
  function SetState(c: Controller, d4: bool, d5: bool): (r: Controller)
    ensures r.d4State == d4 && r.d5State == d5
    ensures r.currentMode == On
    ensures r.(d4State := c.d4State, d5State := c.d5State, currentMode := c.currentMode) == c
  {
    c.(d4State := d4, d5State := d5, currentMode := On)
  }

  /** `setMode`: store the mode, then write its initial levels through `setState`. */
  function SetMode(c: Controller, mode: Mode, now: uint32): (r: Controller)
    ensures r.currentMode == On
    ensures (r.d4State, r.d5State) == InitialLevels(mode)
    ensures mode == Off || mode == On ==> r.blinkInterval == c.blinkInterval && r.lastBlinkTime == c.lastBlinkTime
    ensures mode != Off && mode != On ==> r.blinkInterval == IntervalOf(mode) && r.lastBlinkTime == now
    ensures r.initialized == c.initialized && r.ledState == c.ledState && r.heartbeatStep == c.heartbeatStep
  {
    var levels := InitialLevels(mode);
    var written := SetState(c.(currentMode := mode), levels.0, levels.1);
    match mode
    case Off => written
    case On => written
    case _ => written.(lastBlinkTime := now, blinkInterval := IntervalOf(mode))
  }

  /** `getMode`: it reports a static mode exactly when the controller is steady. */
  function GetMode(c: Controller): (r: Mode)
    ensures r == Off || r == On <==> Steady(c)
  {
    c.currentMode
  }

  /**
   * One step of the heartbeat pattern: from `step`, the level written to both
   * LEDs and the next value of the counter (off, on, off, on, then back to 0).
   */
  function HeartbeatBeat(step: int32): (r: (int32, bool))
    ensures 0 <= r.0 <= 3
    ensures 0 <= step <= 3 ==> r.0 as int == (step as int + 1) % 4 && r.1 == (step % 2 == 1)
  {
    if step == 0 then (1, false)
    else if step == 1 then (2, true)
    else if step == 2 then (3, false)
    else (0, true)
  }

  /** `update`: initialise on first use, otherwise advance the current mode's blinking. */
  function Update(c: Controller, now: uint32): (r: Controller)
    ensures !c.initialized ==> r == Init(c)
    ensures c.currentMode == Off || c.currentMode == On ==> r == c || !c.initialized
    ensures r.currentMode == c.currentMode || r.currentMode == On || !c.initialized
    ensures c.initialized && Elapsed(now, c.lastBlinkTime) < c.blinkInterval ==> r == c
  {
    if !c.initialized then Init(c)
    else
      var due := Elapsed(now, c.lastBlinkTime) >= c.blinkInterval;
      match c.currentMode
      case Off => c
      case On => c
      case SlowBlink => if due then SyncToggle(c, now) else c
      case FastBlink => if due then SyncToggle(c, now) else c
      case Alternate =>
        if due then
          var s := !c.ledState;
          SetState(c.(ledState := s), s, !s).(lastBlinkTime := now)
        else c
      case Heartbeat =>
        if due then
          var beat := HeartbeatBeat(c.heartbeatStep);
          SetState(c, beat.1, beat.1).(heartbeatStep := beat.0, lastBlinkTime := now)
        else c
  }

  /** The synchronous toggle of the SLOW_BLINK and FAST_BLINK branches. */
  function SyncToggle(c: Controller, now: uint32): Controller
  {
    var s := !c.ledState;
    SetState(c.(ledState := s), s, s).(lastBlinkTime := now)
  }

  /** `turnOff`. */
  function TurnOff(c: Controller, now: uint32): (r: Controller)
    ensures !r.d4State && !r.d5State
    ensures GetMode(r) == On
  {
    SetMode(c, Off, now)
  }

  /** `turnOn`. */
  function TurnOn(c: Controller, now: uint32): (r: Controller)
    ensures r.d4State && r.d5State
    ensures GetMode(r) == On
  {
    SetMode(c, On, now)
  }

  /** `blinkSync(intervalMs)`: the argument is stored, then overwritten by `setMode`. */
  function BlinkSync(c: Controller, now: uint32, intervalMs: int32 := DEFAULT_SYNC_INTERVAL): (r: Controller)
    ensures r.blinkInterval == SLOW_BLINK_INTERVAL
    ensures GetMode(r) == On
  {
    SetMode(c.(blinkInterval := ToUnsigned(intervalMs)), SlowBlink, now)
  }

  /** `blinkAlternate(intervalMs)`: the argument is stored, then overwritten by `setMode`. */
  function BlinkAlternate(c: Controller, now: uint32, intervalMs: int32 := DEFAULT_ALTERNATE_INTERVAL): (r: Controller)
    ensures r.blinkInterval == ALTERNATE_INTERVAL
    ensures GetMode(r) == On
  {
    SetMode(c.(blinkInterval := ToUnsigned(intervalMs)), Alternate, now)
  }

  /** A call of one of the public static functions, with its arguments and clock reading. */
  datatype Call =
    | InitCall
    | SetStateCall(d4: bool, d5: bool)
    | SetModeCall(mode: Mode, now: uint32)
    | UpdateCall(now: uint32)
    | TurnOffCall(now: uint32)
    | TurnOnCall(now: uint32)
    | BlinkSyncCall(intervalMs: int32, now: uint32)
    | BlinkAlternateCall(intervalMs: int32, now: uint32)

  function Apply(c: Controller, call: Call): Controller
  {
    match call
    case InitCall => Init(c)
    case SetStateCall(d4, d5) => SetState(c, d4, d5)
    case SetModeCall(mode, now) => SetMode(c, mode, now)
    case UpdateCall(now) => Update(c, now)
    case TurnOffCall(now) => TurnOff(c, now)
    case TurnOnCall(now) => TurnOn(c, now)
    case BlinkSyncCall(ms, now) => BlinkSync(c, now, ms)
    case BlinkAlternateCall(ms, now) => BlinkAlternate(c, now, ms)
  }

  function Run(c: Controller, calls: seq<Call>): Controller
    decreases |calls|
  {
    if |calls| == 0 then c else Run(Apply(c, calls[0]), calls[1..])
  }

  /** The controller holds a static mode. */
  predicate Steady(c: Controller)
  {
    c.currentMode == Off || c.currentMode == On
  }

  // ---------------------------------------------------------------------------
  // Properties of the controller as written

  /** `init` is idempotent. */
  lemma InitIdempotent(c: Controller)
    ensures Init(Init(c)) == Init(c)
  {
  }

  /** Whatever mode is requested, `getMode` afterwards reports ON, even for OFF. */
  lemma SetModeAlwaysReportsOn(c: Controller, mode: Mode, now: uint32)
    ensures GetMode(SetMode(c, mode, now)) == On
    ensures mode != On ==> GetMode(SetMode(c, mode, now)) != mode
  {
  }

  /** Every public call keeps the mode static. */
  lemma ApplyKeepsSteady(c: Controller, call: Call)
    requires Steady(c)
    ensures Steady(Apply(c, call))
  {
  }

  /** From the static initial values, every sequence of calls leaves the mode OFF or ON. */
  lemma {:induction false} RunKeepsSteady(c: Controller, calls: seq<Call>)
    requires Steady(c)
    ensures Steady(Run(c, calls))
    decreases |calls|
  {
    if |calls| > 0 {
      ApplyKeepsSteady(c, calls[0]);
      RunKeepsSteady(Apply(c, calls[0]), calls[1..]);
    }
  }

  /** Hence, after any history, `update` on an initialised controller changes nothing:
      the blinking and heartbeat branches are unreachable. */
  lemma UpdateIsInertAfterAnyHistory(calls: seq<Call>, now: uint32)
    requires Run(Reset, calls).initialized
    ensures Update(Run(Reset, calls), now) == Run(Reset, calls)
  {
    RunKeepsSteady(Reset, calls);
  }

  /** After any history from the static initialisers, `getMode` reports OFF or ON. */
  lemma GetModeAfterAnyHistory(calls: seq<Call>)
    ensures GetMode(Run(Reset, calls)) == Off || GetMode(Run(Reset, calls)) == On
  {
    RunKeepsSteady(Reset, calls);
  }

  /** Were the heartbeat branch entered, its counter would cycle 0, 1, 2, 3, 0 writing
      off, on, off, on, advancing only once the interval has elapsed. */
  lemma HeartbeatBranch(c: Controller, now: uint32)
    requires c.initialized && c.currentMode == Heartbeat
    requires 0 <= c.heartbeatStep <= 3
    ensures var r := Update(c, now);
      if Elapsed(now, c.lastBlinkTime) >= c.blinkInterval then
        && r.heartbeatStep as int == (c.heartbeatStep as int + 1) % 4
        && r.d4State == r.d5State == (c.heartbeatStep % 2 == 1)
        && r.lastBlinkTime == now
        && r.currentMode == On
      else r == c
  {
  }

  /** Four heartbeat steps bring the counter back to where it started. */
  lemma HeartbeatPeriod(step: int32)
    requires 0 <= step <= 3
    ensures HeartbeatBeat(HeartbeatBeat(HeartbeatBeat(HeartbeatBeat(step).0).0).0).0 == step
  {
  }

  // ---------------------------------------------------------------------------
  // The evidently intended controller: writing the pins does not leave the mode

  /** Drive D4 and D5 without touching the mode. */
  function WritePins(c: Controller, d4: bool, d5: bool): Controller
  {
    c.(d4State := d4, d5State := d5)
  }

  /** `setMode` as intended: the requested mode is kept. */
  function SetModeIntended(c: Controller, mode: Mode, now: uint32): (r: Controller)
    ensures GetMode(r) == mode
    ensures (r.d4State, r.d5State) == InitialLevels(mode)
    ensures mode != Off && mode != On ==> r.blinkInterval == IntervalOf(mode) && r.lastBlinkTime == now
  {
    var levels := InitialLevels(mode);
    var written := WritePins(c.(currentMode := mode), levels.0, levels.1);
    match mode
    case Off => written
    case On => written
    case _ => written.(lastBlinkTime := now, blinkInterval := IntervalOf(mode))
  }

  /** `update` as intended: each branch writes the pins and stays in its mode. */
  function UpdateIntended(c: Controller, now: uint32): (r: Controller)
    ensures c.initialized ==> GetMode(r) == GetMode(c)
    ensures !c.initialized ==> r == Init(c)
  {
    if !c.initialized then Init(c)
    else
      var due := Elapsed(now, c.lastBlinkTime) >= c.blinkInterval;
      match c.currentMode
      case Off => c
      case On => c
      case SlowBlink => if due then SyncToggleIntended(c, now) else c
      case FastBlink => if due then SyncToggleIntended(c, now) else c
      case Alternate =>
        if due then
          var s := !c.ledState;
          WritePins(c.(ledState := s), s, !s).(lastBlinkTime := now)
        else c
      case Heartbeat =>
        if due then
          var beat := HeartbeatBeat(c.heartbeatStep);
          WritePins(c, beat.1, beat.1).(heartbeatStep := beat.0, lastBlinkTime := now)
        else c
  }

  function SyncToggleIntended(c: Controller, now: uint32): Controller
  {
    var s := !c.ledState;
    WritePins(c.(ledState := s), s, s).(lastBlinkTime := now)
  }

  /** `blinkSync` as intended: blink synchronously at the requested interval. */
  function BlinkSyncIntended(c: Controller, now: uint32, intervalMs: int32 := DEFAULT_SYNC_INTERVAL): (r: Controller)
    ensures GetMode(r) == SlowBlink
    ensures r.blinkInterval == ToUnsigned(intervalMs)
  {
    SetModeIntended(c, SlowBlink, now).(blinkInterval := ToUnsigned(intervalMs))
  }

  /** `blinkAlternate` as intended: alternate at the requested interval. */
  function BlinkAlternateIntended(c: Controller, now: uint32, intervalMs: int32 := DEFAULT_ALTERNATE_INTERVAL): (r: Controller)
    ensures GetMode(r) == Alternate
    ensures r.blinkInterval == ToUnsigned(intervalMs)
  {
    SetModeIntended(c, Alternate, now).(blinkInterval := ToUnsigned(intervalMs))
  }

  /** With the intended controller, alternate blinking really alternates: the first
      two due updates after entering ALTERNATE keep D4 and D5 opposite, the second
      swaps the levels of the first, and the mode stays ALTERNATE. */
  lemma IntendedAlternateBlinks(c: Controller, t0: uint32, t1: uint32, t2: uint32)
    requires c.initialized
    requires Elapsed(t1, t0) >= ALTERNATE_INTERVAL && Elapsed(t2, t1) >= ALTERNATE_INTERVAL
    ensures var m := SetModeIntended(c, Alternate, t0);
      var u1 := UpdateIntended(m, t1);
      var u2 := UpdateIntended(u1, t2);
      && GetMode(u1) == Alternate && GetMode(u2) == Alternate
      && u1.d5State == !u1.d4State && u2.d5State == !u2.d4State
      && u2.d4State == !u1.d4State
  {
  }

  /** With the intended controller, the heartbeat runs its full four-step cycle
      and stays in HEARTBEAT. */
  lemma IntendedHeartbeatCycles(c: Controller, t1: uint32, t2: uint32, t3: uint32, t4: uint32)
    requires c.initialized && c.currentMode == Heartbeat
    requires 0 <= c.heartbeatStep <= 3
    requires Elapsed(t1, c.lastBlinkTime) >= c.blinkInterval
    requires Elapsed(t2, t1) >= c.blinkInterval && Elapsed(t3, t2) >= c.blinkInterval
    requires Elapsed(t4, t3) >= c.blinkInterval
    ensures var u := UpdateIntended(UpdateIntended(UpdateIntended(UpdateIntended(c, t1), t2), t3), t4);
      u.heartbeatStep == c.heartbeatStep && GetMode(u) == Heartbeat && u.lastBlinkTime == t4
  {
    HeartbeatPeriod(c.heartbeatStep);
  }

  // ---------------------------------------------------------------------------
  // The discrepancies, on concrete inputs

  /** `setMode(SLOW_BLINK)` then `getMode()` reports ON; the intended controller reports SLOW_BLINK. */
  lemma SetModeLosesBlinkMode()
    ensures GetMode(SetMode(Init(Reset), SlowBlink, 0)) == On
    ensures GetMode(SetModeIntended(Init(Reset), SlowBlink, 0)) == SlowBlink
  {
  }

  /** `blinkAlternate(500)` (its default argument) blinks every 250 ms, not every 500 ms. */
  lemma BlinkAlternateIgnoresInterval()
    ensures BlinkAlternate(Init(Reset), 0).blinkInterval == 250
    ensures BlinkAlternateIntended(Init(Reset), 0).blinkInterval == 500
  {
  }
}
