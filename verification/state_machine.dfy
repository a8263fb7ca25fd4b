/**
 * The tinyfsm lifecycle machine of the BLE mouse (src/state_machine.h and
 * src/state_machine.cpp): seven states, eight payload-free events, the
 * `entry` action of each state, the two timeout checks and the LED toggle of
 * `MouseMotionEnable`.
 *
 * Transition table. The header and the implementation file disagree about
 * which reactions each state overrides: `Idle::react(DeviceConnected)`,
 * `Connected::react(BootButtonShortPress)` and most `MouseMotionDisable`
 * reactions have bodies in the implementation file but no declaration in the
 * header. This model takes the table from the bodies: a (state, event) pair
 * with a body reacts as that body does, and every pair without one falls back
 * to the base class's empty `react`, i.e. changes nothing.
 *
 * Inputs that the firmware reads from the outside world are parameters:
 * `now` is `millis()`, and `linked` is `pServer && pServer->getConnectedCount() > 0`.
 * Pin writes are recorded as the last level written to D4 and D5; logging and
 * the BLE advertising calls are dropped.
 */
module StateMachine {
  import opened CTypes
  import opened Wrappers

  datatype State =
    | Init
    | Idle
    | Reconnect
    | Pairing
    | Connected
    | MouseMotionDisable
    | MouseMotionEnable

  datatype Event =
    | BootButtonShortPress
    | BootButtonLongPress
    | DeviceConnected
    | DeviceDisconnected
    | ConnectionTimeout
    | PairingTimeout
    | ConnectionFailed
    | InitComplete

  const RECONNECT_TIMEOUT: uint32 := 30000
  const PAIRING_TIMEOUT: uint32 := 60000

  /** Minimum time between two toggles of the LEDs in `MouseMotionEnable`. */
  const LED_TOGGLE_INTERVAL: uint32 := 250

  /**
   * The current state together with all data the states touch. tinyfsm keeps
   * one static instance per state, so `reconnectStartTime` and
   * `pairingStartTime` survive while their state is inactive; the last four
   * fields stand for the extern globals and the two LED pins.
   */
  datatype Machine = Machine(
    state: State,
    reconnectStartTime: uint32,
    pairingStartTime: uint32,
    angle: real,
    lastBlinkTime: uint32,
    ledState: bool,
    blinkCount: int,
    d4: bool,
    d5: bool)

  /** Static storage before `start()`: every field zero. */
  const PowerOn := Machine(Init, 0, 0, 0.0, 0, false, 0, false, false)

  /** Does the implementation file define `state::react(event)`? */
  predicate HasBody(s: State, e: Event)
  {
    match s
    case Init => e == InitComplete
    case Idle => true
    case Reconnect =>
      e == DeviceConnected || e == BootButtonLongPress || e == ConnectionTimeout || e == ConnectionFailed
    case Pairing =>
      e == DeviceConnected || e == BootButtonLongPress || e == PairingTimeout || e == ConnectionFailed
    case Connected => true
    case MouseMotionDisable => true
    case MouseMotionEnable => e == BootButtonShortPress
  }

  /** Does the header declare `state::react(event)` as an override? */
  predicate Declared(s: State, e: Event)
  {
    match s
    case Init => e == InitComplete
    case Idle => e == BootButtonLongPress || e == BootButtonShortPress
    case Reconnect =>
      e == DeviceConnected || e == BootButtonLongPress || e == ConnectionTimeout || e == ConnectionFailed
    case Pairing =>
      e == DeviceConnected || e == BootButtonLongPress || e == PairingTimeout || e == ConnectionFailed
    case Connected => e == BootButtonLongPress || e == DeviceDisconnected
    case MouseMotionDisable => e == BootButtonShortPress
    case MouseMotionEnable => e == BootButtonShortPress
  }

  /**
   * The state that `state::react(event)` passes to `transit`, or None when the
   * reaction stays put (an empty or logging-only body, or no body at all).
   */
  function React(s: State, e: Event): (target: Option<State>)
    ensures !HasBody(s, e) ==> target == None
    ensures target != Some(Init) && target != Some(Idle)
  {
    match (s, e)
    case (Init, InitComplete) => Some(Reconnect)
    case (Idle, BootButtonLongPress) => Some(Pairing)
    case (Idle, DeviceConnected) => Some(Connected)
    case (Reconnect, DeviceConnected) => Some(Connected)
    case (Reconnect, BootButtonLongPress) => Some(Pairing)
    case (Pairing, DeviceConnected) => Some(Connected)
    case (Pairing, PairingTimeout) => Some(Reconnect)
    case (Pairing, ConnectionFailed) => Some(Reconnect)
    case (Connected, BootButtonShortPress) => Some(MouseMotionEnable)
    case (Connected, BootButtonLongPress) => Some(Pairing)
    case (Connected, DeviceDisconnected) => Some(Reconnect)
    case (MouseMotionDisable, BootButtonShortPress) => Some(MouseMotionEnable)
    case (MouseMotionDisable, BootButtonLongPress) => Some(Pairing)
    case (MouseMotionDisable, DeviceDisconnected) => Some(Reconnect)
    case (MouseMotionEnable, BootButtonShortPress) => Some(MouseMotionDisable)
    case _ => None
  }

  /** The transitions of the implementation file, one triple per `transit` call. */
  const Transitions: set<(State, Event, State)> := {
    (Init, InitComplete, Reconnect),
    (Idle, BootButtonLongPress, Pairing),
    (Idle, DeviceConnected, Connected),
    (Reconnect, DeviceConnected, Connected),
    (Reconnect, BootButtonLongPress, Pairing),
    (Pairing, DeviceConnected, Connected),
    (Pairing, PairingTimeout, Reconnect),
    (Pairing, ConnectionFailed, Reconnect),
    (Connected, BootButtonShortPress, MouseMotionEnable),
    (Connected, BootButtonLongPress, Pairing),
    (Connected, DeviceDisconnected, Reconnect),
    (MouseMotionDisable, BootButtonShortPress, MouseMotionEnable),
    (MouseMotionDisable, BootButtonLongPress, Pairing),
    (MouseMotionDisable, DeviceDisconnected, Reconnect),
    (MouseMotionEnable, BootButtonShortPress, MouseMotionDisable)
  }

  /** The event an `entry` action dispatches from inside the transition, if any. */
  function FollowUp(s: State, linked: bool): Option<Event>
  {
    match s
    case Init => Some(InitComplete)
    case Idle => if linked then Some(DeviceConnected) else None
    case _ => None
  }

  /** The data effect of `state::entry()` for the state `m` has just entered. */
  function EntryEffect(m: Machine, now: uint32): Machine
  {
    match m.state
    case Init => m.(d4 := false, d5 := false)
    case Idle => m.(d4 := false, d5 := false)
    case Reconnect => m.(reconnectStartTime := now)
    case Pairing => m.(pairingStartTime := now, blinkCount := 0, lastBlinkTime := now)
    case Connected => m.(d4 := true, d5 := true)
    case MouseMotionDisable => m.(d4 := true, d5 := true)
    case MouseMotionEnable => m.(angle := 0.0)
  }

  /** 1 for the states whose entry dispatches an event of its own, 0 for the others. */
  function Weight(s: State): nat
  {
    match s
    case Init => 1
    case Idle => 1
    case _ => 0
  }

  /**
   * A termination measure for dispatch. Only the entries of `Init` and `Idle`
   * dispatch, and no reaction targets either of them, so a chain of follow-up
   * events is at most one deep.
   */
  function Cost(s: State, e: Event): nat
  {
    match React(s, e)
    case None => 0
    case Some(t) => 1 + 2 * Weight(t)
  }

  /** Where a transition into `t` comes to rest once its entry's own dispatch has run. */
  function Settled(t: State, linked: bool): State
  {
    match t
    case Init => Reconnect
    case Idle => if linked then Connected else Idle
    case _ => t
  }

  /** What the entry of `r.state` guarantees right after it has run at time `now`. */
  predicate JustEntered(r: Machine, now: uint32)
  {
    match r.state
    case Init => !r.d4 && !r.d5
    case Idle => !r.d4 && !r.d5
    case Reconnect => r.reconnectStartTime == now
    case Pairing => r.pairingStartTime == now && r.blinkCount == 0 && r.lastBlinkTime == now
    case Connected => r.d4 && r.d5
    case MouseMotionDisable => r.d4 && r.d5
    case MouseMotionEnable => r.angle == 0.0
  }

  /**
   * tinyfsm's `transit<t>()`: run the (empty) exit, make `t` current, run its
   * entry, and process the event that entry dispatches, if any, before
   * returning.
   */
  function Transit(m: Machine, t: State, now: uint32, linked: bool): (r: Machine)
    decreases 2 * Weight(t)
    ensures r.state == Settled(t, linked)
    ensures JustEntered(r, now)
    ensures r.reconnectStartTime != m.reconnectStartTime ==> r.state == Reconnect && r.reconnectStartTime == now
    ensures r.pairingStartTime != m.pairingStartTime ==> r.state == Pairing && r.pairingStartTime == now
    ensures r.state == MouseMotionEnable ==> r.angle == 0.0
    ensures r.angle != m.angle ==> r.state == MouseMotionEnable
  {
    var entered := EntryEffect(m.(state := t), now);
    match FollowUp(t, linked)
    case None => entered
    case Some(next) => Dispatch(entered, next, now, linked)
  }

  /**
   * `BleMouseState::dispatch(event)`: run the current state's reaction and,
   * when it calls `transit`, the transition.
   */
  function Dispatch(m: Machine, e: Event, now: uint32, linked: bool): (r: Machine)
    decreases Cost(m.state, e)
    ensures !HasBody(m.state, e) ==> r == m
    ensures React(m.state, e) == None ==> r == m
    ensures React(m.state, e).Some? ==> r.state == Settled(React(m.state, e).value, linked) && JustEntered(r, now)
    ensures r.state == Init || r.state == Idle ==> r == m
    ensures r.reconnectStartTime != m.reconnectStartTime ==> r.state == Reconnect && r.reconnectStartTime == now
    ensures r.pairingStartTime != m.pairingStartTime ==> r.state == Pairing && r.pairingStartTime == now
    ensures r.angle != m.angle ==> r.state == MouseMotionEnable && r.angle == 0.0
  {
    match React(m.state, e)
    case None => m
    case Some(t) => Transit(m, t, now, linked)
  }

  /**
   * `set_initial_state` followed by tinyfsm's `start()`: make `Init` current
   * and run its entry, which dispatches `InitComplete` at once.
   */
  function Start(now: uint32, linked: bool): (m: Machine)
    ensures m.state == Reconnect
    ensures m.reconnectStartTime == now
    ensures !m.d4 && !m.d5
  {
    Transit(PowerOn, Init, now, linked)
  }

  /** The reconnect timeout condition: strictly more than 30 s since `Reconnect` was entered. */
  predicate ReconnectTimedOut(m: Machine, now: uint32)
  {
    Elapsed(now, m.reconnectStartTime) > RECONNECT_TIMEOUT
  }

  /** The pairing timeout condition: strictly more than 60 s since `Pairing` was entered. */
  predicate PairingTimedOut(m: Machine, now: uint32)
  {
    Elapsed(now, m.pairingStartTime) > PAIRING_TIMEOUT
  }

  /**
   * `Reconnect::checkTimeout`: dispatch `ConnectionTimeout` once the deadline has
   * passed. No state transits on `ConnectionTimeout`, so the watchdog never has
   * an effect, before or after the deadline.
   */
  function ReconnectCheckTimeout(m: Machine, now: uint32, linked: bool): (r: Machine)
    ensures r == m
  {
    if ReconnectTimedOut(m, now) then Dispatch(m, ConnectionTimeout, now, linked) else m
  }

  /** `Pairing::checkTimeout`: dispatch `PairingTimeout` once the deadline has passed. */
  function PairingCheckTimeout(m: Machine, now: uint32, linked: bool): (r: Machine)
    ensures !PairingTimedOut(m, now) ==> r == m
    ensures m.state == Pairing ==> (r.state == Reconnect <==> PairingTimedOut(m, now))
    ensures m.state == Pairing && PairingTimedOut(m, now) ==> r.reconnectStartTime == now
  {
    if PairingTimedOut(m, now) then Dispatch(m, PairingTimeout, now, linked) else m
  }

  /**
   * `MouseMotionEnable::updateLED`: every 250 ms or more, flip `ledState` and
   * drive D4 to it and D5 to its opposite.
   */
  function UpdateLed(m: Machine, now: uint32): (r: Machine)
    ensures Elapsed(now, m.lastBlinkTime) < LED_TOGGLE_INTERVAL ==> r == m
    ensures Elapsed(now, m.lastBlinkTime) >= LED_TOGGLE_INTERVAL ==>
      && r.ledState == !m.ledState
      && r.d4 == r.ledState && r.d5 == !r.d4
      && r.lastBlinkTime == now
      && r.(ledState := m.ledState, d4 := m.d4, d5 := m.d5, lastBlinkTime := m.lastBlinkTime) == m
  {
    if Elapsed(now, m.lastBlinkTime) >= LED_TOGGLE_INTERVAL then
      var s := !m.ledState;
      m.(ledState := s, d4 := s, d5 := !s, lastBlinkTime := now)
    else
      m
  }

  /** One event together with the clock reading and link status when it is dispatched. */
  datatype Input = Input(event: Event, now: uint32, linked: bool)

  /** Dispatch a sequence of events in arrival order. */
  function Run(m: Machine, inputs: seq<Input>): Machine
    decreases |inputs|
  {
    if |inputs| == 0 then m
    else Run(Dispatch(m, inputs[0].event, inputs[0].now, inputs[0].linked), inputs[1..])
  }

  // ---------------------------------------------------------------------------
  // The transition table

  /** `React` agrees with the table of `transit` calls in both directions. */
  lemma ReactMatchesTransitions(s: State, e: Event, t: State)
    ensures React(s, e) == Some(t) <==> (s, e, t) in Transitions
  {
  }

  /** Every reaction the header declares has a body; the converse fails. */
  lemma DeclaredHaveBodies(s: State, e: Event)
    ensures Declared(s, e) ==> HasBody(s, e)
    ensures HasBody(Idle, DeviceConnected) && !Declared(Idle, DeviceConnected)
    ensures HasBody(Connected, BootButtonShortPress) && !Declared(Connected, BootButtonShortPress)
  {
  }

  /** `Init` overrides only `InitComplete`; `MouseMotionEnable` overrides only the short press. */
  lemma OverridesOfInitAndMotionEnable(e: Event)
    ensures HasBody(Init, e) <==> e == InitComplete
    ensures HasBody(MouseMotionEnable, e) <==> e == BootButtonShortPress
    ensures Declared(Init, e) <==> e == InitComplete
    ensures Declared(MouseMotionEnable, e) <==> e == BootButtonShortPress
  {
  }

  /** Starting in `Init`, only `InitComplete` does anything. */
  lemma InitHandlesOnlyInitComplete(m: Machine, e: Event, now: uint32, linked: bool)
    requires m.state == Init
    ensures e != InitComplete ==> Dispatch(m, e, now, linked) == m
    ensures e == InitComplete ==>
      Dispatch(m, e, now, linked) == m.(state := Reconnect, reconnectStartTime := now)
  {
  }

  /** A long press enters `Pairing` from `Idle`, `Reconnect`, `Connected` and `MouseMotionDisable` only. */
  lemma LongPressEntersPairing(m: Machine, now: uint32, linked: bool)
    ensures
      var r := Dispatch(m, BootButtonLongPress, now, linked);
      if m.state in {Idle, Reconnect, Connected, MouseMotionDisable} then
        r == m.(state := Pairing, pairingStartTime := now, blinkCount := 0, lastBlinkTime := now)
      else
        r == m
  {
  }

  /** `DeviceConnected` moves `Idle`, `Reconnect` and `Pairing` to `Connected` and lights both LEDs. */
  lemma DeviceConnectedTable(m: Machine, now: uint32, linked: bool)
    ensures
      var r := Dispatch(m, DeviceConnected, now, linked);
      if m.state in {Idle, Reconnect, Pairing} then r == m.(state := Connected, d4 := true, d5 := true)
      else r == m
  {
  }

  /** `DeviceDisconnected` moves `Connected` and `MouseMotionDisable` back to `Reconnect` and nothing else. */
  lemma DeviceDisconnectedTable(m: Machine, now: uint32, linked: bool)
    ensures
      var r := Dispatch(m, DeviceDisconnected, now, linked);
      if m.state in {Connected, MouseMotionDisable} then r == m.(state := Reconnect, reconnectStartTime := now)
      else r == m
  {
  }

  /** The short press toggles motion: `Connected`/`MouseMotionDisable` enable it (resetting
      the angle), `MouseMotionEnable` disables it, every other state ignores it. */
  lemma ShortPressTable(m: Machine, now: uint32, linked: bool)
    ensures
      var r := Dispatch(m, BootButtonShortPress, now, linked);
      if m.state in {Connected, MouseMotionDisable} then r == m.(state := MouseMotionEnable, angle := 0.0)
      else if m.state == MouseMotionEnable then r == m.(state := MouseMotionDisable, d4 := true, d5 := true)
      else r == m
  {
  }

  /** Failures and timeouts: `Pairing` falls back to `Reconnect`; `Reconnect` stays put
      without re-arming its start time; nothing else reacts. */
  lemma FailureTable(m: Machine, now: uint32, linked: bool)
    ensures
      var r := Dispatch(m, PairingTimeout, now, linked);
      if m.state == Pairing then r == m.(state := Reconnect, reconnectStartTime := now) else r == m
    ensures
      var r := Dispatch(m, ConnectionFailed, now, linked);
      if m.state == Pairing then r == m.(state := Reconnect, reconnectStartTime := now) else r == m
    ensures Dispatch(m, ConnectionTimeout, now, linked) == m
  {
  }

  // ---------------------------------------------------------------------------
  // Reachability

  /** Once the machine is out of `Init` and `Idle`, no dispatch brings it back. */
  lemma {:induction false} RunAvoidsInitAndIdle(m: Machine, inputs: seq<Input>)
    requires m.state != Init && m.state != Idle
    ensures Run(m, inputs).state != Init && Run(m, inputs).state != Idle
    decreases |inputs|
  {
    if |inputs| > 0 {
      var next := Dispatch(m, inputs[0].event, inputs[0].now, inputs[0].linked);
      RunAvoidsInitAndIdle(next, inputs[1..]);
    }
  }

  /** After start-up `Init` is never re-entered and `Idle` is never reached. */
  lemma AfterStartNeverInitOrIdle(now: uint32, linked: bool, inputs: seq<Input>)
    ensures Run(Start(now, linked), inputs).state != Init
    ensures Run(Start(now, linked), inputs).state != Idle
  {
    RunAvoidsInitAndIdle(Start(now, linked), inputs);
  }

  /** `MouseMotionDisable` is entered only from `MouseMotionEnable` by a short press,
      and that is reachable after `start()`: connect, then press twice. */
  lemma MotionDisableReachable(e: Event, s: State, t0: uint32, t1: uint32, t2: uint32, t3: uint32)
    ensures React(s, e) == Some(MouseMotionDisable) <==> s == MouseMotionEnable && e == BootButtonShortPress
    ensures Run(Start(t0, false), [Input(DeviceConnected, t1, true),
      Input(BootButtonShortPress, t2, true), Input(BootButtonShortPress, t3, true)]).state == MouseMotionDisable
  {
    var inputs := [Input(DeviceConnected, t1, true),
      Input(BootButtonShortPress, t2, true), Input(BootButtonShortPress, t3, true)];
    var m0 := Start(t0, false);
    var m1 := Dispatch(m0, DeviceConnected, t1, true);
    assert m1.state == Connected;
    var m2 := Dispatch(m1, BootButtonShortPress, t2, true);
    assert m2.state == MouseMotionEnable;
    var m3 := Dispatch(m2, BootButtonShortPress, t3, true);
    assert m3.state == MouseMotionDisable;
    assert inputs[1..][1..][1..] == [];
    assert Run(m0, inputs) == Run(m1, inputs[1..]) == Run(m2, inputs[1..][1..]) == Run(m3, []);
  }

  // ---------------------------------------------------------------------------
  // Timers

  /** The reconnect check fires exactly when strictly more than 30 s have elapsed,
      measured correctly across a wrap of the clock. */
  lemma ReconnectTimeoutAfter(m: Machine, d: nat)
    requires d < MODULUS
    ensures ReconnectTimedOut(m, Later(m.reconnectStartTime, d)) <==> d > 30000
  {
    ElapsedLater(m.reconnectStartTime, d);
  }

  /** The pairing check fires exactly when strictly more than 60 s have elapsed,
      measured correctly across a wrap of the clock. */
  lemma PairingTimeoutAfter(m: Machine, d: nat)
    requires d < MODULUS
    ensures PairingTimedOut(m, Later(m.pairingStartTime, d)) <==> d > 60000
  {
    ElapsedLater(m.pairingStartTime, d);
  }

  /** Two toggles of `updateLED` restore the LED state, and after each D5 is the opposite of D4. */
  lemma UpdateLedTwice(m: Machine, t1: uint32, t2: uint32)
    requires Elapsed(t1, m.lastBlinkTime) >= LED_TOGGLE_INTERVAL
    requires Elapsed(t2, t1) >= LED_TOGGLE_INTERVAL
    ensures UpdateLed(UpdateLed(m, t1), t2).ledState == m.ledState
    ensures UpdateLed(UpdateLed(m, t1), t2).d5 == !UpdateLed(UpdateLed(m, t1), t2).d4
  {
  }
}
