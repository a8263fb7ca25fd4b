# BLE mouse controllers, modelled in Dafny

This project models the control logic of an ESP32-C3 BLE mouse firmware. It
covers three separate sequential controllers. Each is a pure function over an
explicit state record. The clock (`millis()`, an `unsigned long`, which is
32 bits wide on this target) is an input, and so are the button level and the
link status. Pin writes are recorded as the last level written to LEDs D4 and D5.

- `state_machine.dfy` (module `StateMachine`) is the tinyfsm lifecycle
  machine. It has seven states (`Init`, `Idle`, `Reconnect`, `Pairing`,
  `Connected`, `MouseMotionDisable`, `MouseMotionEnable`) and eight
  payload-free events.
  - `Dispatch(m, e, now, linked)` runs one reaction. `Transit` runs the
    entry action of the target state. An entry action may dispatch a
    follow-up event: `Init` dispatches `InitComplete`, and `Idle` dispatches
    `DeviceConnected` when a client is already connected. That follow-up is
    processed before `Transit` returns.
  - The per-state data are all in one record: `reconnectStartTime`,
    `pairingStartTime`, the reset of `angle`, and the extern globals
    `blinkCount`, `lastBlinkTime` and `ledState`.
  - The module also has the two timeout checks and the 250 ms LED toggle of
    `MouseMotionEnable`.
- `led_controller.dfy` (module `LedController`) models `LEDController`.
  - Its class-static fields are one record. The function-local
    `static int heartbeatStep` is an explicit field.
  - As written, `setState` always switches the mode to ON, and `setMode` calls
    `setState` after assigning the mode. So the controller only ever holds OFF
    or ON, and the blinking branches of `update` cannot be reached. The module proves this.
    It also holds the evidently intended version (see Findings).
- `main_loop.dfy` (module `MainLoop`) models the older polling controller in
  `src/main.cpp`. It has:
  - a press-start latch, with 0 meaning "not pressed";
  - a 5 s hold that enters pairing mode;
  - a release under 1 s that toggles motion;
  - a 333 ms blink while pairing, which ends when a link comes up.

  It shares no state with the tinyfsm machine.
- `ctypes.dfy` (module `CTypes`) holds the 32-bit integer types. It also
  holds the wrap-around subtraction that every timer uses. `wrappers.dfy`
  holds `Option`.

Transition table. The header and the implementation file disagree about which
reactions each state overrides. `Idle::react(DeviceConnected)`,
`Connected::react(BootButtonShortPress)` and most `MouseMotionDisable`
reactions have bodies but no declaration. The model takes the table from the
bodies. Every (state, event) pair without a body falls back to the base class's
empty `react`, so it changes nothing.

Some consequences of the transition table, as the code has it:
- `Connected::entry` only lights both LEDs and does not move on to
  `MouseMotionDisable`. That state is entered only from `MouseMotionEnable`,
  by a short press.
- `MouseMotionEnable` has no `DeviceDisconnected` reaction, so it stays put
  when the link drops.
- In `Reconnect`, `ConnectionTimeout` and `ConnectionFailed` only log. They do
  not re-arm the start time.
- `InitComplete` leads to `Reconnect`. No reaction leads to `Idle`, so `Idle`
  is unreachable.

## Model

| member | source | states |
|---|---|---|
| `CTypes.Elapsed` | src/state_machine.cpp:142 | `now - since` in 32-bit unsigned arithmetic: the plain difference when `now >= since`, and `2^32` minus the gap when the clock has wrapped |
| `CTypes.ElapsedLater` | src/main.cpp:56 | the elapsed time since `since`, read at the clock value `d` ms later, is exactly `d`, for every `d < 2^32`, including across a wrap |
| `CTypes.ToUnsigned` | src/led_controller.cpp:138-139 | assigning an `int` to an `unsigned long` keeps non-negative values and adds `2^32` to negative ones |
| `StateMachine.React` | src/state_machine.cpp:39-309 | the target of each reaction body: a pair without a body never transits, and no reaction targets `Init` or `Idle` |
| `StateMachine.ReactMatchesTransitions` | src/state_machine.cpp:39-309 | `React(s, e) == Some(t)` holds exactly for the 15 `transit` calls of the implementation file, in both directions |
| `StateMachine.DeclaredHaveBodies` | src/state_machine.h:31-95 | every override the header declares has a body; `Idle`/`DeviceConnected` and `Connected`/`BootButtonShortPress` have bodies but no declaration |
| `StateMachine.OverridesOfInitAndMotionEnable` | src/state_machine.h:31-95 | `Init` overrides exactly `InitComplete`, and `MouseMotionEnable` overrides exactly the short press. This holds both for the header's declarations and for the implementation file's bodies |
| `StateMachine.Transit` | src/state_machine.cpp:26-304 | entering `t` runs its entry action and any event that entry dispatches. The result settles in `Settled(t)` (`Init` ends in `Reconnect`; `Idle` ends in `Connected` when a client is connected). The entry's guarantees hold: start time, blink data, LEDs, angle |
| `StateMachine.Dispatch` | src/state_machine.h:18-27 | a pair without a `react` body leaves the whole machine unchanged. A reaction that transits ends in the settled target with its entry's guarantees. A dispatch never ends in `Init` or `Idle` unless nothing changed. The start times and the angle change only on entry to their own state |
| `StateMachine.Start` | src/state_machine.cpp:26-44 | starting in `Init`, the entry's own `InitComplete` moves to `Reconnect` with `reconnectStartTime = now` and both LEDs low |
| `StateMachine.InitHandlesOnlyInitComplete` | src/state_machine.cpp:26-44 | in `Init`, every event except `InitComplete` changes nothing; `InitComplete` moves to `Reconnect` and stamps the start time |
| `StateMachine.LongPressEntersPairing` | src/state_machine.cpp:64-309 | a long press moves `Idle`, `Reconnect`, `Connected` and `MouseMotionDisable` to `Pairing` (stamping `pairingStartTime`/`lastBlinkTime`, zeroing `blinkCount`) and leaves every other state unchanged |
| `StateMachine.DeviceConnectedTable` | src/state_machine.cpp:74-273 | `DeviceConnected` moves `Idle`, `Reconnect` and `Pairing` to `Connected` with both LEDs lit; it leaves every other state unchanged |
| `StateMachine.DeviceDisconnectedTable` | src/state_machine.cpp:79-309 | `DeviceDisconnected` moves `Connected` and `MouseMotionDisable` to `Reconnect`; `Idle`, `Pairing` and `MouseMotionEnable` are unchanged |
| `StateMachine.ShortPressTable` | src/state_machine.cpp:69-309 | the short press moves `Connected`/`MouseMotionDisable` to `MouseMotionEnable` with `angle = 0`, and `MouseMotionEnable` to `MouseMotionDisable` with both LEDs lit. Every other state ignores it |
| `StateMachine.FailureTable` | src/state_machine.cpp:105-176 | `PairingTimeout`/`ConnectionFailed` move `Pairing` to `Reconnect`. In `Reconnect` they do nothing, so `reconnectStartTime` is not re-armed. `ConnectionTimeout` changes nothing in any state |
| `StateMachine.RunAvoidsInitAndIdle` | src/state_machine.cpp:43-308 | from any state other than `Init`/`Idle`, no sequence of events ever reaches `Init` or `Idle` |
| `StateMachine.AfterStartNeverInitOrIdle` | src/state_machine.cpp:26-308 | after start-up, `Init` is never re-entered and `Idle` is never reached, whatever events arrive |
| `StateMachine.MotionDisableReachable` | src/state_machine.cpp:112-309 | only a short press in `MouseMotionEnable` leads to `MouseMotionDisable`, and after `start()` a connect followed by two short presses gets there (Reconnect, Connected, MouseMotionEnable, MouseMotionDisable) |
| `StateMachine.ReconnectCheckTimeout` | src/state_machine.cpp:141-145 | the check never changes the machine, before or after the deadline, in any state. No state has a `ConnectionTimeout` reaction that transits, so the reconnect watchdog has no effect |
| `StateMachine.PairingCheckTimeout` | src/state_machine.cpp:195-199 | in `Pairing`, the machine moves to `Reconnect` exactly when the pairing timeout has passed, re-arming the reconnect start time; otherwise nothing changes |
| `StateMachine.ReconnectTimeoutAfter` | src/state_machine.cpp:141-145 | the reconnect check fires `d` ms after entry exactly when `d > 30000`, strictly, for every `d < 2^32`, including across a clock wrap |
| `StateMachine.PairingTimeoutAfter` | src/state_machine.cpp:195-199 | the pairing check fires `d` ms after entry exactly when `d > 60000`, strictly, across a clock wrap as well |
| `StateMachine.UpdateLed` | src/state_machine.cpp:331-340 | under 250 ms since the last toggle nothing changes. Otherwise `ledState` flips, D4 shows it, D5 shows its opposite, `lastBlinkTime := now`, and nothing else changes |
| `StateMachine.UpdateLedTwice` | src/state_machine.cpp:331-340 | two due toggles restore `ledState`, and D5 is the opposite of D4 afterwards |
| `LedController.Init` | src/led_controller.cpp:12-23 | after `init` the controller is initialised. A second call changes nothing. A first call sets OFF with both LEDs off and leaves the other fields alone |
| `LedController.InitIdempotent` | src/led_controller.cpp:12-23 | `init` applied twice equals `init` applied once |
| `LedController.SetState` | src/led_controller.cpp:25-31 | `setState(d4, d5)` records both levels, forces the mode to ON, and changes nothing else |
| `LedController.SetMode` | src/led_controller.cpp:33-65 | after `setMode(m)`, the mode is ON for every `m`. The LEDs show `m`'s initial levels. The blink modes install 250/1000/333/500 ms and stamp `lastBlinkTime`. OFF/ON keep both unchanged |
| `LedController.GetMode` | src/led_controller.cpp:67-69 | `getMode()` reports OFF or ON exactly when the controller holds a static mode |
| `LedController.GetModeAfterAnyHistory` | src/led_controller.cpp:25-146 | after any sequence of public calls from the static initialisers, `getMode()` reports OFF or ON and never a blinking mode |
| `LedController.SetModeAlwaysReportsOn` | src/led_controller.cpp:33-69 | `getMode()` after `setMode(m)` is ON, so it differs from `m` for every `m` other than ON, OFF included |
| `LedController.HeartbeatBeat` | src/led_controller.cpp:112-123 | the heartbeat counter stays in 0..3. From step `k` it moves to `(k+1) mod 4` and writes on exactly when `k` is odd: off, on, off, on |
| `LedController.Update` | src/led_controller.cpp:71-127 | an uninitialised controller is only initialised. OFF/ON change nothing. Before the interval has elapsed nothing changes. Otherwise the mode is kept or becomes ON |
| `LedController.TurnOff` | src/led_controller.cpp:130-132 | both LEDs end off and the reported mode is ON |
| `LedController.TurnOn` | src/led_controller.cpp:134-136 | both LEDs end on and the reported mode is ON |
| `LedController.BlinkSync` | src/led_controller.cpp:138-141 | whatever interval is passed (the default is 1000), the stored interval ends as 1000 and the mode as ON |
| `LedController.BlinkAlternate` | src/led_controller.cpp:143-146 | whatever interval is passed (the default is 500), the stored interval ends as 250 and the mode as ON |
| `LedController.ApplyKeepsSteady` | src/led_controller.cpp:7-65 | every public call keeps the mode in {OFF, ON} |
| `LedController.RunKeepsSteady` | src/led_controller.cpp:7-65 | from a mode in {OFF, ON}, including the static initial OFF, every sequence of calls keeps it in {OFF, ON} |
| `LedController.UpdateIsInertAfterAnyHistory` | src/led_controller.cpp:79-127 | after any history of calls from the static initial values, `update` on an initialised controller changes nothing: the blink and heartbeat branches are dead |
| `LedController.HeartbeatBranch` | src/led_controller.cpp:109-125 | if the heartbeat branch ran, it would advance the counter `k` to `(k+1) mod 4` and write on exactly for odd `k`, but only once the interval has elapsed; the mode then becomes ON |
| `LedController.HeartbeatPeriod` | src/led_controller.cpp:112-123 | four heartbeat steps return the counter to its start |
| `LedController.SetModeLosesBlinkMode` | src/led_controller.cpp:30-50 | as written, `setMode(SLOW_BLINK)` leaves `getMode()` at ON; the intended version reports SLOW_BLINK |
| `LedController.BlinkAlternateIgnoresInterval` | src/led_controller.cpp:143-146 | as written, `blinkAlternate(500)` installs 250 ms; the intended version installs 500 ms |
| `LedController.SetModeIntended` | src/led_controller.cpp:33-65 | intended `setMode(m)`: `getMode()` returns `m`, the LEDs show `m`'s initial levels, and blink modes get their interval |
| `LedController.UpdateIntended` | src/led_controller.cpp:71-127 | intended `update`: once initialised, it never changes the mode |
| `LedController.BlinkSyncIntended` | src/led_controller.cpp:138-141 | intended `blinkSync(ms)`: mode SLOW_BLINK with interval `ms` |
| `LedController.BlinkAlternateIntended` | src/led_controller.cpp:143-146 | intended `blinkAlternate(ms)`: mode ALTERNATE with interval `ms` |
| `LedController.IntendedAlternateBlinks` | src/led_controller.cpp:101-107 | with the intended controller, take the first two updates after `SetModeIntended(c, Alternate, t0)`, each at least 250 ms after the previous clock stamp. Each keeps D4 and D5 opposite and stays in ALTERNATE, and the second swaps the levels of the first |
| `LedController.IntendedHeartbeatCycles` | src/led_controller.cpp:109-125 | with the intended controller, four due heartbeat updates return the counter to its start and stay in HEARTBEAT |
| `MainLoop.EnterPairingMode` | src/main.cpp:90-93 | sets pairing mode, `blinkCount = 0`, `lastBlinkTime = now`, and nothing else |
| `MainLoop.ToggleMouseMotion` | src/main.cpp:120-130 | flips `isMouseMoving`, drives D5 to the new value, and changes nothing else |
| `MainLoop.HandlePairingModeBlink` | src/main.cpp:102-118 | `ledState` toggles exactly when at least 333 ms have elapsed, and then `lastBlinkTime := now`. A live link clears pairing mode and drives D4 low. Motion, D5, the latch and `blinkCount` are untouched |
| `MainLoop.HandleButton` | src/main.cpp:49-75 | a press with the latch at 0 stores `now`, and a continued press keeps it. A hold of at least 5000 ms enters pairing mode, only when not already pairing. A release always clears the latch, and it toggles motion exactly when the press lasted under 1000 ms. Such a release changes nothing but motion, D5 and the latch, and when motion flips D5 shows the new value |
| `MainLoop.Step` | src/main.cpp:45-88 | motion is emitted exactly when `isMouseMoving` holds and the link is up. A connected pass always leaves pairing mode. Pairing begins only from a held press. Motion toggles exactly on a short release, and D5 then shows it |
| `MainLoop.ToggleTwice` | src/main.cpp:120-130 | toggling motion twice restores the globals |
| `MainLoop.StepShowsMotion` | src/main.cpp:45-130 | one pass keeps D5 equal to `isMouseMoving` |
| `MainLoop.RunShowsMotion` | src/main.cpp:19-130 | starting with D5 equal to `isMouseMoving` (as at boot), every sequence of passes keeps them equal |
| `MainLoop.PairingDoesNotRefire` | src/main.cpp:55-61 | while pairing, holding the button does not re-enter pairing: blink counter and blink clock are untouched |
| `MainLoop.LongHoldEntersPairing` | src/main.cpp:55-61 | a hold of at least 5000 ms enters pairing (with `blinkCount = 0`), unless the link is up in the same pass, which ends it at once |
| `MainLoop.SlowReleaseOnlyClearsLatch` | src/main.cpp:63-75 | a release after 1000 ms or more only clears the latch |
| `MainLoop.ShortPressTogglesMotion` | src/main.cpp:49-75 | a press at a non-zero time and a release less than 1000 ms later toggle motion once and clear the latch |

## Left out

- BLE and HID calls are not modelled: advertising stop and start in `startPairing`, `bleMouse.begin`/`end`, report `setValue`/`notify`. `Serial` logging, `pinMode`, `digitalRead` and `delay` are left out too. Pin levels are recorded booleans. Button level, link status and `millis()` are inputs.
- `Idle::entry` reads `pServer->getConnectedCount()`. In the model this is the boolean parameter `linked`.
- Both `moveMouse` functions are left out because they are floating-point motion (`cos`/`sin`, `angle += 0.1`). Only the reset of `angle` on entry to `MouseMotionEnable` is modelled. `MainLoop.Step` reports only whether `moveMouse` would run.
- tinyfsm internals beyond "current state and dispatch" are left out. The `exit` actions are all the empty base-class one.
- `checkTimeout` is private, and nothing in `src/state_machine.cpp`, `src/state_machine.h` or `src/main.cpp` calls it. It is modelled as a callable function of the machine.
- The extern globals `lastBlinkTime`, `ledState` and `blinkCount` are defined outside `src/state_machine.cpp`. Their definitions for the tinyfsm build are not part of this model. They start at zero, as the per-state static instances do.
- MainLoop.Step: all `millis()` reads of one pass see the same `now`. In the source, `enterPairingMode` stores `lastBlinkTime` and then waits 1000 ms before `handlePairingModeBlink` reads the clock again. Since 1000 >= 333, the first blink of a new pairing mode always comes on that same pass in the source. The model shows it one pass later.
- StateMachine.Dispatch: each dispatch, including every entry action it runs, sees one clock reading `now`. `Pairing::entry` reads `millis()` twice, once for `pairingStartTime` and once for `lastBlinkTime`. The model gives both the same value, while in the source the second may be a tick later.
- The header/implementation mismatch means the implementation file would not compile as written. The model resolves it as described above, not by choosing either file wholesale.

## Findings

| source | as written | input that shows it | evidently intended | confidence | as-written member | corrected member |
|---|---|---|---|---|---|---|
| src/led_controller.cpp:30-63 | `setMode` stores the mode, then calls `setState`, which overwrites it with ON | `setMode(SLOW_BLINK)` then `getMode()` returns ON, and `update` never blinks | `setMode` keeps the requested mode so that `update` drives the blink patterns; the ON override is meant for manual `setState` calls only | high, not executed | `LedController.SetModeLosesBlinkMode` | `LedController.SetModeIntended` |
| src/led_controller.cpp:138-146 | `blinkSync`/`blinkAlternate` store `intervalMs`, then `setMode` overwrites it | `blinkAlternate()` with its default argument 500 installs 250 ms | the argument is the blink interval | high, not executed | `LedController.BlinkAlternateIgnoresInterval` | `LedController.BlinkAlternateIntended` |
