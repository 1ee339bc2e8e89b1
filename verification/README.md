# RGB LED node command interpreter, modelled in Dafny

This project models the command interpreter of one node on an addressable
lighting bus. A remote controller sends commands, either broadcast (address 0)
or to one node (addresses 1 to 15). The node changes its tri-colour LED and may
send feedback. The model has three layers:

- **Engine** (`engine.dfy`, `base_state_class`). This is a generic
  run-to-completion state machine.
  - `TRAN` only records a target and raises a flag.
  - After the handler returns, `process` sends EXIT to the outgoing state.
    It then makes the target current, clears the flag and sends ENTER to the
    new state.
  - Handlers are pure functions. A handler returns its new context, the
    `TRAN` targets it requested in order, and its outputs. Repeated `TRAN`
    calls therefore fold, and the last one wins.
- **LED colour store** (`rgb_led.dfy`, `rgb_led_class`). It holds an RGB
  triple, a cached HSL copy and the cache's validity flag.
  - Writing RGB invalidates the cache.
  - Writing HSL stores the RGB conversion and leaves the cache valid.
  - `getHue`, `getSaturation` and the HSL setters refresh the cache lazily.
    `getIntensity` never refreshes it.
  - The colour-space conversions are uninterpreted. So is the narrowing of
    an HSL component to a feedback byte. All three are fields of a
    `Conversions` value that every operation receives.
- **Node state machine** (`node_machine.dfy`, `rgb_node_state_machine`).
  - There are six adjustment modes, and every handler starts with the same
    address filter.
  - One command table covers: mode select, encoder turns with per-property
    clamp or wrap, press/release step registers, only-R/G/B, all-off/half/on,
    select (blink), force-feedback and the status LED.
  - The reply policy is asymmetric: node 1 answers a broadcast, and only the
    addressee answers a unicast.
  - The intensity handler's ENTER case has no `break`, so it falls through
    into the controller table.
  - The constructor handles the initial ENTER while the node address is
    still 0, before the DIP switches are read. As a result, construction
    never emits feedback.

`node_properties.dfy` proves properties of whole engine steps: one event
through `process`, including the deferred exit and entry it may cause.

The engine's constructor sets only the source and kind of its ENTER/EXIT
events (src_code/state_class.h:54-55). Their data byte is left to
`event_element_class` in `event_listing.h`, which is not part of this model,
so the model takes it as a parameter (`sysData`). If it is 0, entry
feedback goes out from node 1 only, because that is how the reply policy
treats address 0.

In the HSL modes, the only-R/G/B commands send the governed HSL value as
feedback after each of them
(src_code/rgb_node_state_machine.h:633-662, :791-820, :947-976).

The hue thresholds 0.99 and 0.01 are not 1 and 0, so a wrapped hue can leave
[0, 1]. `NodeMachine.StepComponent` states when the wrap happens, and
`NodeProperties.HueTurnStaysInBand` keeps the hue within (-0.01, 1.01)
however many turns are made.
`NodeProperties.HueCanWrapBelowZero` shows 0.99 turning to -0.006.

Saturation stays within [0.01, 0.99] only once it has entered that band. A
grey converts to saturation 0, and the clockwise path clamps only the top,
so one small clockwise turn from 0 stores 0.004
(`NodeProperties.SaturationCanSitBelowBand`). From any start in [0, 1] the
saturation stays in [0, 1], and it is strictly between 0 and 1 from the
first turn the node acts on, wherever in the run that turn comes
(`NodeProperties.SaturationRunStaysInUnit`,
`NodeProperties.SaturationRunAfterTurn`). A turn the node filters out
leaves a saturation of 0 at 0.

## Model

| member | source | states |
|---|---|---|
| `Engine.Construct` | src_code/state_class.h:51-62 | construction makes the initial state current with no transition pending and builds ENTER and EXIT with source state-machine and kinds enter/exit; no handler runs |
| `Engine.Tran` | src_code/state_class.h:72-75 | `TRAN` stores the target in `next_state`, raises `transition`, and leaves the current state as it is |
| `Engine.TranAll` | src_code/state_class.h:72-75 | after a handler's `TRAN` calls the pending target is the last one requested and the current state is unchanged; with no calls nothing changes |
| `Engine.LastTranWins` | src_code/state_class.h:72-75 | a second `TRAN` before the engine acts overwrites the first without error: last write wins |
| `Engine.Settle` | src_code/state_class.h:65-71 | with no transition pending the deferred step changes nothing and emits nothing |
| `NodeMachine.Step` | src_code/state_class.h:64-67 | `process` on the node keeps the ENTER and EXIT events and the node address, and an idle machine ignores a message for another node |
| `Engine.Process` | src_code/state_class.h:65-71 | `process` never alters the ENTER and EXIT events the machine was built with |
| `Engine.ProcessWithoutRequest` | src_code/state_class.h:65-71 | a handler that calls no `TRAN` leaves the state current and the step's output is the handler's own |
| `Engine.ProcessWithRequest` | src_code/state_class.h:65-71 | after a handler that called `TRAN`, the old state sees EXIT, the last target becomes current and sees ENTER, outputs come in that order, and nothing stays pending |
| `Engine.ExternalTran` | src_code/state_class.h:77-79 | a forced transition keeps the machine's ENTER and EXIT events |
| `Engine.ExternalTranSwitches` | src_code/state_class.h:77-79 | a forced transition takes effect at once: EXIT to the current state, then the target becomes current and sees ENTER, even when it is the current state |
| `RgbLed.Init` | src_code/rgb_led_class.h:53-71 | construction clears every channel to 0 and leaves the HSL cache invalid |
| `RgbLed.GetRgb` | src_code/rgb_led_class.cpp:80-85 | `get(RgbColor)` returns the triple whose channels are those the channel getters return |
| `RgbLed.GetHsl` | src_code/rgb_led_class.cpp:94-101 | `get(HslColor)` returns the cached colour when the cache is valid and the conversion of the RGB triple otherwise; when the cache is sound the HSL view agrees with the RGB view |
| `RgbLed.GetChannel` | src_code/rgb_led_class.h:142-166 | `getRed`/`getGreen`/`getBlue` return the matching channel of the stored triple |
| `RgbLed.GetIntensity` | src_code/rgb_led_class.h:223-228 | `getIntensity` returns the lightness a refreshing read would return, the cached one when valid and the converted one otherwise, without changing the store |
| `RgbLed.SetRgb` | src_code/rgb_led_class.cpp:43-55 | `set(RgbColor)` stores exactly the given triple and marks the HSL cache invalid |
| `RgbLed.SetHsl` | src_code/rgb_led_class.cpp:66-78 | `set(HslColor)` makes the HSL view the given colour, stores its RGB conversion, and ends with the cache valid despite the inner RGB write |
| `RgbLed.RgbRoundTrip` | src_code/rgb_led_class.cpp:80-101 | `get(RgbColor)` returns what was set; with the cache invalid, `get(HslColor)` returns the conversion of the stored RGB |
| `RgbLed.HslRoundTrip` | src_code/rgb_led_class.cpp:94-101 | reading back an HSL write with `get(HslColor)` gives the written colour exactly, whatever the conversions do |
| `RgbLed.Refresh` | src_code/rgb_led_class.h:175-183 | the refresh prologue leaves the cache valid, changes neither view, and does nothing when the cache is already valid |
| `RgbLed.InitialViews` | src_code/rgb_led_class.h:53-71 | construction clears RGB to black and marks the cache invalid, so the HSL view is the conversion of black |
| `RgbLed.RgbOn` | src_code/rgb_led_class.h:81-89 | `RGB_On` sets all three channels to 255 and invalidates the cache |
| `RgbLed.RgbOff` | src_code/rgb_led_class.h:91-101 | `RGB_Off` sets all three channels to 0 and invalidates the cache |
| `RgbLed.HslOn` | src_code/rgb_led_class.h:103-115 | `HSL_On`, against its name, sets lightness to 0 and keeps hue and saturation |
| `RgbLed.HslOff` | src_code/rgb_led_class.h:117-129 | `HSL_Off`, against its name, sets lightness to 0.99 and keeps hue and saturation |
| `RgbLed.SetChannel` | src_code/rgb_led_class.h:142-173 | `setRed`/`setGreen`/`setBlue` change their own channel (as `getRed`/`getGreen`/`getBlue` then return) and no other, and invalidate the cache |
| `RgbLed.WithChannel` | src_code/rgb_led_class.h:147-173 | replacing one channel of a triple keeps the other two |
| `RgbLed.GetHue` | src_code/rgb_led_class.h:175-184 | `getHue` returns the hue of the HSL view and leaves the cache valid without changing either view |
| `RgbLed.GetSaturation` | src_code/rgb_led_class.h:200-208 | `getSaturation` returns the saturation of the HSL view and leaves the cache valid without changing either view |
| `RgbLed.SetHue` | src_code/rgb_led_class.h:186-198 | `setHue` replaces the hue alone, keeps saturation and lightness, and leaves the cache valid with RGB its conversion |
| `RgbLed.SetSaturation` | src_code/rgb_led_class.h:210-221 | `setSaturation` replaces the saturation alone and leaves the cache valid with RGB its conversion |
| `RgbLed.SetIntensity` | src_code/rgb_led_class.h:230-241 | `setIntensity` replaces the lightness alone and leaves the cache valid with RGB its conversion |
| `RgbLed.HslSetGet` | src_code/rgb_led_class.h:175-241 | each HSL getter reads back what its setter wrote, and setting the hue leaves saturation and intensity as they were |
| `RgbLed.CacheStaysSound` | src_code/rgb_led_class.cpp:43-101 | every store operation keeps the two views from diverging: a valid cache is the HSL the RGB came from, or the HSL computed from that RGB |
| `NodeMachine.ActOn` | src_code/rgb_node_state_machine.h:1058-1068 | every node acts on a broadcast; a non-zero address is acted on exactly by its node; every message a node answers is one it acts on |
| `NodeMachine.Feedback` | src_code/rgb_node_state_machine.h:1029-1044 | `send_feedback` emits one node-sourced message with the given kind and value exactly when (address 0 and node 1) or (address non-zero and equal to the node) |
| `NodeMachine.BlinkIfAddressed` | src_code/rgb_node_state_machine.h:1046-1056 | `Blink` runs under exactly the same condition as a reply |
| `NodeMachine.ReadGoverned` | src_code/rgb_node_state_machine.h:569-574 | the value a handler reports is the governed value of the current views; `getHue` and `getSaturation` leave the cache valid, the channel getters and `getIntensity` leave the store untouched |
| `NodeMachine.Report` | src_code/rgb_node_state_machine.h:245-248 | force-feedback re-sends the governed value under the reply policy, calls no `TRAN`, and the colour, address and registers stay |
| `NodeMachine.ChooseMode` | src_code/rgb_node_state_machine.h:142-165 | selecting the current mode requests nothing, keeps the colour and re-sends the governed value under the reply policy; selecting another calls `TRAN` to it, changes nothing and sends nothing |
| `NodeMachine.StepComponent` | src_code/rgb_node_state_machine.h:603-624 | a clockwise hue turn gives the sum, less one whole turn exactly when the sum passes 0.99, and a counter-clockwise turn the difference, plus one whole turn exactly when it falls below 0.01; saturation (lines 761-782) and intensity (lines 917-938) turns give the least of the sum and 0.99, or the greatest of the difference and 0.01 or 0 |
| `NodeMachine.StepChannel` | src_code/rgb_node_state_machine.h:166-187 | through the `int16_t` temporary, a clockwise turn gives the least of the sum and 255 and a counter-clockwise turn the greatest of the difference and 0 |
| `NodeMachine.ReadComponent` | src_code/rgb_node_state_machine.h:603-605 | the encoder reads the governed HSL component of the current view without changing either view |
| `NodeMachine.WriteComponent` | src_code/rgb_node_state_machine.h:603-609 | the encoder writes back only the governed HSL component, and the RGB becomes its conversion |
| `NodeMachine.Encoder` | src_code/rgb_node_state_machine.h:166-187 | an encoder turn moves the governed channel or component by the family's step with the mode's clamp or wrap, keeps the rest, and reports the new value |
| `NodeMachine.StepSize` | src_code/rgb_node_state_machine.h:188-195 | press sets the family's register to small (1 or 0.004) and release to large (10 or 0.04), touching only that family's register and sending nothing |
| `NodeMachine.OnlyChannel` | src_code/rgb_node_state_machine.h:196-219 | only-X sets channel X to 128 and keeps the others; an RGB mode reports only for its own channel, an HSL mode always |
| `NodeMachine.Bulk` | src_code/rgb_node_state_machine.h:977-1003 | all-off/half/on set RGB to 0/128/255 in RGB modes and intensity to 0/0.5/0.99 in HSL modes; intensity mode reports the literal 0/128/255 |
| `NodeMachine.WithComponent` | src_code/rgb_node_state_machine.h:917-938 | writing a mode's HSL component gives a colour whose governed component is the written value and whose other two components are kept |
| `NodeMachine.Command` | src_code/rgb_node_state_machine.h:139-260 | the controller table keeps the node address, requests at most one `TRAN` and only to another mode, sends and blinks only under the reply policy, and keeps the step registers at their two values |
| `NodeMachine.Handle` | src_code/rgb_node_state_machine.h:873-1026 | a handler discards any message not for this node; EXIT is ignored; ENTER and EXIT never cause `TRAN`; every feedback message and blink obeys the reply policy, while status-LED switches follow only the address filter |
| `NodeMachine.Construct` | src_code/rgb_node_state_machine.h:65-115 | construction starts in intensity mode with no transition pending, both step registers large, and the DIP address installed |
| `NodeProperties.ReplyNeedsAct` | src_code/rgb_node_state_machine.h:1029-1068 | a node asked to reply was asked to act; for a unicast the two coincide, and a broadcast is acted on by all but answered by node 1 only |
| `NodeProperties.GovernedValueFollowsViews` | src_code/rgb_node_state_machine.h:1029-1044 | the value a mode reports depends only on the RGB and HSL views of the store, not on the cache state |
| `NodeProperties.EnterReports` | src_code/rgb_node_state_machine.h:132-138 | on ENTER a mode reports its own governed value under the reply policy for the ENTER data byte, and requests no transition |
| `NodeProperties.FilteredEventIsNoOp` | src_code/rgb_node_state_machine.h:1058-1068 | an event whose data byte is neither 0 nor the node address leaves mode, colour and registers unchanged and emits nothing |
| `NodeProperties.StepLeavesMachineIdle` | src_code/state_class.h:65-75 | after any event no transition is left pending, and the address and the step registers' two-value invariant are kept |
| `NodeProperties.SelectActiveMode` | src_code/rgb_node_state_machine.h:142-145 | selecting the current mode, or forcing feedback, keeps the machine as it was and re-sends the current governed value |
| `NodeProperties.SelectOtherMode` | src_code/rgb_node_state_machine.h:146-165 | selecting another mode makes it current, leaves nothing pending, sends only the new mode's entry report and keeps colour and registers |
| `NodeProperties.BroadcastSelectRepliesOnlyFromNodeOne` | src_code/rgb_node_state_machine.h:1033-1037 | with ENTER data 0, a broadcast select moves every node but only node 1 reports the new mode's value |
| `NodeProperties.SelectOnlyBlinks` | src_code/rgb_led_class.h:243-262 | select blinks under the reply policy and leaves the stored colour, the cache flag and the mode unchanged |
| `NodeProperties.BroadcastBlinksOnlyNodeOne` | src_code/rgb_node_state_machine.h:1046-1056 | a broadcast select blinks node 1 and no other |
| `NodeProperties.ForceFeedbackIsRepeatable` | src_code/rgb_node_state_machine.h:245-248 | two force-feedback commands in a row send identical messages and leave the mode alone |
| `NodeProperties.RgbEncoderStep` | src_code/rgb_node_state_machine.h:166-187 | in an RGB mode CW sets the channel to min(255, c + step) and CCW to max(0, c - step), keeps the other channels, and reports the new value |
| `NodeProperties.HslEncoderStep` | src_code/rgb_node_state_machine.h:603-624 | in an HSL mode a turn replaces only the governed component by its wrapped or clamped sum, stores the RGB conversion, and reports the new component |
| `NodeProperties.PressReleaseStep` | src_code/rgb_node_state_machine.h:1080-1087 | press and release set the family's register to 1 or 10 (RGB) or 0.004 or 0.04 (HSL), send nothing and change nothing else |
| `NodeProperties.StepRegisterSurvivesTransition` | src_code/rgb_node_state_machine.h:73-75 | a small RGB step set by a press persists through a transition to another mode |
| `NodeProperties.OnlyChannelStep` | src_code/rgb_node_state_machine.h:633-662 | only-X sets exactly channel X to 128 and keeps the other two; RGB modes report only their own channel, HSL modes every time |
| `NodeProperties.BulkStep` | src_code/rgb_node_state_machine.h:663-689 | all-off/half/on set RGB to 0/128/255 or intensity to 0/0.5/0.99; intensity mode reports 0/128/255 |
| `NodeProperties.StatusLedStep` | src_code/rgb_node_state_machine.h:249-256 | enabling or disabling the status LED switches it and does nothing else: no feedback, no transition, the node unchanged |
| `NodeProperties.IntensityEnterFallsThrough` | src_code/rgb_node_state_machine.h:884-890 | in intensity mode every engine-sourced event other than ENTER is handled exactly as the same event from the controller, and ENTER only reports; every other mode ignores engine events other than ENTER |
| `NodeProperties.EngineSelectLeavesIntensity` | src_code/rgb_node_state_machine.h:884-890 | over a whole step, an engine-sourced event with any select kind moves intensity mode to the selected mode, and every other mode ignores it |
| `NodeProperties.ConstructionIsSilent` | src_code/rgb_node_state_machine.h:79-113 | construction emits only the status-LED switch-off: the initial ENTER runs before the DIP address is read; saturation is 0.99 and intensity 0.25 |
| `NodeProperties.SaturationEncoderStaysInBand` | src_code/rgb_node_state_machine.h:761-790 | one encoder event in saturation mode keeps the saturation in [0.01, 0.99] |
| `NodeProperties.SaturationRunStaysInBand` | src_code/rgb_node_state_machine.h:761-790 | any sequence of encoder events from a saturation inside [0.01, 0.99] keeps it there and the mode unchanged |
| `NodeProperties.SaturationEncoderStaysInUnit` | src_code/rgb_node_state_machine.h:761-790 | one encoder event from any saturation in [0, 1] keeps it in [0, 1], keeps it in (0, 1) once there, and puts it in (0, 1) after a turn the node acts on |
| `NodeProperties.SaturationRunStaysInUnit` | src_code/rgb_node_state_machine.h:761-790 | any sequence of encoder events from a saturation in [0, 1] keeps it in [0, 1] and the mode unchanged, and in (0, 1) once an acted-on turn has happened first |
| `NodeProperties.SaturationRunAfterTurn` | src_code/rgb_node_state_machine.h:761-790 | wherever in a run of encoder events the node acts on a turn, the saturation at the end of the run is strictly between 0 and 1 |
| `NodeProperties.SaturationCanSitBelowBand` | src_code/rgb_node_state_machine.h:761-770 | from saturation 0, one small clockwise turn stores 0.004, because the clockwise path clamps only the top |
| `NodeProperties.SaturationTurnAvoidsEnds` | src_code/rgb_node_state_machine.h:761-782 | from any saturation in [0, 1] one turn lands strictly between 0 and 1 |
| `NodeProperties.HueTurnStaysInBand` | src_code/rgb_node_state_machine.h:603-624 | the hue wrap keeps a hue in (-0.01, 1.01) within that interval, so any number of turns from [0, 1] stays there |
| `NodeProperties.HueCanWrapBelowZero` | src_code/rgb_node_state_machine.h:603-609 | a small clockwise step from hue 0.99 wraps to -0.006, below zero |
| `NodeProperties.RedClampExamples` | src_code/rgb_node_state_machine.h:166-187 | red 250 plus step 10 gives 255; red 5 minus step 10 gives 0 |
| `NodeProperties.HueWrapExamples` | src_code/rgb_node_state_machine.h:603-624 | hue 0.98 plus 0.04 wraps to 0.02; hue 0.02 minus 0.04 wraps to 0.98 |

## Left out

- Colour-space formulas (`RGBConverter`): `rgbToHsl` and `hslToRgb` are floating-point numerics. They are uninterpreted fields of `Conversions`, with no range assumptions.
- IEEE doubles: HSL components and the step and threshold constants (0.04, 0.004, 0.99, 0.01) are exact reals, so rounding near the thresholds is not modelled.
- Feedback bytes of HSL modes: the `double` to `uint8_t` conversion of `component*255` is the uninterpreted `feedbackByte`. Its behaviour on out-of-range values is not modelled.
- PWM output: duty cycles, the colour scale factors, `Toggle` (it reads back PWM state) and the PWM ramp inside `Blink` are hardware I/O. A blink is the `BlinkLed` effect.
- Serial framing (`comm_class`, `encode`): a feedback message is a `Send` effect appended to the output sequence.
- Power management (`mcu_sleep_class`): enabling and disabling the status LED are `StatusLed` effects. Sleep is not modelled.
- The main loop, the event queue and its interrupt concurrency are not part of this model. The model takes one event at a time.
- DIP-switch pin reads: the node address is a parameter in 0..15.
- Debug code: the `#if DEBUG` encode branches and the `#if 0` block.
- HSV support (`set(HsvColor)`, `get(HsvColor)`) is compiled out and not modelled.
- `event_listing.h` is not part of this model. The event kinds are those the handlers and `send_feedback` name, and the ENTER/EXIT data byte is a parameter.
- `process` and `EXTERNAL_TRAN` are only declared in src_code/state_class.h (:67, :79); their definitions are not part of this model, and their bodies are assumed as follows. `process` is modelled as "run the handler; if a transition is pending, EXIT the old state, switch, clear the flag, ENTER the new state". `EXTERNAL_TRAN` is modelled as `TRAN` followed by the same deferred sequence.
- `EXTERNAL_TRAN` is described as forcing "an immediate state transition"; the reading in which the outgoing state receives no EXIT is not modelled, because the definition is not part of this model.
- Engine.ExternalTran: its own contract only says the ENTER and EXIT events are kept, because the definition is not part of this model; `Engine.ExternalTranSwitches` states the assumed exit/switch/enter sequence.
- `next_state` is uninitialised in the firmware. It starts equal to the initial state here, and it is never read before a `TRAN` writes it.
