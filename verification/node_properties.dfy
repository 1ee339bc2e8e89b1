/**
 * Properties of whole engine steps of the node: one event through `process`,
 * including the deferred exit and entry a transition causes.
 */
module NodeProperties {
  import opened Bytes
  import opened Events
  import opened RgbLed
  import opened NodeMachine
  import Engine

  /** A machine between two events: nothing pending, ENTER and EXIT built from one data byte. */
  predicate Idle(m: Engine.Machine<Mode>) {
    && !m.transition
    && m.enterEvent == Engine.EnterEvent(m.enterEvent.data)
    && m.exitEvent == Engine.ExitEvent(m.enterEvent.data)
  }

  /** A command from the remote controller. */
  function FromController(k: Kind, address: Byte): Event {
    Event(RgbController, k, address)
  }

  /** The report a mode sends on entry, as seen by a node in state `n`. */
  function EntryReport(cv: Conversions, mode: Mode, n: Node, sysData: Byte): seq<Effect> {
    Feedback(sysData, n.address, FeedbackKind(mode), GovernedValue(cv, mode, n.led))
  }

  /** The governed value depends only on what the two views of the store show. */
  lemma GovernedValueFollowsViews(cv: Conversions, mode: Mode, a: Led, b: Led)
    requires GetRgb(a) == GetRgb(b) && GetHsl(cv, a) == GetHsl(cv, b)
    ensures GovernedValue(cv, mode, a) == GovernedValue(cv, mode, b)
  {
  }

  /** Whoever is asked to reply was asked to act: the reply policy is narrower than the filter. */
  lemma ReplyNeedsAct(address: Byte, node: Address)
    ensures ShouldReply(address, node) ==> ActOn(address, node)
    ensures address != 0 ==> (ShouldReply(address, node) <==> ActOn(address, node))
    ensures address == 0 ==> ActOn(address, node) && (ShouldReply(address, node) <==> node == 1)
  {
  }

  /**
   * The engine's entry into `target` when the node is in state `n`: the
   * entry report, and the store afterwards shows the same colour.
   */
  lemma EnterReports(cv: Conversions, target: Mode, n: Node, sysData: Byte)
    ensures Handle(cv, target, n, Engine.EnterEvent(sysData)).requests == []
    ensures Handle(cv, target, n, Engine.EnterEvent(sysData)).out == EntryReport(cv, target, n, sysData)
    ensures SameViewsAndRegisters(cv, n, Handle(cv, target, n, Engine.EnterEvent(sysData)).ctx)
  {
    var e := Engine.EnterEvent(sysData);
    if ActOn(sysData, n.address) {
      var entered := Report(cv, target, n, sysData);
      if target == AdjustIntensity {
        assert Command(cv, target, entered.ctx, e) == Engine.Reaction(entered.ctx, [], []);
        assert entered.out + [] == entered.out;
      }
    } else {
      ReplyNeedsAct(sysData, n.address);
    }
  }

  /**
   * An event addressed to another node changes nothing: same mode, same
   * store, same registers, no output.
   */
  lemma FilteredEventIsNoOp(cv: Conversions, m: Engine.Machine<Mode>, n: Node, e: Event)
    requires !m.transition
    requires !ActOn(e.data, n.address)
    ensures Step(cv, m, n, e) == Engine.Stepped(m, n, [])
  {
    Engine.ProcessWithoutRequest(Handler(cv), m, n, e);
  }

  /** After any event the node's machine is idle again: no transition is left pending. */
  lemma StepLeavesMachineIdle(cv: Conversions, m: Engine.Machine<Mode>, n: Node, e: Event)
    requires Idle(m)
    ensures Idle(Step(cv, m, n, e).machine)
    ensures Step(cv, m, n, e).ctx.address == n.address
    ensures StepsWellFormed(n) ==> StepsWellFormed(Step(cv, m, n, e).ctx)
  {
    var a := Handle(cv, m.state, n, e);
    if a.requests == [] {
      Engine.ProcessWithoutRequest(Handler(cv), m, n, e);
    } else {
      Engine.ProcessWithRequest(Handler(cv), m, n, e);
      var target := a.requests[|a.requests| - 1];
      var x := Handle(cv, m.state, a.ctx, m.exitEvent);
      assert x == Engine.Reaction(a.ctx, [], []);
      EnterReports(cv, target, x.ctx, m.enterEvent.data);
    }
  }

  /**
   * Selecting the mode that is already current calls no `TRAN`: the mode
   * stays, and the current governed value is sent again.
   */
  lemma SelectActiveMode(cv: Conversions, m: Engine.Machine<Mode>, n: Node, k: Kind, address: Byte)
    requires !m.transition
    requires ActOn(address, n.address)
    requires (IsModeSelect(k) && SelectedMode(k) == m.state) || k == ForceFeedback
    ensures Step(cv, m, n, FromController(k, address)).machine == m
    ensures Step(cv, m, n, FromController(k, address)).out ==
      Feedback(address, n.address, FeedbackKind(m.state), GovernedValue(cv, m.state, n.led))
    ensures SameViewsAndRegisters(cv, n, Step(cv, m, n, FromController(k, address)).ctx)
  {
    Engine.ProcessWithoutRequest(Handler(cv), m, n, FromController(k, address));
  }

  /**
   * Selecting another mode: the handler itself says nothing, the old mode
   * sees EXIT silently, the new mode becomes current and reports its own
   * value on ENTER (subject to the reply policy for the ENTER data byte);
   * the colour and both step registers carry over unchanged.
   */
  lemma SelectOtherMode(cv: Conversions, m: Engine.Machine<Mode>, n: Node, k: Kind, address: Byte)
    requires Idle(m)
    requires ActOn(address, n.address)
    requires IsModeSelect(k) && SelectedMode(k) != m.state
    ensures Step(cv, m, n, FromController(k, address)).machine.state == SelectedMode(k)
    ensures Idle(Step(cv, m, n, FromController(k, address)).machine)
    ensures Step(cv, m, n, FromController(k, address)).out ==
      EntryReport(cv, SelectedMode(k), n, m.enterEvent.data)
    ensures SameViewsAndRegisters(cv, n, Step(cv, m, n, FromController(k, address)).ctx)
  {
    var e := FromController(k, address);
    var a := Handle(cv, m.state, n, e);
    assert a == Engine.Reaction(n, [SelectedMode(k)], []);
    Engine.ProcessWithRequest(Handler(cv), m, n, e);
    var x := Handle(cv, m.state, a.ctx, m.exitEvent);
    assert x == Engine.Reaction(n, [], []);
    EnterReports(cv, SelectedMode(k), n, m.enterEvent.data);
  }

  /**
   * The broadcast asymmetry: with ENTER data 0, a broadcast selecting
   * another mode moves every node, but only node 1 reports.
   */
  lemma BroadcastSelectRepliesOnlyFromNodeOne(cv: Conversions, m: Engine.Machine<Mode>, n: Node, k: Kind)
    requires Idle(m) && m.enterEvent.data == 0
    requires IsModeSelect(k) && SelectedMode(k) != m.state
    ensures Step(cv, m, n, FromController(k, 0)).machine.state == SelectedMode(k)
    ensures n.address == 1 ==>
      (Step(cv, m, n, FromController(k, 0)).out ==
       [Send(Event(RgbNode, FeedbackKind(SelectedMode(k)), GovernedValue(cv, SelectedMode(k), n.led)))])
    ensures n.address != 1 ==> Step(cv, m, n, FromController(k, 0)).out == []
  {
    SelectOtherMode(cv, m, n, k, 0);
  }

  /**
   * Select runs the blink animation where a reply would be sent, and
   * nothing else: the stored colour, the cache and the mode are untouched.
   */
  lemma SelectOnlyBlinks(cv: Conversions, m: Engine.Machine<Mode>, n: Node, address: Byte)
    requires !m.transition
    requires ActOn(address, n.address)
    ensures Step(cv, m, n, FromController(Select, address)) ==
      Engine.Stepped(m, n, if ShouldReply(address, n.address) then [BlinkLed] else [])
  {
    Engine.ProcessWithoutRequest(Handler(cv), m, n, FromController(Select, address));
  }

  /** A broadcast select blinks node 1 only; no node changes colour or mode. */
  lemma BroadcastBlinksOnlyNodeOne(cv: Conversions, m: Engine.Machine<Mode>, n: Node)
    requires !m.transition
    ensures Step(cv, m, n, FromController(Select, 0)) ==
      Engine.Stepped(m, n, if n.address == 1 then [BlinkLed] else [])
  {
    Engine.ProcessWithoutRequest(Handler(cv), m, n, FromController(Select, 0));
  }

  /** Asking twice for feedback with nothing in between sends the same message twice. */
  lemma ForceFeedbackIsRepeatable(cv: Conversions, m: Engine.Machine<Mode>, n: Node, address: Byte)
    requires !m.transition
    ensures
      var first := Step(cv, m, n, FromController(ForceFeedback, address));
      var second := Step(cv, first.machine, first.ctx, FromController(ForceFeedback, address));
      second.out == first.out && second.machine == m
  {
    var e := FromController(ForceFeedback, address);
    if ActOn(address, n.address) {
      SelectActiveMode(cv, m, n, ForceFeedback, address);
      var first := Step(cv, m, n, e);
      SelectActiveMode(cv, m, first.ctx, ForceFeedback, address);
      GovernedValueFollowsViews(cv, m.state, n.led, first.ctx.led);
    } else {
      FilteredEventIsNoOp(cv, m, n, e);
    }
  }

  /**
   * The RGB encoder: the governed channel becomes min(255, c + step) on a
   * clockwise turn and max(0, c - step) on a counter-clockwise turn, the
   * other two channels stay, and the new value is reported.
   */
  lemma RgbEncoderStep(cv: Conversions, m: Engine.Machine<Mode>, n: Node, clockwise: bool, address: Byte)
    requires !m.transition && IsRgbMode(m.state)
    requires ActOn(address, n.address)
    ensures
      var r := Step(cv, m, n, FromController(if clockwise then EncoderCw else EncoderCcw, address));
      var ch := ModeChannel(m.state);
      var c := GetChannel(n.led, ch);
      && r.machine == m
      && GetChannel(r.ctx.led, ch) == (if clockwise then Min(255, c + n.rgbStep) else Max(0, c - n.rgbStep))
      && (forall other: Channel | other != ch :: GetChannel(r.ctx.led, other) == GetChannel(n.led, other))
      && r.out == Feedback(address, n.address, FeedbackKind(m.state), GetChannel(r.ctx.led, ch))
      && r.ctx.rgbStep == n.rgbStep && r.ctx.hslStep == n.hslStep
  {
    Engine.ProcessWithoutRequest(Handler(cv), m, n, FromController(if clockwise then EncoderCw else EncoderCcw, address));
  }

  /**
   * The HSL encoder: the governed component of the HSL view is adjusted by
   * the HSL step with the mode's wrap or clamp, the other two components
   * stay, and the stored RGB is the conversion of the new HSL colour.
   */
  lemma HslEncoderStep(cv: Conversions, m: Engine.Machine<Mode>, n: Node, clockwise: bool, address: Byte)
    requires !m.transition && !IsRgbMode(m.state)
    requires ActOn(address, n.address)
    ensures
      var r := Step(cv, m, n, FromController(if clockwise then EncoderCw else EncoderCcw, address));
      var before := GetHsl(cv, n.led);
      var after := GetHsl(cv, r.ctx.led);
      && r.machine == m
      && after == WithComponent(m.state, before, StepComponent(m.state, Component(m.state, before), n.hslStep, clockwise))
      && GetRgb(r.ctx.led) == cv.hslToRgb(after)
      && r.out == Feedback(address, n.address, FeedbackKind(m.state), cv.feedbackByte(Component(m.state, after)))
  {
    Engine.ProcessWithoutRequest(Handler(cv), m, n, FromController(if clockwise then EncoderCw else EncoderCcw, address));
  }

  /**
   * Press and release set the family's register to small or large, leave
   * the other family's register, the colour and the mode alone, and say
   * nothing.
   */
  lemma PressReleaseStep(cv: Conversions, m: Engine.Machine<Mode>, n: Node, pressed: bool, address: Byte)
    requires !m.transition
    requires ActOn(address, n.address)
    ensures
      var r := Step(cv, m, n, FromController(if pressed then EncoderPressed else EncoderReleased, address));
      && r.machine == m && r.out == [] && r.ctx.led == n.led
      && (IsRgbMode(m.state) ==> r.ctx == n.(rgbStep := if pressed then 1 else 10))
      && (!IsRgbMode(m.state) ==> r.ctx == n.(hslStep := if pressed then 0.004 else 0.04))
  {
    Engine.ProcessWithoutRequest(Handler(cv), m, n, FromController(if pressed then EncoderPressed else EncoderReleased, address));
  }

  /**
   * A register set in one mode is still set after moving to another mode of
   * either family: press in one mode, then select another.
   */
  lemma StepRegisterSurvivesTransition(cv: Conversions, m: Engine.Machine<Mode>, n: Node, k: Kind, address: Byte)
    requires Idle(m) && IsRgbMode(m.state)
    requires ActOn(address, n.address)
    requires IsModeSelect(k) && SelectedMode(k) != m.state
    ensures
      var pressed := Step(cv, m, n, FromController(EncoderPressed, address));
      var moved := Step(cv, pressed.machine, pressed.ctx, FromController(k, address));
      moved.machine.state == SelectedMode(k) && moved.ctx.rgbStep == RgbSmallStep && moved.ctx.hslStep == n.hslStep
  {
    PressReleaseStep(cv, m, n, true, address);
    var pressed := Step(cv, m, n, FromController(EncoderPressed, address));
    SelectOtherMode(cv, pressed.machine, pressed.ctx, k, address);
  }

  /**
   * Only-X sets exactly channel X to 128 and keeps the other two. An RGB
   * mode reports only for its own channel; an HSL mode reports every time.
   */
  lemma OnlyChannelStep(cv: Conversions, m: Engine.Machine<Mode>, n: Node, ch: Channel, address: Byte)
    requires !m.transition
    requires ActOn(address, n.address)
    ensures
      var k := match ch case Red => OnlyRed case Green => OnlyGreen case Blue => OnlyBlue;
      var r := Step(cv, m, n, FromController(k, address));
      && r.machine == m
      && GetChannel(r.ctx.led, ch) == 128
      && (forall other: Channel | other != ch :: GetChannel(r.ctx.led, other) == GetChannel(n.led, other))
      && (IsRgbMode(m.state) && ModeChannel(m.state) != ch ==> r.out == [])
      && (!IsRgbMode(m.state) || ModeChannel(m.state) == ch ==>
            r.out == Feedback(address, n.address, FeedbackKind(m.state), GovernedValue(cv, m.state, r.ctx.led)))
  {
    var k := match ch case Red => OnlyRed case Green => OnlyGreen case Blue => OnlyBlue;
    Engine.ProcessWithoutRequest(Handler(cv), m, n, FromController(k, address));
  }

  /**
   * All-off, all-half and all-on: RGB modes set the whole triple to 0, 128
   * or 255; HSL modes set the intensity to 0, 0.5 or 0.99, and the
   * intensity mode reports the literal 0, 128 or 255.
   */
  lemma BulkStep(cv: Conversions, m: Engine.Machine<Mode>, n: Node, level: Level, address: Byte)
    requires !m.transition
    requires ActOn(address, n.address)
    ensures
      var k := match level case Off => AllOff case Half => AllHalf case On => AllOn;
      var r := Step(cv, m, n, FromController(k, address));
      && r.machine == m
      && (IsRgbMode(m.state) ==> forall ch: Channel :: GetChannel(r.ctx.led, ch) == LevelByte(level))
      && (!IsRgbMode(m.state) ==> GetHsl(cv, r.ctx.led) == GetHsl(cv, n.led).(l := LevelIntensity(level)))
      && (m.state == AdjustIntensity ==> r.out == Feedback(address, n.address, LedIntensityPwm, LevelByte(level)))
  {
    var k := match level case Off => AllOff case Half => AllHalf case On => AllOn;
    Engine.ProcessWithoutRequest(Handler(cv), m, n, FromController(k, address));
  }

  /**
   * Enabling or disabling the status LED, in any mode, switches that LED
   * and does nothing else: no feedback, no transition, the node unchanged,
   * and the LED switched even when only a broadcast reached the node.
   */
  lemma StatusLedStep(cv: Conversions, m: Engine.Machine<Mode>, n: Node, on: bool, address: Byte)
    requires !m.transition
    requires ActOn(address, n.address)
    ensures
      var k := if on then EnableStatusLed else DisableStatusLed;
      Step(cv, m, n, FromController(k, address)) == Engine.Stepped(m, n, [StatusLed(on)])
  {
    Engine.ProcessWithoutRequest(Handler(cv), m, n, FromController(if on then EnableStatusLed else DisableStatusLed, address));
  }

  /**
   * The intensity handler's ENTER case has no `break`: there, every
   * engine-sourced event runs through the controller table exactly as if
   * the controller had sent it (ENTER is first reported, and the table
   * ignores it), while every other mode handles an engine event other than
   * ENTER by doing nothing.
   */
  lemma IntensityEnterFallsThrough(cv: Conversions, mode: Mode, n: Node, k: Kind, d: Byte)
    ensures mode == AdjustIntensity && k != EnterState ==>
      Handle(cv, mode, n, Event(StateMachine, k, d)) == Handle(cv, mode, n, Event(RgbController, k, d))
    ensures mode == AdjustIntensity && ActOn(d, n.address) ==>
      Handle(cv, mode, n, Event(StateMachine, EnterState, d)) == Report(cv, mode, n, d)
    ensures mode != AdjustIntensity && k != EnterState ==>
      Handle(cv, mode, n, Event(StateMachine, k, d)) == Engine.Reaction(n, [], [])
  {
  }

  /**
   * A consequence over a whole step: an engine event carrying any select
   * kind moves the machine out of intensity mode into the selected mode,
   * while every other mode ignores it.
   */
  lemma EngineSelectLeavesIntensity(cv: Conversions, m: Engine.Machine<Mode>, n: Node, k: Kind, address: Byte)
    requires Idle(m)
    requires IsModeSelect(k)
    requires ActOn(address, n.address)
    ensures m.state == AdjustIntensity ==>
      Step(cv, m, n, Event(StateMachine, k, address)).machine.state == SelectedMode(k)
    ensures m.state != AdjustIntensity ==>
      Step(cv, m, n, Event(StateMachine, k, address)) == Engine.Stepped(m, n, [])
  {
    var e := Event(StateMachine, k, address);
    var a := Handle(cv, m.state, n, e);
    if m.state == AdjustIntensity && SelectedMode(k) != AdjustIntensity {
      assert a.requests == [SelectedMode(k)];
      Engine.ProcessWithRequest(Handler(cv), m, n, e);
      var x := Handle(cv, m.state, a.ctx, m.exitEvent);
      assert x == Engine.Reaction(a.ctx, [], []);
      EnterReports(cv, SelectedMode(k), x.ctx, m.enterEvent.data);
    } else {
      Engine.ProcessWithoutRequest(Handler(cv), m, n, e);
    }
  }

  /**
   * Construction emits no feedback whatever the DIP switches and the ENTER
   * data byte: the initial ENTER is handled while the address is still 0,
   * and a node with address 0 never replies. Only the status LED is
   * switched off. The store then shows saturation 0.99 and intensity 0.25.
   */
  lemma ConstructionIsSilent(cv: Conversions, dip: Address, sysData: Byte)
    ensures Construct(cv, dip, sysData).out == [StatusLed(false)]
    ensures Idle(Construct(cv, dip, sysData).machine)
    ensures Construct(cv, dip, sysData).machine.enterEvent.data == sysData
    ensures GetHsl(cv, Construct(cv, dip, sysData).node.led) == cv.rgbToHsl(Black).(s := 0.99, l := 0.25)
    ensures StepsWellFormed(Construct(cv, dip, sysData).node)
  {
    var led := RgbLed.SetIntensity(cv, RgbLed.SetSaturation(cv, HslOff(cv, Init()), 0.99), 0.25);
    var n := Node(led, 0, RgbLargeStep, HslLargeStep);
    EnterReports(cv, InitialMode, n, sysData);
    assert !ShouldReply(sysData, 0);
  }

  // ---------------------------------------------------------------------
  // Runs of encoder events in saturation mode
  // ---------------------------------------------------------------------

  /** The events an encoder produces, from the controller, to any address. */
  predicate IsEncoderEvent(e: Event) {
    e.source == RgbController && (e.kind in {EncoderCw, EncoderCcw, EncoderPressed, EncoderReleased})
  }

  /** Feed events one by one through `process`. */
  function Run(cv: Conversions, m: Engine.Machine<Mode>, n: Node, events: seq<Event>): Engine.Stepped<Mode, Node, Effect>
    decreases |events|
  {
    if |events| == 0 then Engine.Stepped(m, n, [])
    else
      var first := Step(cv, m, n, events[0]);
      var rest := Run(cv, first.machine, first.ctx, events[1..]);
      Engine.Stepped(rest.machine, rest.ctx, first.out + rest.out)
  }

  /** One encoder event in saturation mode keeps the saturation within [0.01, 0.99]. */
  lemma SaturationEncoderStaysInBand(cv: Conversions, m: Engine.Machine<Mode>, n: Node, e: Event)
    requires !m.transition && m.state == AdjustSaturation
    requires IsEncoderEvent(e) && StepsWellFormed(n)
    requires 0.01 <= GetHsl(cv, n.led).s <= 0.99
    ensures Step(cv, m, n, e).machine == m
    ensures StepsWellFormed(Step(cv, m, n, e).ctx)
    ensures 0.01 <= GetHsl(cv, Step(cv, m, n, e).ctx.led).s <= 0.99
  {
    if !ActOn(e.data, n.address) {
      FilteredEventIsNoOp(cv, m, n, e);
    } else if e.kind == EncoderCw || e.kind == EncoderCcw {
      HslEncoderStep(cv, m, n, e.kind == EncoderCw, e.data);
    } else {
      PressReleaseStep(cv, m, n, e.kind == EncoderPressed, e.data);
    }
  }

  /**
   * However many encoder events arrive, the saturation never leaves
   * [0.01, 0.99] once inside it, so it never reaches 0 or 1. A saturation
   * that starts outside the band is covered by `SaturationRunStaysInUnit`.
   */
  lemma {:induction false} SaturationRunStaysInBand(cv: Conversions, m: Engine.Machine<Mode>, n: Node, events: seq<Event>)
    requires !m.transition && m.state == AdjustSaturation
    requires forall i | 0 <= i < |events| :: IsEncoderEvent(events[i])
    requires StepsWellFormed(n)
    requires 0.01 <= GetHsl(cv, n.led).s <= 0.99
    ensures Run(cv, m, n, events).machine == m
    ensures 0.01 <= GetHsl(cv, Run(cv, m, n, events).ctx.led).s <= 0.99
    decreases |events|
  {
    if |events| > 0 {
      SaturationEncoderStaysInBand(cv, m, n, events[0]);
      var first := Step(cv, m, n, events[0]);
      assert forall i | 0 <= i < |events[1..]| :: IsEncoderEvent(events[1..][i]) by {
        forall i | 0 <= i < |events[1..]| ensures IsEncoderEvent(events[1..][i]) {
          assert events[1..][i] == events[i + 1];
        }
      }
      SaturationRunStaysInBand(cv, first.machine, first.ctx, events[1..]);
    }
  }

  /**
   * One encoder event in saturation mode from any saturation in [0, 1]:
   * the saturation stays in [0, 1], stays strictly inside (0, 1) once there,
   * and is strictly inside after any turn the node acts on.
   */
  lemma SaturationEncoderStaysInUnit(cv: Conversions, m: Engine.Machine<Mode>, n: Node, e: Event)
    requires !m.transition && m.state == AdjustSaturation
    requires IsEncoderEvent(e) && StepsWellFormed(n)
    requires 0.0 <= GetHsl(cv, n.led).s <= 1.0
    ensures Step(cv, m, n, e).machine == m
    ensures StepsWellFormed(Step(cv, m, n, e).ctx)
    ensures 0.0 <= GetHsl(cv, Step(cv, m, n, e).ctx.led).s <= 1.0
    ensures 0.0 < GetHsl(cv, n.led).s < 1.0 ==> 0.0 < GetHsl(cv, Step(cv, m, n, e).ctx.led).s < 1.0
    ensures (e.kind == EncoderCw || e.kind == EncoderCcw) && ActOn(e.data, n.address) ==>
      0.0 < GetHsl(cv, Step(cv, m, n, e).ctx.led).s < 1.0
  {
    if !ActOn(e.data, n.address) {
      FilteredEventIsNoOp(cv, m, n, e);
    } else if e.kind == EncoderCw || e.kind == EncoderCcw {
      HslEncoderStep(cv, m, n, e.kind == EncoderCw, e.data);
    } else {
      PressReleaseStep(cv, m, n, e.kind == EncoderPressed, e.data);
    }
  }

  /**
   * A run of encoder events from any saturation in [0, 1], such as the 0
   * the conversion gives for a grey: the saturation stays in [0, 1], stays
   * in (0, 1) once there, and is in (0, 1) at the end when the first event
   * is a turn the node acts on.
   */
  lemma {:induction false} SaturationRunStaysInUnit(cv: Conversions, m: Engine.Machine<Mode>, n: Node, events: seq<Event>)
    requires !m.transition && m.state == AdjustSaturation
    requires forall i | 0 <= i < |events| :: IsEncoderEvent(events[i])
    requires StepsWellFormed(n)
    requires 0.0 <= GetHsl(cv, n.led).s <= 1.0
    ensures Run(cv, m, n, events).machine == m
    ensures 0.0 <= GetHsl(cv, Run(cv, m, n, events).ctx.led).s <= 1.0
    ensures 0.0 < GetHsl(cv, n.led).s < 1.0 ==> 0.0 < GetHsl(cv, Run(cv, m, n, events).ctx.led).s < 1.0
    ensures |events| > 0 && (events[0].kind == EncoderCw || events[0].kind == EncoderCcw) && ActOn(events[0].data, n.address) ==>
      0.0 < GetHsl(cv, Run(cv, m, n, events).ctx.led).s < 1.0
    decreases |events|
  {
    if |events| > 0 {
      SaturationEncoderStaysInUnit(cv, m, n, events[0]);
      var first := Step(cv, m, n, events[0]);
      assert forall i | 0 <= i < |events[1..]| :: IsEncoderEvent(events[1..][i]) by {
        forall i | 0 <= i < |events[1..]| ensures IsEncoderEvent(events[1..][i]) {
          assert events[1..][i] == events[i + 1];
        }
      }
      SaturationRunStaysInUnit(cv, first.machine, first.ctx, events[1..]);
    }
  }

  /**
   * Wherever in a run of encoder events the node acts on a turn, the
   * saturation at the end of the run is strictly between 0 and 1.
   */
  lemma {:induction false} SaturationRunAfterTurn(cv: Conversions, m: Engine.Machine<Mode>, n: Node, events: seq<Event>, j: nat)
    requires !m.transition && m.state == AdjustSaturation
    requires forall i | 0 <= i < |events| :: IsEncoderEvent(events[i])
    requires StepsWellFormed(n)
    requires 0.0 <= GetHsl(cv, n.led).s <= 1.0
    requires j < |events|
    requires events[j].kind == EncoderCw || events[j].kind == EncoderCcw
    requires ActOn(events[j].data, n.address)
    ensures 0.0 < GetHsl(cv, Run(cv, m, n, events).ctx.led).s < 1.0
    decreases j
  {
    if j == 0 {
      SaturationRunStaysInUnit(cv, m, n, events);
    } else {
      SaturationEncoderStaysInUnit(cv, m, n, events[0]);
      var first := Step(cv, m, n, events[0]);
      assert forall i | 0 <= i < |events[1..]| :: IsEncoderEvent(events[1..][i]) by {
        forall i | 0 <= i < |events[1..]| ensures IsEncoderEvent(events[1..][i]) {
          assert events[1..][i] == events[i + 1];
        }
      }
      assert events[1..][j - 1] == events[j];
      SaturationRunAfterTurn(cv, first.machine, first.ctx, events[1..], j - 1);
    }
  }

  /**
   * The clockwise path clamps only the top, so from saturation 0 one small
   * clockwise turn stores 0.004, below the band's floor of 0.01.
   */
  lemma SaturationCanSitBelowBand(cv: Conversions, m: Engine.Machine<Mode>, n: Node, address: Byte)
    requires !m.transition && m.state == AdjustSaturation && n.hslStep == HslSmallStep
    requires ActOn(address, n.address)
    requires GetHsl(cv, n.led).s == 0.0
    ensures GetHsl(cv, Step(cv, m, n, FromController(EncoderCw, address)).ctx.led).s == 0.004
  {
    HslEncoderStep(cv, m, n, true, address);
  }

  /** From any saturation in [0, 1], one encoder turn lands strictly between 0 and 1. */
  lemma SaturationTurnAvoidsEnds(x: real, step: real, clockwise: bool)
    requires 0.0 <= x <= 1.0
    requires step == HslLargeStep || step == HslSmallStep
    ensures 0.0 < StepComponent(AdjustSaturation, x, step, clockwise) < 1.0
  {
  }

  /**
   * The hue wrap keeps a hue within (-0.01, 1.01) however many turns are
   * made, although not within [0, 1].
   */
  lemma HueTurnStaysInBand(x: real, step: real, clockwise: bool)
    requires step == HslLargeStep || step == HslSmallStep
    ensures -0.01 < x < 1.01 ==> -0.01 < StepComponent(AdjustHue, x, step, clockwise) < 1.01
  {
  }

  /** The thresholds 0.99 and 0.01 let a small clockwise step wrap a hue of 0.99 below zero. */
  lemma HueCanWrapBelowZero()
    ensures StepComponent(AdjustHue, 0.99, HslSmallStep, true) == -0.006
  {
  }

  // ---------------------------------------------------------------------
  // Worked examples
  // ---------------------------------------------------------------------

  /** Red 250 plus a large step is capped at 255; red 5 minus a large step is floored at 0. */
  lemma RedClampExamples(cv: Conversions, m: Engine.Machine<Mode>, n: Node)
    requires !m.transition && m.state == AdjustRed && n.rgbStep == RgbLargeStep
    ensures GetChannel(n.led, Red) == 250 ==>
      GetChannel(Step(cv, m, n, FromController(EncoderCw, 0)).ctx.led, Red) == 255
    ensures GetChannel(n.led, Red) == 5 ==>
      GetChannel(Step(cv, m, n, FromController(EncoderCcw, 0)).ctx.led, Red) == 0
  {
    RgbEncoderStep(cv, m, n, true, 0);
    RgbEncoderStep(cv, m, n, false, 0);
  }

  /** Hue 0.98 plus a large step wraps to 0.02; hue 0.02 minus a large step wraps to 0.98. */
  lemma HueWrapExamples(cv: Conversions, m: Engine.Machine<Mode>, n: Node)
    requires !m.transition && m.state == AdjustHue && n.hslStep == HslLargeStep
    ensures GetHsl(cv, n.led).h == 0.98 ==>
      GetHsl(cv, Step(cv, m, n, FromController(EncoderCw, 0)).ctx.led).h == 0.02
    ensures GetHsl(cv, n.led).h == 0.02 ==>
      GetHsl(cv, Step(cv, m, n, FromController(EncoderCcw, 0)).ctx.led).h == 0.98
  {
    HslEncoderStep(cv, m, n, true, 0);
    HslEncoderStep(cv, m, n, false, 0);
  }
}
