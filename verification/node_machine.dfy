/**
 * The node's command interpreter (`rgb_node_state_machine`): six adjustment
 * modes sharing one command table, the address filter every handler starts
 * with, and the reply policy that gates feedback and blinking.
 */
module NodeMachine {
  import opened Bytes
  import opened Events
  import opened RgbLed
  import Engine

  /** The six handlers `STATE_ADJ_MODE_*`; exactly one is current. */
  datatype Mode = AdjustRed | AdjustGreen | AdjustBlue | AdjustHue | AdjustSaturation | AdjustIntensity

  /** The mode the machine is constructed in. */
  const InitialMode := AdjustIntensity

  const RgbLargeStep: Byte := 10
  const RgbSmallStep: Byte := 1
  const HslLargeStep: real := 0.04
  const HslSmallStep: real := 0.004

  /** A node address, four DIP switches wide. */
  type Address = x: int | 0 <= x < 16

  /**
   * Everything a handler reads or writes besides the engine: the LED store,
   * the node address and the two step registers shared by each family.
   */
  datatype Node = Node(led: Led, address: Address, rgbStep: Byte, hslStep: real)

  /**
   * What a handler does to the outside world: a feedback message on the bus,
   * a blink animation of the LED, or switching the status LED on or off.
   */
  datatype Effect = Send(msg: Event) | BlinkLed | StatusLed(enabled: bool)

  type NodeReaction = Engine.Reaction<Mode, Node, Effect>

  /** The three levels of the all-off / all-half / all-on commands. */
  datatype Level = Off | Half | On

  // ---------------------------------------------------------------------
  // Addressing and reply policy
  // ---------------------------------------------------------------------

  /**
   * `act_on_this_msg`: a broadcast, or a message for this node. Every node
   * acts on a broadcast, and a node acts on every message it would answer.
   */
  predicate ActOn(address: Byte, node: Address): (act: bool)
    ensures address == 0 ==> act
    ensures address != 0 ==> (act <==> address == node)
    ensures ShouldReply(address, node) ==> act
  {
    address == 0 || address == node
  }

  /**
   * The condition in `send_feedback` and `Blink`: a broadcast is answered by
   * node 1 alone, a unicast by its addressee.
   */
  predicate ShouldReply(address: Byte, node: Address) {
    (address == 0 && node == 1) || (address != 0 && address == node)
  }

  /** `send_feedback`: at most one message, from this node, reporting `value`. */
  function Feedback(address: Byte, node: Address, kind: Kind, value: Byte): (out: seq<Effect>)
    ensures |out| <= 1
    ensures out != [] <==> ShouldReply(address, node)
    ensures forall o | o in out :: o == Send(Event(RgbNode, kind, value))
  {
    if ShouldReply(address, node) then [Send(Event(RgbNode, kind, value))] else []
  }

  /** `Blink`: the animation runs only where a reply would be sent. */
  function BlinkIfAddressed(address: Byte, node: Address): (out: seq<Effect>)
    ensures out == [BlinkLed] <==> ShouldReply(address, node)
    ensures out == [] <==> !ShouldReply(address, node)
  {
    if ShouldReply(address, node) then [BlinkLed] else []
  }

  // ---------------------------------------------------------------------
  // Modes, families and governed values
  // ---------------------------------------------------------------------

  /** The RGB family: red, green and blue, sharing the RGB step register. */
  predicate IsRgbMode(mode: Mode) {
    mode.AdjustRed? || mode.AdjustGreen? || mode.AdjustBlue?
  }

  function ModeChannel(mode: Mode): Channel
    requires IsRgbMode(mode)
  {
    match mode
    case AdjustRed => Red
    case AdjustGreen => Green
    case AdjustBlue => Blue
  }

  /** The feedback kind each mode reports with. */
  function FeedbackKind(mode: Mode): Kind {
    match mode
    case AdjustRed => LedRedPwm
    case AdjustGreen => LedGreenPwm
    case AdjustBlue => LedBluePwm
    case AdjustHue => LedHuePwm
    case AdjustSaturation => LedSaturationPwm
    case AdjustIntensity => LedIntensityPwm
  }

  /** The HSL component an HSL mode governs. */
  function Component(mode: Mode, x: Hsl): real
    requires !IsRgbMode(mode)
  {
    match mode
    case AdjustHue => x.h
    case AdjustSaturation => x.s
    case AdjustIntensity => x.l
  }

  /** Replace the component `mode` governs, keeping the other two. */
  function WithComponent(mode: Mode, x: Hsl, v: real): (y: Hsl)
    requires !IsRgbMode(mode)
    ensures Component(mode, y) == v
    ensures mode != AdjustHue ==> y.h == x.h
    ensures mode != AdjustSaturation ==> y.s == x.s
    ensures mode != AdjustIntensity ==> y.l == x.l
  {
    match mode
    case AdjustHue => x.(h := v)
    case AdjustSaturation => x.(s := v)
    case AdjustIntensity => x.(l := v)
  }

  /**
   * The byte a mode reports for the colour the store shows: a channel for an
   * RGB mode, the converted component of the HSL view for an HSL mode.
   */
  function GovernedValue(cv: Conversions, mode: Mode, led: Led): Byte {
    if IsRgbMode(mode) then ChannelOf(GetRgb(led), ModeChannel(mode))
    else cv.feedbackByte(Component(mode, GetHsl(cv, led)))
  }

  /**
   * The read a handler performs to report its value: `getRed` and friends
   * and `getIntensity` leave the store alone, `getHue` and `getSaturation`
   * refresh the cache.
   */
  function ReadGoverned(cv: Conversions, mode: Mode, led: Led): (r: Read<Byte>)
    ensures r.value == GovernedValue(cv, mode, led)
    ensures GetRgb(r.led) == GetRgb(led) && GetHsl(cv, r.led) == GetHsl(cv, led)
    ensures mode.AdjustHue? || mode.AdjustSaturation? ==> r.led.hslValid
    ensures !mode.AdjustHue? && !mode.AdjustSaturation? ==> r.led == led
  {
    match mode
    case AdjustRed => Read(GetChannel(led, Red), led)
    case AdjustGreen => Read(GetChannel(led, Green), led)
    case AdjustBlue => Read(GetChannel(led, Blue), led)
    case AdjustHue =>
      var rd := GetHue(cv, led);
      Read(cv.feedbackByte(rd.value), rd.led)
    case AdjustSaturation =>
      var rd := GetSaturation(cv, led);
      Read(cv.feedbackByte(rd.value), rd.led)
    case AdjustIntensity => Read(cv.feedbackByte(GetIntensity(cv, led)), led)
  }

  /** Two nodes show the same colour through both views and keep the same address and registers. */
  ghost predicate SameViewsAndRegisters(cv: Conversions, a: Node, b: Node) {
    && GetRgb(a.led) == GetRgb(b.led)
    && GetHsl(cv, a.led) == GetHsl(cv, b.led)
    && a.address == b.address
    && a.rgbStep == b.rgbStep
    && a.hslStep == b.hslStep
  }

  /** Both step registers hold one of their two values. */
  predicate StepsWellFormed(n: Node) {
    && (n.rgbStep == RgbLargeStep || n.rgbStep == RgbSmallStep)
    && (n.hslStep == HslLargeStep || n.hslStep == HslSmallStep)
  }

  // ---------------------------------------------------------------------
  // The command table
  // ---------------------------------------------------------------------

  /** Report the governed value: read it (maybe refreshing the cache), then `send_feedback`. */
  function Report(cv: Conversions, mode: Mode, n: Node, address: Byte): (r: NodeReaction)
    ensures r.requests == []
    ensures r.out == Feedback(address, n.address, FeedbackKind(mode), GovernedValue(cv, mode, n.led))
    ensures SameViewsAndRegisters(cv, n, r.ctx)
    ensures !mode.AdjustHue? && !mode.AdjustSaturation? ==> r.ctx == n
  {
    var rd := ReadGoverned(cv, mode, n.led);
    Engine.Reaction(n.(led := rd.led), [], Feedback(address, n.address, FeedbackKind(mode), rd.value))
  }

  /**
   * `E_SET_*`: naming the current mode only re-sends its value; naming
   * another mode calls `TRAN` and says nothing.
   */
  function ChooseMode(cv: Conversions, mode: Mode, target: Mode, n: Node, address: Byte): (r: NodeReaction)
    ensures target == mode ==> r.requests == [] && SameViewsAndRegisters(cv, n, r.ctx)
    ensures target == mode ==> r.out == Feedback(address, n.address, FeedbackKind(mode), GovernedValue(cv, mode, n.led))
    ensures target != mode ==> r.requests == [target] && r.out == [] && r.ctx == n
  {
    if target == mode then Report(cv, mode, n, address)
    else Engine.Reaction(n, [target], [])
  }

  /**
   * The channel value after one encoder step, through the `int16_t`
   * temporary: the sum is capped at 255 on a clockwise turn, the difference
   * floored at 0 on a counter-clockwise turn.
   */
  function StepChannel(c: Byte, step: Byte, clockwise: bool): (v: Byte)
    ensures clockwise ==> v == Min(255, c + step)
    ensures !clockwise ==> v == Max(0, c - step)
  {
    var temp: Int16 := if clockwise then c + step else c - step;
    if clockwise then (if temp > 255 then 255 else temp)
    else (if temp < 0 then 0 else temp)
  }

  function Min(a: int, b: int): int { if a <= b then a else b }
  function Max(a: int, b: int): int { if a >= b then a else b }

  /**
   * The governed HSL component after one encoder step: hue wraps by a whole
   * turn past 0.99 or below 0.01, saturation is kept within [0.01, 0.99],
   * and intensity within [0, 0.99].
   */
  function StepComponent(mode: Mode, x: real, step: real, clockwise: bool): (r: real)
    requires !IsRgbMode(mode)
    // hue: the moved value, shifted by one whole turn exactly when it passes a threshold
    ensures mode == AdjustHue ==>
      var moved := if clockwise then x + step else x - step;
      && (clockwise ==> r == moved || r == moved - 1.0)
      && (!clockwise ==> r == moved || r == moved + 1.0)
      && (clockwise ==> (r == moved - 1.0 <==> moved > 0.99))
      && (!clockwise ==> (r == moved + 1.0 <==> moved < 0.01))
    // saturation and intensity: the least of the sum and 0.99 ...
    ensures mode != AdjustHue && clockwise ==>
      r <= 0.99 && r <= x + step && (r == x + step || r == 0.99)
    // ... or the greatest of the difference and the floor
    ensures mode == AdjustSaturation && !clockwise ==>
      r >= 0.01 && r >= x - step && (r == x - step || r == 0.01)
    ensures mode == AdjustIntensity && !clockwise ==>
      r >= 0.0 && r >= x - step && (r == x - step || r == 0.0)
  {
    var temp := if clockwise then x + step else x - step;
    match mode
    case AdjustHue =>
      if clockwise then (if temp > 0.99 then temp - 1.0 else temp)
      else (if temp < 0.01 then temp + 1.0 else temp)
    case AdjustSaturation =>
      if clockwise then (if temp > 0.99 then 0.99 else temp)
      else (if temp < 0.01 then 0.01 else temp)
    case AdjustIntensity =>
      if clockwise then (if temp > 0.99 then 0.99 else temp)
      else (if temp < 0.0 then 0.0 else temp)
  }

  /** Read an HSL component with the mode's getter. */
  function ReadComponent(cv: Conversions, mode: Mode, led: Led): (r: Read<real>)
    requires !IsRgbMode(mode)
    ensures r.value == Component(mode, GetHsl(cv, led))
    ensures GetRgb(r.led) == GetRgb(led) && GetHsl(cv, r.led) == GetHsl(cv, led)
  {
    match mode
    case AdjustHue => GetHue(cv, led)
    case AdjustSaturation => GetSaturation(cv, led)
    case AdjustIntensity => Read(GetIntensity(cv, led), led)
  }

  /** Write an HSL component with the mode's setter. */
  function WriteComponent(cv: Conversions, mode: Mode, led: Led, v: real): (r: Led)
    requires !IsRgbMode(mode)
    ensures GetHsl(cv, r) == WithComponent(mode, GetHsl(cv, led), v)
    ensures r.hslValid && GetRgb(r) == cv.hslToRgb(GetHsl(cv, r))
  {
    match mode
    case AdjustHue => RgbLed.SetHue(cv, led, v)
    case AdjustSaturation => RgbLed.SetSaturation(cv, led, v)
    case AdjustIntensity => RgbLed.SetIntensity(cv, led, v)
  }

  /** `E_RE_CW` / `E_RE_CCW`: adjust the governed value by the family's step, then report it. */
  function Encoder(cv: Conversions, mode: Mode, n: Node, address: Byte, clockwise: bool): (r: NodeReaction)
    ensures r.requests == []
    ensures r.ctx.address == n.address && r.ctx.rgbStep == n.rgbStep && r.ctx.hslStep == n.hslStep
    ensures IsRgbMode(mode) ==>
      && GetChannel(r.ctx.led, ModeChannel(mode)) == StepChannel(GetChannel(n.led, ModeChannel(mode)), n.rgbStep, clockwise)
      && (forall ch: Channel | ch != ModeChannel(mode) :: GetChannel(r.ctx.led, ch) == GetChannel(n.led, ch))
      && !r.ctx.led.hslValid
    ensures !IsRgbMode(mode) ==>
      && GetHsl(cv, r.ctx.led) == WithComponent(mode, GetHsl(cv, n.led),
           StepComponent(mode, Component(mode, GetHsl(cv, n.led)), n.hslStep, clockwise))
      && GetRgb(r.ctx.led) == cv.hslToRgb(GetHsl(cv, r.ctx.led))
    ensures r.out == Feedback(address, n.address, FeedbackKind(mode), GovernedValue(cv, mode, r.ctx.led))
  {
    if IsRgbMode(mode) then
      var ch := ModeChannel(mode);
      var led := SetChannel(n.led, ch, StepChannel(GetChannel(n.led, ch), n.rgbStep, clockwise));
      Report(cv, mode, n.(led := led), address)
    else
      var rd := ReadComponent(cv, mode, n.led);
      var led := WriteComponent(cv, mode, rd.led, StepComponent(mode, rd.value, n.hslStep, clockwise));
      Report(cv, mode, n.(led := led), address)
  }

  /**
   * `E_RE_PRESSED` / `E_RE_RELEASED`: the family's shared step register
   * becomes small or large; nothing is reported.
   */
  function StepSize(mode: Mode, n: Node, pressed: bool): (r: NodeReaction)
    ensures r.requests == [] && r.out == []
    ensures r.ctx.led == n.led && r.ctx.address == n.address
    ensures IsRgbMode(mode) ==>
      r.ctx.rgbStep == (if pressed then RgbSmallStep else RgbLargeStep) && r.ctx.hslStep == n.hslStep
    ensures !IsRgbMode(mode) ==>
      r.ctx.hslStep == (if pressed then HslSmallStep else HslLargeStep) && r.ctx.rgbStep == n.rgbStep
  {
    if IsRgbMode(mode) then
      Engine.Reaction(n.(rgbStep := if pressed then RgbSmallStep else RgbLargeStep), [], [])
    else
      Engine.Reaction(n.(hslStep := if pressed then HslSmallStep else HslLargeStep), [], [])
  }

  /**
   * `E_ONLY_*`: set one channel to 128 and keep the other two. An RGB mode
   * reports only when the channel is its own; an HSL mode always reports.
   */
  function OnlyChannel(cv: Conversions, mode: Mode, n: Node, address: Byte, ch: Channel): (r: NodeReaction)
    ensures r.requests == []
    ensures r.ctx.address == n.address && r.ctx.rgbStep == n.rgbStep && r.ctx.hslStep == n.hslStep
    ensures GetRgb(r.ctx.led) == WithChannel(GetRgb(n.led), ch, 128)
    ensures GetHsl(cv, r.ctx.led) == cv.rgbToHsl(WithChannel(GetRgb(n.led), ch, 128))
    ensures IsRgbMode(mode) && ModeChannel(mode) != ch ==> r.out == []
    ensures !IsRgbMode(mode) || ModeChannel(mode) == ch ==>
      r.out == Feedback(address, n.address, FeedbackKind(mode), GovernedValue(cv, mode, r.ctx.led))
  {
    var n' := n.(led := SetRgb(n.led, WithChannel(GetRgb(n.led), ch, 128)));
    if IsRgbMode(mode) && ModeChannel(mode) != ch then Engine.Reaction(n', [], [])
    else Report(cv, mode, n', address)
  }

  /** The intensity an HSL mode sets for each bulk level. */
  function LevelIntensity(level: Level): real {
    match level
    case Off => 0.0
    case Half => 0.5
    case On => 0.99
  }

  /** The literal value the intensity mode reports for each bulk level. */
  function LevelByte(level: Level): Byte {
    match level
    case Off => 0
    case Half => 128
    case On => 255
  }

  /** The RGB triple an RGB mode sets for each bulk level. */
  function LevelRgb(level: Level): Rgb {
    match level
    case Off => Black
    case Half => Grey
    case On => White
  }

  /**
   * `E_ALL_OFF` / `E_ALL_HALF` / `E_ALL_ON`: an RGB mode sets the whole
   * triple, an HSL mode sets the intensity; then the mode reports, the
   * intensity mode with a literal value.
   */
  function Bulk(cv: Conversions, mode: Mode, n: Node, address: Byte, level: Level): (r: NodeReaction)
    ensures r.requests == []
    ensures r.ctx.address == n.address && r.ctx.rgbStep == n.rgbStep && r.ctx.hslStep == n.hslStep
    ensures IsRgbMode(mode) ==> GetRgb(r.ctx.led) == LevelRgb(level) && !r.ctx.led.hslValid
    ensures !IsRgbMode(mode) ==>
      && GetHsl(cv, r.ctx.led) == GetHsl(cv, n.led).(l := LevelIntensity(level))
      && GetRgb(r.ctx.led) == cv.hslToRgb(GetHsl(cv, r.ctx.led))
    ensures mode == AdjustIntensity ==> r.out == Feedback(address, n.address, LedIntensityPwm, LevelByte(level))
    ensures mode != AdjustIntensity ==>
      r.out == Feedback(address, n.address, FeedbackKind(mode), GovernedValue(cv, mode, r.ctx.led))
  {
    if IsRgbMode(mode) then
      var led := match level
        case Off => RgbOff(n.led)
        case Half => SetRgb(n.led, Grey)
        case On => RgbOn(n.led);
      Report(cv, mode, n.(led := led), address)
    else
      var n' := n.(led := RgbLed.SetIntensity(cv, n.led, LevelIntensity(level)));
      if mode == AdjustIntensity then
        Engine.Reaction(n', [], Feedback(address, n.address, LedIntensityPwm, LevelByte(level)))
      else Report(cv, mode, n', address)
  }

  /** The mode an `E_SET_*` command names. */
  predicate IsModeSelect(k: Kind) {
    k.SetRed? || k.SetGreen? || k.SetBlue? || k.SetHue? || k.SetSaturation? || k.SetIntensity?
  }

  function SelectedMode(k: Kind): Mode
    requires IsModeSelect(k)
  {
    match k
    case SetRed => AdjustRed
    case SetGreen => AdjustGreen
    case SetBlue => AdjustBlue
    case SetHue => AdjustHue
    case SetSaturation => AdjustSaturation
    case SetIntensity => AdjustIntensity
  }

  /**
   * The controller table, identical in shape in every mode. Kinds it does
   * not name fall to the `default` branch and do nothing.
   */
  function Command(cv: Conversions, mode: Mode, n: Node, e: Event): (r: NodeReaction)
    ensures r.ctx.address == n.address
    ensures forall t | t in r.requests :: t != mode
    ensures |r.requests| <= 1
    ensures r.requests != [] <==> IsModeSelect(e.kind) && SelectedMode(e.kind) != mode
    ensures forall o | o in r.out :: o.Send? || o.BlinkLed? ==> ShouldReply(e.data, n.address)
    ensures forall o | o in r.out && o.Send? :: o.msg.source == RgbNode
    ensures StepsWellFormed(n) ==> StepsWellFormed(r.ctx)
  {
    var address := e.data;
    match e.kind
    case SetRed => ChooseMode(cv, mode, AdjustRed, n, address)
    case SetGreen => ChooseMode(cv, mode, AdjustGreen, n, address)
    case SetBlue => ChooseMode(cv, mode, AdjustBlue, n, address)
    case SetHue => ChooseMode(cv, mode, AdjustHue, n, address)
    case SetSaturation => ChooseMode(cv, mode, AdjustSaturation, n, address)
    case SetIntensity => ChooseMode(cv, mode, AdjustIntensity, n, address)
    case EncoderCw => Encoder(cv, mode, n, address, true)
    case EncoderCcw => Encoder(cv, mode, n, address, false)
    case EncoderPressed => StepSize(mode, n, true)
    case EncoderReleased => StepSize(mode, n, false)
    case OnlyRed => OnlyChannel(cv, mode, n, address, Red)
    case OnlyGreen => OnlyChannel(cv, mode, n, address, Green)
    case OnlyBlue => OnlyChannel(cv, mode, n, address, Blue)
    case AllOff => Bulk(cv, mode, n, address, Off)
    case AllHalf => Bulk(cv, mode, n, address, Half)
    case AllOn => Bulk(cv, mode, n, address, On)
    case Select => Engine.Reaction(n, [], BlinkIfAddressed(address, n.address))
    case ForceFeedback => Report(cv, mode, n, address)
    case EnableStatusLed => Engine.Reaction(n, [], [StatusLed(true)])
    case DisableStatusLed => Engine.Reaction(n, [], [StatusLed(false)])
    case _ => Engine.Reaction(n, [], [])
  }

  /**
   * One handler `STATE_ADJ_MODE_*` applied to one event: the address filter,
   * then dispatch on the source. An engine event is only acted on when it is
   * ENTER, by reporting the governed value; in the intensity mode that case
   * has no `break` and runs on into the controller table.
   */
  function Handle(cv: Conversions, mode: Mode, n: Node, e: Event): (r: NodeReaction)
    ensures !ActOn(e.data, n.address) ==> r == Engine.Reaction(n, [], [])
    ensures r.ctx.address == n.address
    ensures forall t | t in r.requests :: t != mode
    ensures |r.requests| <= 1
    ensures e.kind == EnterState || e.kind == ExitState ==> r.requests == []
    ensures e.kind == ExitState ==> r == Engine.Reaction(n, [], [])
    ensures forall o | o in r.out :: o.Send? || o.BlinkLed? ==> ShouldReply(e.data, n.address)
    ensures forall o | o in r.out && o.Send? :: o.msg.source == RgbNode
    ensures StepsWellFormed(n) ==> StepsWellFormed(r.ctx)
  {
    if !ActOn(e.data, n.address) then Engine.Reaction(n, [], [])
    else
      match e.source
      case StateMachine =>
        var entered := if e.kind == EnterState then Report(cv, mode, n, e.data) else Engine.Reaction(n, [], []);
        if mode == AdjustIntensity then
          var rest := Command(cv, mode, entered.ctx, e);
          Engine.Reaction(rest.ctx, entered.requests + rest.requests, entered.out + rest.out)
        else entered
      case RgbController => Command(cv, mode, n, e)
      case RgbNode => Engine.Reaction(n, [], [])
  }

  /** The node's handlers as one function the engine can dispatch through. */
  function Handler(cv: Conversions): (Mode, Node, Event) -> NodeReaction {
    (mode: Mode, n: Node, e: Event) => Handle(cv, mode, n, e)
  }

  /** `process` on the node: one event, then any deferred exit and entry. */
  function Step(cv: Conversions, m: Engine.Machine<Mode>, n: Node, e: Event): (r: Engine.Stepped<Mode, Node, Effect>)
    ensures r.machine.enterEvent == m.enterEvent && r.machine.exitEvent == m.exitEvent
    ensures r.ctx.address == n.address
    ensures !m.transition && !ActOn(e.data, n.address) ==> r == Engine.Stepped(m, n, [])
  {
    Engine.Process(Handler(cv), m, n, e)
  }

  /** The result of construction: the engine, the node, and what construction emitted. */
  datatype Start = Start(machine: Engine.Machine<Mode>, node: Node, out: seq<Effect>)

  /**
   * The constructor: the LED is initialised through the HSL setters, the
   * step registers start large, the initial mode's handler receives ENTER
   * while the node address is still 0, and only then are the DIP switches
   * (`dip`) read; finally the status LED is switched off.
   */
  function Construct(cv: Conversions, dip: Address, sysData: Byte): (s: Start)
    ensures s.machine.state == InitialMode && !s.machine.transition
    ensures s.node.address == dip
    ensures s.node.rgbStep == RgbLargeStep && s.node.hslStep == HslLargeStep
  {
    var led := RgbLed.SetIntensity(cv, RgbLed.SetSaturation(cv, HslOff(cv, Init()), 0.99), 0.25);
    var n := Node(led, 0, RgbLargeStep, HslLargeStep);
    var m := Engine.Construct(InitialMode, sysData);
    var entered := Handle(cv, m.state, n, m.enterEvent);
    Start(Engine.TranAll(m, entered.requests), entered.ctx.(address := dip), entered.out + [StatusLed(false)])
  }
}
