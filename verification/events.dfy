/** The events exchanged on the bus and inside the state machine. */
module Events {
  import opened Bytes

  /** Who produced an event: the engine itself, the remote controller, or a node. */
  datatype Source = StateMachine | RgbController | RgbNode

  /**
   * Every event kind the node's handlers and its feedback messages use:
   * engine-internal entry and exit, the controller's commands, and the
   * feedback kinds a node reports its governed value with.
   */
  datatype Kind =
    | EnterState | ExitState
    | SetRed | SetGreen | SetBlue | SetHue | SetSaturation | SetIntensity
    | EncoderCw | EncoderCcw | EncoderPressed | EncoderReleased
    | OnlyRed | OnlyGreen | OnlyBlue
    | AllOff | AllHalf | AllOn
    | Select | ForceFeedback
    | EnableStatusLed | DisableStatusLed
    | LedRedPwm | LedGreenPwm | LedBluePwm
    | LedHuePwm | LedSaturationPwm | LedIntensityPwm

  /**
   * One occurrence. `data` is a bus address on inbound commands and a
   * 0..255 value on outbound feedback.
   */
  datatype Event = Event(source: Source, kind: Kind, data: Byte)
}
