/**
 * Messages exchanged over the inter-task channels. The flash-control messages
 * and the newer bus-telemetry tags are used by lib_buttons.rs, lib_actuator.rs and
 * drive-by-wire.rs but defined in revisions of lib_config.rs and lib_can_bus.rs
 * that are not part of this model; they are declared here with the constructors
 * those callers use.
 */
module Messages {
  import opened Gear

  /** Requests to, and replies from, the flash-control task (`FlashConfigMessages`). */
  datatype FlashConfigMessage =
    | ReadButton | ReadValet
    | ButtonP | ButtonR | ButtonN | ButtonD
    | ValetOn | ValetOff
  {
    /** The four replies that name a stored gear. */
    predicate IsButton() {
      ButtonP? || ButtonR? || ButtonN? || ButtonD?
    }
  }

  /** `FlashConfigMessages::from`: the message that asks the flash task to store a gear. */
  function FlashMessageOf(b: Button): (m: FlashConfigMessage)
    ensures m.IsButton()
    ensures ToButton(m) == b
  {
    match b
    case P => ButtonP
    case R => ButtonR
    case N => ButtonN
    case D => ButtonD
  }

  /** `FlashConfigMessages::to_button`, defined on the four gear replies only. */
  function ToButton(m: FlashConfigMessage): (b: Button)
    requires m.IsButton()
    ensures (b == P <==> m == ButtonP) && (b == R <==> m == ButtonR)
    ensures (b == N <==> m == ButtonN) && (b == D <==> m == ButtonD)
  {
    match m
    case ButtonP => P
    case ButtonR => R
    case ButtonN => N
    case ButtonD => D
  }

  /** Every gear reply is the message of the button it decodes to. */
  lemma ToButtonInverse(m: FlashConfigMessage)
    requires m.IsButton()
    ensures FlashMessageOf(ToButton(m)) == m
  {
  }

  /** Status tags for the vehicle bus writer (`CANMessage`); only their order is modelled. */
  datatype CanMessage =
    | Starting | RelaysInitialized | InitActuator | ActuatorInitialized | ActuatorTestFailed
    | InitFP | FPInitialized | Authorizing | Authorized | ValetMode
    | ButtonsInitialized | StartCar | EnableValetMode | DisableValetMode

  /** The only message the watchdog feeder understands (`StopWatchdog::Yes`). */
  datatype StopWatchdog = Yes
}
