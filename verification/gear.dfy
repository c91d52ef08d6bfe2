/**
 * The gear buttons of the selector (`Button` in lib_buttons.rs), the actuator's
 * gear modes, and the conversions between them and the stored byte.
 */
module Gear {

  /** One of the four physical gear buttons, in declaration order. */
  datatype Button = P | R | N | D

  /** The gear positions the actuator crate moves to (`actuator::GearModes`). */
  datatype GearMode = ParkMode | ReverseMode | NeutralMode | DriveMode

  /** What an LED driver task is told to do. */
  datatype LedStatus = On | Off

  /** `Button::from`: the discriminant of a button, as stored in flash. */
  function ToInteger(b: Button): (v: nat)
    ensures v < 4
  {
    match b
    case P => 0
    case R => 1
    case N => 2
    case D => 3
  }

  /**
   * `Button::from_integer`: decodes a discriminant. Any value of 4 or more
   * panics in the source, so it is excluded here.
   */
  function FromInteger(v: nat): (b: Button)
    requires v < 4
    ensures ToInteger(b) == v
  {
    if v == 0 then P
    else if v == 1 then R
    else if v == 2 then N
    else D
  }

  /** `Button::to_gearmode`: the gear mode of the same name. */
  function ToGearMode(b: Button): (g: GearMode)
    ensures g == ParkMode <==> b == P
    ensures g == ReverseMode <==> b == R
    ensures g == NeutralMode <==> b == N
    ensures g == DriveMode <==> b == D
  {
    match b
    case P => ParkMode
    case R => ReverseMode
    case N => NeutralMode
    case D => DriveMode
  }

  /** `Button::iterator`: every button once, in the order P, R, N, D. */
  function AllButtons(): (bs: seq<Button>)
    ensures |bs| == 4
    ensures forall i :: 0 <= i < 4 ==> ToInteger(bs[i]) == i
    ensures forall b :: bs[ToInteger(b)] == b
  {
    [P, R, N, D]
  }

  /** The state of LED `c` in the pattern that shows gear `b`: only `b`'s own LED is on. */
  function Lamp(c: Button, b: Button): (s: LedStatus)
    ensures s == On <==> c == b
  {
    if c == b then On else Off
  }

  /** Distinct buttons are stored as distinct bytes and map to distinct gear modes. */
  lemma ConversionsInjective(a: Button, b: Button)
    requires a != b
    ensures ToInteger(a) != ToInteger(b)
    ensures ToGearMode(a) != ToGearMode(b)
  {
  }

  /** Encoding a button and decoding the byte gives the button back. */
  lemma DecodeEncode(b: Button)
    ensures FromInteger(ToInteger(b)) == b
  {
  }
}
