/**
 * The older single-file firmware (main.rs): the same button/actuator protocol,
 * but with an UNSET gear at boot, an unbounded wait on the lock, a one-byte
 * flash store per slot, and the actuator moved by pulsing its motor pins.
 */
module Legacy {
  import opened Wrappers
  import opened Gear
  import opened Shared
  import opened Buttons
  import opened Motion
  import opened FlashDevice
  import Config

  /** `BUTTON_ENABLED` of main.rs: a gear, or `UNSET` until the stored one is known. */
  datatype Selected = Selected(button: Button) | Unset

  /** The `repr(u8)` discriminant of main.rs's `Button`: P=0, R=1, N=2, D=3, UNSET=4. */
  function Discriminant(s: Selected): (v: nat)
    ensures v <= 4
    ensures v == 4 <==> s == Unset
    ensures s.Selected? ==> v == ToInteger(s.button)
  {
    match s
    case Selected(b) => ToInteger(b)
    case Unset => 4
  }

  /** Where the one-byte slot at `offset` lives: `ADDR_OFFSET + offset + ERASE_SIZE`. */
  function SlotAddress(offset: nat): nat
  {
    Config.ADDR_OFFSET + offset + ERASE_SIZE
  }

  /** The largest `u32`: the address arithmetic of main.rs must not exceed it. */
  const U32_MAX: nat := 0xFFFF_FFFF

  /** What `read_flash(offset)` returns: the stored byte, or the pre-zeroed buffer's 0 when the read fails. */
  function SlotValue(mem: seq<bv8>, offset: nat, fault: bool): (v: bv8)
    requires |mem| == FLASH_SIZE
    ensures fault ==> v == 0
    ensures !fault && SlotAddress(offset) < FLASH_SIZE ==> v == mem[SlotAddress(offset)]
  {
    if SlotAddress(offset) + 1 > FLASH_SIZE || fault then 0 else mem[SlotAddress(offset)]
  }

  /** The flash contents after `write_flash(offset, b)`, given which of its erase and write fail. */
  function AfterSlotWrite(mem: seq<bv8>, offset: nat, b: bv8, eraseFault: bool, writeFault: bool): (m: seq<bv8>)
    requires |mem| == FLASH_SIZE
    ensures |m| == FLASH_SIZE
  {
    var addr := SlotAddress(offset);
    var erased :=
      if addr + ERASE_SIZE > FLASH_SIZE || addr % ERASE_SIZE != 0 || (addr + ERASE_SIZE) % ERASE_SIZE != 0 || eraseFault
      then mem
      else Erased(mem, addr, addr + ERASE_SIZE);
    if addr + 1 > FLASH_SIZE || writeFault then erased else Programmed(erased, addr, [b])
  }

  /** A successful erase and write of slot 0 is read back by the `read_flash(0)` that follows. */
  lemma SlotWriteThenRead(mem: seq<bv8>, b: bv8)
    requires |mem| == FLASH_SIZE
    ensures SlotValue(AfterSlotWrite(mem, 0, b, false, false), 0, false) == b
  {
    ProgramErased(mem, SlotAddress(0), SlotAddress(0) + ERASE_SIZE, SlotAddress(0), [b]);
    assert AfterSlotWrite(mem, 0, b, false, false)[SlotAddress(0) .. SlotAddress(0) + 1][0]
        == AfterSlotWrite(mem, 0, b, false, false)[SlotAddress(0)];
  }

  /**
   * `write_flash` returns slot 0 whatever slot it wrote: writing the valet slot
   * two blocks further on leaves the value it returns as it was.
   */
  lemma SlotWriteReturnsSlotZero(mem: seq<bv8>, b: bv8, eraseFault: bool, writeFault: bool, readFault: bool)
    requires |mem| == FLASH_SIZE
    ensures SlotValue(AfterSlotWrite(mem, 2 * ERASE_SIZE, b, eraseFault, writeFault), 0, readFault)
         == SlotValue(mem, 0, readFault)
  {
  }

  /** A byte that is not `0..3` decodes to no gear at boot. */
  function StoredGear(stored: bv8): (s: Selected)
    ensures s.Selected? <==> stored < 4
    ensures s.Selected? ==> ToInteger(s.button) == stored as nat
  {
    if stored < 4 then Selected(FromInteger(stored as nat)) else Unset
  }

  /** The tasks' shared state in main.rs; the moves are kept as motor-pin events. */
  class LegacyGlobals {
    /** `BUTTON_ENABLED`, UNSET at start. */
    var enabled: Selected
    /** `BUTTONS_BLOCKED`. */
    var blocked: bool
    /** `CHANNEL_P`, `CHANNEL_R`, `CHANNEL_N`, `CHANNEL_D`. */
    var leds: map<Button, seq<LedStatus>>
    /** `CHANNEL_ACTUATOR`. */
    var actuator: seq<Button>
    /** The pin writes of every `move_actuator` so far. */
    var motor: seq<MotorEvent>
    /** Effects in the order they were made. */
    var trace: seq<Effect>

    ghost predicate Valid()
      reads this
    {
      P in leds && R in leds && N in leds && D in leds
    }

    /** The globals as declared in main.rs. */
    constructor ()
      ensures Valid()
      ensures enabled == Unset && !blocked
      ensures leds == NoLedMessages() && actuator == [] && motor == [] && trace == []
    {
      enabled := Unset;
      blocked := false;
      leds := NoLedMessages();
      actuator := [];
      motor := [];
      trace := [];
    }

    /** Sends `status` to the LED task of `b`. */
    method SendLed(b: Button, status: LedStatus)
      requires Valid()
      modifies this
      ensures Valid()
      ensures leds == old(leds)[b := old(leds)[b] + [status]]
      ensures trace == old(trace) + [Send(LedChannel(b))]
      ensures enabled == old(enabled) && blocked == old(blocked) && actuator == old(actuator) && motor == old(motor)
    {
      leds := leds[b := leds[b] + [status]];
      trace := trace + [Send(LedChannel(b))];
    }

    /** One blink of `b`'s LED: Off, then On. */
    method BlinkOnce(b: Button)
      requires Valid()
      modifies this
      ensures Valid()
      ensures leds == old(leds)[b := old(leds)[b] + [Off, On]]
      ensures trace == old(trace) + [Send(LedChannel(b)), Send(LedChannel(b))]
      ensures enabled == old(enabled) && blocked == old(blocked) && actuator == old(actuator) && motor == old(motor)
    {
      leds := leds[b := leds[b] + [Off, On]];
      trace := trace + [Send(LedChannel(b)), Send(LedChannel(b))];
    }

    /** Takes the oldest request, moves the actuator to it, then releases the lock and enables it. */
    method MoveToRequest() returns (b: Button)
      requires Valid() && actuator != []
      modifies this
      ensures Valid()
      ensures b == old(actuator)[0] && actuator == old(actuator)[1..]
      ensures motor == old(motor) + MoveTrace(MoveAmount(Discriminant(old(enabled)), ToInteger(b)))
      ensures !blocked && enabled == Selected(b)
      ensures trace == old(trace) + [Moved(ToGearMode(b)), WriteBlocked(false), WriteEnabled(b)]
      ensures leds == old(leds)
    {
      b := actuator[0];
      actuator := actuator[1..];
      var events := MoveActuator(MoveAmount(Discriminant(enabled), ToInteger(b)));
      motor := motor + events;
      blocked := false;
      enabled := Selected(b);
      trace := trace + [Moved(ToGearMode(b)), WriteBlocked(false), WriteEnabled(b)];
    }
  }

  /**
   * The LED pattern that shows gear `b`: its own LED on, the three others off.
   * A press sends it in the order P, N, R, D; the boot decode in the order P, R, N, D.
   */
  method ShowGear(g: LegacyGlobals, b: Button, atBoot: bool)
    requires g.Valid()
    modifies g
    ensures g.Valid()
    ensures g.leds.Keys == old(g.leds).Keys
    ensures g.leds[P] == old(g.leds)[P] + [Lamp(P, b)] && g.leds[R] == old(g.leds)[R] + [Lamp(R, b)]
    ensures g.leds[N] == old(g.leds)[N] + [Lamp(N, b)] && g.leds[D] == old(g.leds)[D] + [Lamp(D, b)]
    ensures g.trace == old(g.trace) +
      if atBoot then [Send(LedChannel(P)), Send(LedChannel(R)), Send(LedChannel(N)), Send(LedChannel(D))]
      else [Send(LedChannel(P)), Send(LedChannel(N)), Send(LedChannel(R)), Send(LedChannel(D))]
    ensures g.enabled == old(g.enabled) && g.blocked == old(g.blocked) && g.actuator == old(g.actuator) && g.motor == old(g.motor)
  {
    g.SendLed(P, Lamp(P, b));
    if atBoot {
      g.SendLed(R, Lamp(R, b));
      g.SendLed(N, Lamp(N, b));
    } else {
      g.SendLed(N, Lamp(N, b));
      g.SendLed(R, Lamp(R, b));
    }
    g.SendLed(D, Lamp(D, b));
  }

  /** A stored gear survives a restart: `write_flash(0, b)` then `read_flash(0)` then the boot decode give `b` back. */
  lemma PersistedGearSurvivesRestart(mem: seq<bv8>, b: Button)
    requires |mem| == FLASH_SIZE
    ensures StoredGear(SlotValue(AfterSlotWrite(mem, 0, ToInteger(b) as bv8, false, false), 0, false)) == Selected(b)
  {
    var stored := ToInteger(b) as bv8;
    SlotWriteThenRead(mem, stored);
    DecodeStored(b);
  }

  /** The byte a gear is stored as decodes back to that gear. */
  lemma DecodeStored(b: Button)
    ensures StoredGear(ToInteger(b) as bv8) == Selected(b)
  {
    var stored := ToInteger(b) as bv8;
    assert stored as nat == ToInteger(b);
  }

  /** A failed read leaves the pre-zeroed 0, which the boot decode takes for P. */
  lemma FailedReadMeansPark(mem: seq<bv8>, offset: nat)
    requires |mem| == FLASH_SIZE
    ensures StoredGear(SlotValue(mem, offset, true)) == Selected(P)
  {
  }

  /** `read_flash` (main.rs:157-166): one byte of slot `offset`. */
  method ReadFlash(dev: Flash, offset: nat, fault: bool) returns (v: bv8)
    requires dev.Valid()
    requires SlotAddress(offset) <= U32_MAX
    modifies dev
    ensures dev.Valid() && dev.mem == old(dev.mem)
    ensures dev.ops == old(dev.ops) + [ReadOp(SlotAddress(offset), 1)]
    ensures v == SlotValue(dev.mem, offset, fault)
  {
    var buf: seq<bv8> := [0];
    var r := dev.BlockingRead(SlotAddress(offset), 1, fault);
    if r.Ok? {
      buf := r.value;
    }
    v := buf[0];
  }

  /** Which flash operations of one `write_flash` fail. */
  datatype SlotFaults = SlotFaults(erase: bool, write: bool, read: bool)

  /** The erase and the one-byte write of `write_flash`, before its closing read. */
  method WriteSlot(dev: Flash, offset: nat, b: bv8, faults: SlotFaults)
    requires dev.Valid()
    modifies dev
    ensures dev.Valid()
    ensures dev.mem == AfterSlotWrite(old(dev.mem), offset, b, faults.erase, faults.write)
    ensures dev.ops == old(dev.ops) + [EraseOp(SlotAddress(offset), SlotAddress(offset) + ERASE_SIZE),
                                       ProgramOp(SlotAddress(offset), [b])]
  {
    var addr := SlotAddress(offset);
    ghost var erasedMem := AfterSlotWrite(old(dev.mem), offset, b, faults.erase, true);
    var erase := dev.BlockingErase(addr, addr + ERASE_SIZE, faults.erase);
    assert erase.Pass? <==>
      !(addr + ERASE_SIZE > FLASH_SIZE || addr % ERASE_SIZE != 0 || (addr + ERASE_SIZE) % ERASE_SIZE != 0 || faults.erase);
    assert dev.mem == erasedMem;
    var write := dev.BlockingWrite(addr, [b], faults.write);
    assert write.Pass? <==> !(addr + 1 > FLASH_SIZE || faults.write);
  }

  /**
   * `write_flash` (main.rs:142-155): erase the block of slot `offset`, write
   * `b` at its start, and return `read_flash(0)`. Failures are only logged.
   */
  method WriteFlash(dev: Flash, offset: nat, b: bv8, faults: SlotFaults) returns (v: bv8)
    requires dev.Valid()
    requires SlotAddress(offset) + ERASE_SIZE <= U32_MAX
    modifies dev
    ensures dev.Valid()
    ensures dev.mem == AfterSlotWrite(old(dev.mem), offset, b, faults.erase, faults.write)
    ensures dev.ops == old(dev.ops) + [EraseOp(SlotAddress(offset), SlotAddress(offset) + ERASE_SIZE),
                                       ProgramOp(SlotAddress(offset), [b]), ReadOp(SlotAddress(0), 1)]
    ensures v == SlotValue(dev.mem, 0, faults.read)
  {
    WriteSlot(dev, offset, b, faults);
    v := ReadFlash(dev, 0, faults.read);
  }

  /** The three Off/On blinks of the enabled button's own LED (main.rs:355-360). */
  method Blink(g: LegacyGlobals, b: Button)
    requires g.Valid()
    modifies g
    ensures g.Valid()
    ensures g.leds == old(g.leds)[b := old(g.leds)[b] + Blinks(3)]
    ensures g.trace == old(g.trace) + Repeated(Send(LedChannel(b)), 6)
    ensures g.enabled == old(g.enabled) && g.blocked == old(g.blocked) && g.actuator == old(g.actuator) && g.motor == old(g.motor)
  {
    ghost var led0, trace0 := g.leds[b], g.trace;
    assert led0 + Blinks(0) == led0;
    assert g.leds == old(g.leds)[b := led0 + Blinks(0)];
    for i := 0 to 3
      invariant g.Valid()
      invariant g.leds == old(g.leds)[b := led0 + Blinks(i)]
      invariant g.trace == trace0 + Repeated(Send(LedChannel(b)), 2 * i)
      invariant g.enabled == old(g.enabled) && g.blocked == old(g.blocked) && g.actuator == old(g.actuator) && g.motor == old(g.motor)
    {
      g.BlinkOnce(b);
      assert led0 + Blinks(i) + [Off, On] == led0 + Blinks(i + 1);
    }
  }

  /**
   * One iteration of `read_button` in main.rs (main.rs:319-457) for the task of
   * `button`. A held lock is waited out with no bound, so `clearedDuringSleep`
   * (the one-second sleep during which another task releases it) must be given.
   */
  method ReadButtonStep(g: LegacyGlobals, button: Button, releasedInTime: bool, clearedDuringSleep: nat)
    returns (outcome: PressOutcome)
    requires g.Valid()
    requires g.blocked ==> clearedDuringSleep >= 1
    modifies g
    ensures g.Valid()
    ensures g.enabled == old(g.enabled) && g.motor == old(g.motor) && g.leds.Keys == old(g.leds).Keys
    ensures old(g.blocked) ==>
              outcome == Waited(clearedDuringSleep, false) && !g.blocked
              && g.leds == old(g.leds) && g.actuator == old(g.actuator) && g.trace == old(g.trace)
    ensures !old(g.blocked) ==>
              outcome == (if !releasedInTime then HeldTooLong
                          else if old(g.enabled) == Selected(button) then AlreadySelected
                          else GearRequested)
    ensures outcome == HeldTooLong ==>
              !g.blocked && g.leds == old(g.leds) && g.actuator == old(g.actuator) && g.trace == old(g.trace)
    ensures outcome == AlreadySelected ==>
              !g.blocked && g.actuator == old(g.actuator)
              && g.leds == old(g.leds)[button := old(g.leds)[button] + Blinks(3)]
              && g.trace == old(g.trace) + Repeated(Send(LedChannel(button)), 6)
    ensures old(g.trace) <= g.trace
    ensures outcome == GearRequested ==>
              g.blocked && g.actuator == old(g.actuator) + [button]
              && g.trace == old(g.trace) + [WriteBlocked(true), Send(LedChannel(P)), Send(LedChannel(N)),
                                            Send(LedChannel(R)), Send(LedChannel(D)), Send(ActuatorChannel)]
              && g.leds[P] == old(g.leds)[P] + [Lamp(P, button)] && g.leds[R] == old(g.leds)[R] + [Lamp(R, button)]
              && g.leds[N] == old(g.leds)[N] + [Lamp(N, button)] && g.leds[D] == old(g.leds)[D] + [Lamp(D, button)]
  {
    if g.blocked {
      var sleeps := 0;
      while g.blocked
        invariant g.blocked ==> sleeps < clearedDuringSleep
        invariant !g.blocked ==> sleeps == clearedDuringSleep
        invariant g.Valid() && g.enabled == old(g.enabled) && g.motor == old(g.motor)
        invariant g.leds == old(g.leds) && g.actuator == old(g.actuator) && g.trace == old(g.trace)
        decreases clearedDuringSleep - sleeps
      {
        // One second's sleep, during which another task may release the lock.
        sleeps := sleeps + 1;
        if sleeps == clearedDuringSleep {
          g.blocked := false;
        }
      }
      return Waited(sleeps, false);
    }
    if !releasedInTime {
      // A quarter second's pause, then a wait for the release.
      return HeldTooLong;
    }
    if g.enabled == Selected(button) {
      Blink(g, button);
      outcome := AlreadySelected;
    } else {
      g.blocked := true;
      g.trace := g.trace + [WriteBlocked(true)];
      ShowGear(g, button, false);
      g.actuator := g.actuator + [button];
      g.trace := g.trace + [Send(ActuatorChannel)];
      outcome := GearRequested;
    }
  }

  /**
   * The boot decode of the stored gear (main.rs:585-622): a value 0..3 shows
   * that gear on the LEDs and enables it; any other value changes nothing.
   */
  method BootDecode(g: LegacyGlobals, stored: bv8)
    requires g.Valid()
    modifies g
    ensures g.Valid()
    ensures g.leds.Keys == old(g.leds).Keys
    ensures g.blocked == old(g.blocked) && g.actuator == old(g.actuator) && g.motor == old(g.motor)
    ensures stored >= 4 ==> g.enabled == old(g.enabled) && g.leds == old(g.leds) && g.trace == old(g.trace)
    ensures stored < 4 ==> var b := FromInteger(stored as nat);
              && g.enabled == StoredGear(stored) == Selected(b)
              && g.leds[P] == old(g.leds)[P] + [Lamp(P, b)] && g.leds[R] == old(g.leds)[R] + [Lamp(R, b)]
              && g.leds[N] == old(g.leds)[N] + [Lamp(N, b)] && g.leds[D] == old(g.leds)[D] + [Lamp(D, b)]
              && g.trace == old(g.trace) + [Send(LedChannel(P)), Send(LedChannel(R)), Send(LedChannel(N)),
                                            Send(LedChannel(D)), WriteEnabled(b)]
  {
    if stored < 4 {
      var b := FromInteger(stored as nat);
      ShowGear(g, b, true);
      g.enabled := Selected(b);
      g.trace := g.trace + [WriteEnabled(b)];
    }
  }

  /**
   * One iteration of `actuator_control` in main.rs (main.rs:252-280): move by
   * the distance between the enabled and the requested position, release the
   * lock, enable the request and store it in slot 0.
   */
  method ActuatorControlStep(g: LegacyGlobals, dev: Flash, faults: SlotFaults) returns (handled: bool)
    requires g.Valid() && dev.Valid()
    modifies g, dev
    ensures g.Valid() && dev.Valid()
    ensures handled <==> old(g.actuator) != []
    ensures !handled ==> g.actuator == old(g.actuator) && g.enabled == old(g.enabled) && g.blocked == old(g.blocked)
                         && g.motor == old(g.motor) && g.trace == old(g.trace) && dev.mem == old(dev.mem)
                         && dev.ops == old(dev.ops)
    ensures handled ==> var b := old(g.actuator)[0];
              && g.actuator == old(g.actuator)[1..]
              && g.motor == old(g.motor) + MoveTrace(MoveAmount(Discriminant(old(g.enabled)), ToInteger(b)))
              && !g.blocked && g.enabled == Selected(b)
              && g.trace == old(g.trace) + [Moved(ToGearMode(b)), WriteBlocked(false), WriteEnabled(b)]
              && dev.mem == AfterSlotWrite(old(dev.mem), 0, ToInteger(b) as bv8, faults.erase, faults.write)
              && dev.ops == old(dev.ops) + [EraseOp(SlotAddress(0), SlotAddress(0) + ERASE_SIZE),
                                            ProgramOp(SlotAddress(0), [ToInteger(b) as bv8]), ReadOp(SlotAddress(0), 1)]
    ensures g.leds == old(g.leds)
  {
    if g.actuator == [] {
      return false;
    }
    var button := g.MoveToRequest();
    var _ := WriteFlash(dev, 0, ToInteger(button) as bv8, faults);
    handled := true;
  }
}
