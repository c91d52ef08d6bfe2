/**
 * One iteration of a button task's loop (`read_button` in lib_buttons.rs): a
 * debounced press, handled against the shared lock `BUTTONS_BLOCKED` and the
 * enabled gear `BUTTON_ENABLED`. Timing is replaced by the events it decides.
 */
module Buttons {
  import opened Gear
  import opened Messages
  import opened Shared

  /** What the world does during one iteration of a button task. */
  datatype PressInputs = PressInputs(
    /** The button was released before the one-second deadline. */
    releasedInTime: bool,
    /** The fingerprint check of the valet chord matched. */
    fingerprintOk: bool,
    /** What the chord receives from the flash channel. */
    flashReply: FlashConfigMessage,
    /** The wait-loop sleep (counting from 1) during which another task clears the lock; 0 if none does. */
    clearedDuringSleep: nat)

  /** How an iteration ended. */
  datatype PressOutcome =
    | AlreadySelected           // blinked its own LED and released the lock
    | GearRequested             // LEDs set and a request sent; the lock stays set
    | HeldTooLong               // not released before the deadline; the lock stays set
    | ValetRejected             // chord with a failed fingerprint; the lock stays set
    | ValetToggled              // chord with a matched fingerprint; the lock released
    | Waited(sleeps: nat, forced: bool) // lock was held: waited until it was free
    | Panicked                  // the chord received an unexpected flash reply (`todo!()`)

  /** The LED messages of `n` off/on blinks. */
  function Blinks(n: nat): seq<LedStatus>
  {
    if n == 0 then [] else Blinks(n - 1) + [Off, On]
  }

  /** `n` blinks are `2n` messages, alternating Off and On and starting with Off. */
  lemma {:induction false} BlinksAlternate(n: nat)
    ensures |Blinks(n)| == 2 * n
    ensures forall k :: 0 <= k < 2 * n ==> Blinks(n)[k] == (if k % 2 == 0 then Off else On)
  {
    if n > 0 {
      BlinksAlternate(n - 1);
    }
  }

  /** The sleeps of the wait loop when the lock is held on entry: at most five. */
  function WaitSleeps(clearedDuringSleep: nat): (k: nat)
    ensures 1 <= k <= 5
    ensures k < 5 <==> 1 <= clearedDuringSleep < 5
  {
    if 1 <= clearedDuringSleep < 5 then clearedDuringSleep else 5
  }

  /** The three blinks of an already-selected button (lib_buttons.rs:250-255). */
  method Blink(g: Globals, b: Button)
    requires g.Valid()
    modifies g
    ensures g.Valid()
    ensures g.leds == old(g.leds)[b := old(g.leds)[b] + Blinks(3)]
    ensures g.trace == old(g.trace) + Repeated(Send(LedChannel(b)), 6)
    ensures g.enabled == old(g.enabled) && g.blocked == old(g.blocked) && g.actuator == old(g.actuator)
    ensures g.flash == old(g.flash) && g.can == old(g.can) && g.watchdog == old(g.watchdog)
  {
    ghost var led0, trace0 := g.leds[b], g.trace;
    assert led0 + Blinks(0) == led0;
    assert g.leds == old(g.leds)[b := led0 + Blinks(0)];
    for i := 0 to 3
      invariant g.Valid()
      invariant g.leds == old(g.leds)[b := led0 + Blinks(i)]
      invariant g.trace == trace0 + Repeated(Send(LedChannel(b)), 2 * i)
      invariant g.enabled == old(g.enabled) && g.blocked == old(g.blocked) && g.actuator == old(g.actuator)
      invariant g.flash == old(g.flash) && g.can == old(g.can) && g.watchdog == old(g.watchdog)
    {
      g.BlinkOnce(b);
      assert led0 + Blinks(i) + [Off, On] == led0 + Blinks(i + 1);
    }
  }

  /** A new gear: its LED on, the three others off, then one request to the actuator (lib_buttons.rs:259-265). */
  method SelectGear(g: Globals, b: Button)
    requires g.Valid()
    modifies g
    ensures g.Valid()
    ensures forall c :: c in old(g.leds) ==> c in g.leds && g.leds[c] == old(g.leds)[c] + [Lamp(c, b)]
    ensures g.leds.Keys == old(g.leds).Keys
    ensures g.actuator == old(g.actuator) + [b]
    ensures g.trace == old(g.trace) + [Send(LedChannel(P)), Send(LedChannel(N)), Send(LedChannel(R)), Send(LedChannel(D)), Send(ActuatorChannel)]
    ensures g.enabled == old(g.enabled) && g.blocked == old(g.blocked)
    ensures g.flash == old(g.flash) && g.can == old(g.can) && g.watchdog == old(g.watchdog)
  {
    g.SendLed(P, Lamp(P, b));
    g.SendLed(N, Lamp(N, b));
    g.SendLed(R, Lamp(R, b));
    g.SendLed(D, Lamp(D, b));
    g.SendActuator(b);
  }

  /**
   * The bounded wait for the lock (lib_buttons.rs:197-209): one sleep per
   * round, force-clearing the lock after the fifth.
   */
  method WaitForUnlock(g: Globals, clearedDuringSleep: nat) returns (sleeps: nat, forced: bool)
    requires g.Valid()
    modifies g
    ensures g.Valid()
    ensures !g.blocked
    ensures sleeps == (if old(g.blocked) then WaitSleeps(clearedDuringSleep) else 0)
    ensures forced <==> old(g.blocked) && sleeps == 5
    ensures g.trace == old(g.trace) + (if forced then [WriteBlocked(false)] else [])
    ensures g.enabled == old(g.enabled) && g.leds == old(g.leds) && g.actuator == old(g.actuator)
    ensures g.flash == old(g.flash) && g.can == old(g.can) && g.watchdog == old(g.watchdog)
  {
    var cnt := 1;
    sleeps, forced := 0, false;
    while g.blocked
      invariant g.Valid()
      invariant 1 <= cnt <= 5 && sleeps == cnt - 1 && !forced
      invariant g.blocked ==> old(g.blocked) && !(1 <= clearedDuringSleep <= sleeps)
      invariant !g.blocked ==> sleeps == (if old(g.blocked) then WaitSleeps(clearedDuringSleep) else 0)
      invariant g.trace == old(g.trace)
      invariant g.enabled == old(g.enabled) && g.leds == old(g.leds) && g.actuator == old(g.actuator)
      invariant g.flash == old(g.flash) && g.can == old(g.can) && g.watchdog == old(g.watchdog)
      decreases 5 - cnt
    {
      // One second's sleep, during which another task may release the lock.
      sleeps := sleeps + 1;
      if sleeps == clearedDuringSleep {
        g.blocked := false;
      }
      if cnt >= 5 {
        g.WriteBlockedFlag(false);
        forced := true;
        break;
      }
      cnt := cnt + 1;
    }
  }

  /** The effects of the chord after a matched fingerprint: bus, flash, N LED, unlock; none on a panic. */
  function ToggleTrace(reply: FlashConfigMessage): seq<Effect>
  {
    if reply == ValetOn || reply == ValetOff
    then [Send(CanChannel), Send(FlashChannel), Send(LedChannel(N)), WriteBlocked(false)]
    else []
  }

  /** The effects of the valet chord: P and N lit, then the rejection or the toggle. */
  function ChordTrace(fingerprintOk: bool, reply: FlashConfigMessage): seq<Effect>
  {
    [Send(LedChannel(P)), Send(LedChannel(N))]
    + (if fingerprintOk then ToggleTrace(reply) else [Send(LedChannel(N))])
  }

  /**
   * The valet chord (lib_buttons.rs:144-194): only reached when the lock is held,
   * P is the enabled gear and N is pressed.
   */
  method ValetChord(g: Globals, fingerprintOk: bool, reply: FlashConfigMessage) returns (outcome: PressOutcome)
    requires g.Valid()
    modifies g
    ensures g.Valid()
    ensures outcome == (if !fingerprintOk then ValetRejected
                        else if reply == ValetOn || reply == ValetOff then ValetToggled
                        else Panicked)
    ensures g.blocked == (outcome != ValetToggled && old(g.blocked))
    ensures g.leds.Keys == old(g.leds).Keys
    ensures g.leds[P] == old(g.leds)[P] + [On]
    ensures g.leds[N] == old(g.leds)[N] + (if outcome == Panicked then [On] else [On, Off])
    ensures g.leds[R] == old(g.leds)[R] && g.leds[D] == old(g.leds)[D]
    ensures g.flash == old(g.flash) + (if outcome == ValetToggled then [ValetOff] else [])
    ensures g.can == old(g.can) + (if outcome != ValetToggled then []
                                   else if reply == ValetOn then [DisableValetMode]
                                   else [EnableValetMode])
    ensures outcome == ValetToggled ==> |g.trace| > 0 && g.trace[|g.trace| - 1] == WriteBlocked(false)
    ensures old(g.trace) <= g.trace
    ensures g.trace == old(g.trace) + ChordTrace(fingerprintOk, reply)
    ensures g.enabled == old(g.enabled) && g.actuator == old(g.actuator) && g.watchdog == old(g.watchdog)
  {
    g.SendLed(P, On);
    g.SendLed(N, On);
    if !fingerprintOk {
      // Five seconds' back-off and the scanner's aura switched off, then the N LED.
      g.SendLed(N, Off);
      return ValetRejected;
    }
    ghost var lit := g.trace;
    outcome := ToggleValet(g, reply);
    assert g.trace == old(g.trace) + ChordTrace(fingerprintOk, reply) by {
      assert g.trace == lit + ToggleTrace(reply);
    }
  }

  /** The chord after a matched fingerprint: act on the flash task's valet reply (lib_buttons.rs:170-193). */
  method ToggleValet(g: Globals, reply: FlashConfigMessage) returns (outcome: PressOutcome)
    requires g.Valid()
    modifies g
    ensures g.Valid()
    ensures outcome == (if reply == ValetOn || reply == ValetOff then ValetToggled else Panicked)
    ensures g.blocked == (outcome != ValetToggled && old(g.blocked))
    ensures g.leds == if outcome == Panicked then old(g.leds) else old(g.leds)[N := old(g.leds)[N] + [Off]]
    ensures g.flash == old(g.flash) + (if outcome == ValetToggled then [ValetOff] else [])
    ensures g.can == old(g.can) + (if outcome != ValetToggled then []
                                   else if reply == ValetOn then [DisableValetMode]
                                   else [EnableValetMode])
    ensures outcome == ValetToggled ==> |g.trace| > 0 && g.trace[|g.trace| - 1] == WriteBlocked(false)
    ensures old(g.trace) <= g.trace
    ensures g.trace == old(g.trace) + ToggleTrace(reply)
    ensures g.enabled == old(g.enabled) && g.actuator == old(g.actuator) && g.watchdog == old(g.watchdog)
  {
    match reply {
      case ValetOn =>
        g.SendCan(DisableValetMode);
        g.SendFlash(ValetOff);
      case ValetOff =>
        g.SendCan(EnableValetMode);
        g.SendFlash(ValetOff);
      case _ =>
        return Panicked;
    }
    g.SendLed(N, Off);
    // One second's settle delay before the lock is released.
    g.WriteBlockedFlag(false);
    outcome := ValetToggled;
  }

  /** One iteration of `read_button` for the task of `button` (lib_buttons.rs:138-368). */
  method ReadButtonStep(g: Globals, button: Button, inputs: PressInputs) returns (outcome: PressOutcome)
    requires g.Valid()
    modifies g
    ensures g.Valid()
    ensures g.enabled == old(g.enabled) && g.watchdog == old(g.watchdog)
    ensures g.leds.Keys == old(g.leds).Keys
    // The lock is held: the chord, or a bounded wait that always frees it.
    ensures old(g.blocked) && old(g.enabled) == P && button == N ==>
              outcome == (if !inputs.fingerprintOk then ValetRejected
                          else if inputs.flashReply == ValetOn || inputs.flashReply == ValetOff then ValetToggled
                          else Panicked)
    ensures old(g.blocked) && !(old(g.enabled) == P && button == N) ==>
              outcome == Waited(WaitSleeps(inputs.clearedDuringSleep), WaitSleeps(inputs.clearedDuringSleep) == 5)
              && g.leds == old(g.leds) && g.actuator == old(g.actuator) && g.flash == old(g.flash) && g.can == old(g.can)
    // The chord leaves the queue alone and has exactly ValetChord's effects.
    ensures old(g.blocked) && old(g.enabled) == P && button == N ==>
              g.blocked == (outcome != ValetToggled) && g.actuator == old(g.actuator)
              && g.leds[P] == old(g.leds)[P] + [On]
              && g.leds[N] == old(g.leds)[N] + (if outcome == Panicked then [On] else [On, Off])
              && g.leds[R] == old(g.leds)[R] && g.leds[D] == old(g.leds)[D]
              && g.flash == old(g.flash) + (if outcome == ValetToggled then [ValetOff] else [])
              && g.can == old(g.can) + (if outcome != ValetToggled then []
                                        else if inputs.flashReply == ValetOn then [DisableValetMode]
                                        else [EnableValetMode])
    ensures old(g.blocked) && old(g.enabled) == P && button == N ==>
              g.trace == old(g.trace) + ChordTrace(inputs.fingerprintOk, inputs.flashReply)
    ensures old(g.blocked) && !(old(g.enabled) == P && button == N) ==>
              g.trace == old(g.trace) + (if WaitSleeps(inputs.clearedDuringSleep) == 5 then [WriteBlocked(false)] else [])
    ensures old(g.trace) <= g.trace
    ensures outcome.Waited? || outcome == ValetToggled ==> !g.blocked
    ensures outcome == ValetRejected ==> g.blocked
    // The lock is free: it is taken first, whatever happens next.
    ensures !old(g.blocked) ==> |g.trace| > |old(g.trace)| && g.trace[|old(g.trace)|] == WriteBlocked(true)
    ensures !old(g.blocked) ==> g.flash == old(g.flash) && g.can == old(g.can)
    ensures !old(g.blocked) ==>
              outcome == (if !inputs.releasedInTime then HeldTooLong
                          else if button == old(g.enabled) then AlreadySelected
                          else GearRequested)
    ensures outcome == HeldTooLong ==>
              g.blocked && g.leds == old(g.leds) && g.actuator == old(g.actuator)
              && g.trace == old(g.trace) + [WriteBlocked(true)]
    ensures outcome == AlreadySelected ==>
              !g.blocked && g.actuator == old(g.actuator)
              && g.leds == old(g.leds)[button := old(g.leds)[button] + Blinks(3)]
              && g.trace == old(g.trace) + [WriteBlocked(true)] + Repeated(Send(LedChannel(button)), 6) + [WriteBlocked(false)]
    ensures outcome == GearRequested ==>
              g.blocked && g.actuator == old(g.actuator) + [button]
              && g.trace == old(g.trace) + [WriteBlocked(true), Send(LedChannel(P)), Send(LedChannel(N)),
                                            Send(LedChannel(R)), Send(LedChannel(D)), Send(ActuatorChannel)]
              && forall c :: c in g.leds ==> g.leds[c] == old(g.leds)[c] + [Lamp(c, button)]
  {
    if g.blocked {
      var chord := g.enabled == P && button == N;
      if chord {
        outcome := ValetChord(g, inputs.fingerprintOk, inputs.flashReply);
        if outcome != ValetToggled {
          return;
        }
      }
      var sleeps, forced := WaitForUnlock(g, inputs.clearedDuringSleep);
      if !chord {
        outcome := Waited(sleeps, forced);
      }
      return;
    }
    g.WriteBlockedFlag(true);
    if !inputs.releasedInTime {
      // A quarter second's pause, then a wait for the release.
      return HeldTooLong;
    }
    if button == g.enabled {
      Blink(g, button);
      g.WriteBlockedFlag(false);
      outcome := AlreadySelected;
    } else {
      SelectGear(g, button);
      outcome := GearRequested;
    }
  }
}
