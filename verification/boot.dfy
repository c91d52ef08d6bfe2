/**
 * The boot sequence of `main` in drive-by-wire.rs, from the first bus message
 * to handing control over to the tasks. Peripheral results (the actuator
 * self-test, the fingerprint matches, the flash task's replies) are inputs.
 */
module Boot {
  import opened Gear
  import opened Messages
  import opened Shared

  /** What the peripherals and the flash task answer during one boot. */
  datatype BootInputs = BootInputs(
    /** `test_actuator()`: whether the actuator moved. */
    selfTestOk: bool,
    /** The reply to the first `ReadValet`. */
    valetReply: FlashConfigMessage,
    /** The fingerprint verifications, in order, for as long as the scanner is asked. */
    fingerprints: seq<bool>,
    /** The reply to `ReadButton`. */
    buttonReply: FlashConfigMessage,
    /** The reply to the second `ReadValet`. */
    startValetReply: FlashConfigMessage)

  /** How far the boot got. */
  datatype BootOutcome =
    | Running         // control handed over to the tasks
    | Authenticating  // still retrying the fingerprint when the given matches ran out
    | Panicked        // `todo!()` on a reply that names no gear

  /** Relay outputs, in order. */
  datatype RelayEvent = SteeringLockHigh | StartHigh | StartLow

  /** Whether `main` asks for a fingerprint: only when the first valet reply is not `ValetOff`. */
  predicate NeedsAuth(inputs: BootInputs)
  {
    inputs.valetReply != ValetOff
  }

  /** How the boot ends. */
  function OutcomeOf(inputs: BootInputs): BootOutcome
  {
    if NeedsAuth(inputs) && true !in inputs.fingerprints then Authenticating
    else if !inputs.buttonReply.IsButton() then Panicked
    else Running
  }

  /** The bus messages up to the authorisation request (drive-by-wire.rs:110-186). */
  function AnnounceBus(selfTestOk: bool): seq<CanMessage>
  {
    [Starting, RelaysInitialized, InitActuator]
    + (if selfTestOk then [] else [ActuatorTestFailed])
    + [InitFP, FPInitialized, Authorizing]
  }

  /** The bus message that ends authorisation, if it ends (drive-by-wire.rs:188-222). */
  function AuthBus(inputs: BootInputs): seq<CanMessage>
  {
    if !NeedsAuth(inputs) then [ValetMode] else if true in inputs.fingerprints then [Authorized] else []
  }

  /** The bus messages of one boot, in order. */
  function BootBus(inputs: BootInputs): seq<CanMessage>
  {
    var outcome := OutcomeOf(inputs);
    AnnounceBus(inputs.selfTestOk) + AuthBus(inputs)
    + (if outcome == Authenticating then [] else [ButtonsInitialized])
    + (if outcome == Running && inputs.startValetReply == ValetOn then [StartCar] else [])
  }

  /** The requests `main` sends to the flash task, in order. */
  function BootFlashRequests(inputs: BootInputs): seq<FlashConfigMessage>
  {
    var outcome := OutcomeOf(inputs);
    [ReadValet]
    + (if outcome == Authenticating then [] else [ReadButton])
    + (if outcome == Running then [ReadValet] else [])
  }

  /** The relay outputs of one boot. */
  function BootRelays(inputs: BootInputs): seq<RelayEvent>
  {
    if OutcomeOf(inputs) != Running then []
    else [SteeringLockHigh] + (if inputs.startValetReply == ValetOn then [StartHigh, StartLow] else [])
  }

  /**
   * The fingerprint retry loop (drive-by-wire.rs:196-217): every failed match
   * waits and retries; the loop ends only on a match.
   */
  method Authenticate(fingerprints: seq<bool>) returns (attempts: nat, authorized: bool)
    ensures authorized <==> true in fingerprints
    ensures authorized ==> attempts < |fingerprints| && fingerprints[attempts]
    ensures !authorized ==> attempts == |fingerprints|
    ensures forall i :: 0 <= i < attempts ==> !fingerprints[i]
  {
    attempts, authorized := 0, false;
    while attempts < |fingerprints|
      invariant attempts <= |fingerprints|
      invariant forall i :: 0 <= i < attempts ==> !fingerprints[i]
    {
      if fingerprints[attempts] {
        return attempts, true;
      }
      // The scanner's LED ring goes red and the loop sleeps five seconds.
      attempts := attempts + 1;
    }
  }

  /** The stored gear shown on the LEDs, in the order P, R, N, D, then enabled (drive-by-wire.rs:263-299). */
  method ShowStoredGear(g: Globals, b: Button)
    requires g.Valid()
    modifies g
    ensures g.Valid()
    ensures g.leds.Keys == old(g.leds).Keys
    ensures g.leds[P] == old(g.leds)[P] + [Lamp(P, b)] && g.leds[R] == old(g.leds)[R] + [Lamp(R, b)]
    ensures g.leds[N] == old(g.leds)[N] + [Lamp(N, b)] && g.leds[D] == old(g.leds)[D] + [Lamp(D, b)]
    ensures g.enabled == b
    ensures g.trace == old(g.trace) + [Send(LedChannel(P)), Send(LedChannel(R)), Send(LedChannel(N)),
                                       Send(LedChannel(D)), WriteEnabled(b)]
    ensures g.blocked == old(g.blocked) && g.actuator == old(g.actuator)
    ensures g.flash == old(g.flash) && g.can == old(g.can) && g.watchdog == old(g.watchdog)
  {
    g.SendLed(P, Lamp(P, b));
    g.SendLed(R, Lamp(R, b));
    g.SendLed(N, Lamp(N, b));
    g.SendLed(D, Lamp(D, b));
    g.WriteEnabledGear(b);
  }

  /** The start of `main` (drive-by-wire.rs:104-186): announcements, and the self-test escalation. */
  method Announce(g: Globals, selfTestOk: bool)
    requires g.Valid()
    modifies g
    ensures g.Valid()
    ensures g.can == old(g.can) + AnnounceBus(selfTestOk)
    ensures g.watchdog == old(g.watchdog) + (if selfTestOk then [] else [Yes])
    ensures !selfTestOk ==>
              |g.trace| > |old(g.trace)| + 4
              && g.trace[|old(g.trace)| + 3] == Send(CanChannel) && g.trace[|old(g.trace)| + 4] == Send(WatchdogChannel)
    ensures g.enabled == old(g.enabled) && g.blocked == old(g.blocked) && g.leds == old(g.leds)
    ensures g.actuator == old(g.actuator) && g.flash == old(g.flash)
  {
    g.SendCan(Starting);
    g.SendCan(RelaysInitialized);
    g.SendCan(InitActuator);
    if !selfTestOk {
      g.SendCan(ActuatorTestFailed);
      // The watchdog stops being fed; the board resets once it times out.
      g.SendStopWatchdog();
    }
    g.SendCan(InitFP);
    g.SendCan(FPInitialized);
    g.SendCan(Authorizing);
  }

  /** The valet-gated authorisation (drive-by-wire.rs:187-222). */
  method Authorize(g: Globals, inputs: BootInputs) returns (done: bool)
    requires g.Valid()
    modifies g
    ensures g.Valid()
    ensures old(g.trace) <= g.trace
    ensures done <==> OutcomeOf(inputs) != Authenticating
    ensures g.can == old(g.can) + AuthBus(inputs)
    ensures g.flash == old(g.flash) + [ReadValet]
    ensures g.enabled == old(g.enabled) && g.blocked == old(g.blocked) && g.leds == old(g.leds)
    ensures g.actuator == old(g.actuator) && g.watchdog == old(g.watchdog)
  {
    g.SendFlash(ReadValet);
    if inputs.valetReply == ValetOff {
      g.SendCan(ValetMode);
      return true;
    }
    var attempts, authorized := Authenticate(inputs.fingerprints);
    if !authorized {
      return false;
    }
    g.SendCan(Authorized);
    done := true;
  }

  /** The gear restored from flash and sent to the actuator (drive-by-wire.rs:257-310). */
  method RestoreGear(g: Globals, reply: FlashConfigMessage) returns (restored: bool)
    requires g.Valid()
    modifies g
    ensures g.Valid()
    ensures old(g.trace) <= g.trace
    ensures restored <==> reply.IsButton()
    ensures g.can == old(g.can) + [ButtonsInitialized]
    ensures g.flash == old(g.flash) + [ReadButton]
    ensures g.leds.Keys == old(g.leds).Keys && g.blocked == old(g.blocked) && g.watchdog == old(g.watchdog)
    ensures restored ==> var b := ToButton(reply);
              && g.enabled == b && g.actuator == old(g.actuator) + [b]
              && g.leds[P] == old(g.leds)[P] + [Lamp(P, b)] && g.leds[R] == old(g.leds)[R] + [Lamp(R, b)]
              && g.leds[N] == old(g.leds)[N] + [Lamp(N, b)] && g.leds[D] == old(g.leds)[D] + [Lamp(D, b)]
    ensures !restored ==> g.enabled == old(g.enabled) && g.actuator == old(g.actuator) && g.leds == old(g.leds)
  {
    g.SendCan(ButtonsInitialized);
    g.SendFlash(ReadButton);
    if !reply.IsButton() {
      // `todo!()`: the boot panics here.
      return false;
    }
    var b := ToButton(reply);
    ShowStoredGear(g, b);
    g.SendActuator(b);
    restored := true;
  }

  /** The steering lock, then the start relay only on `ValetOn` (drive-by-wire.rs:312-332). */
  method StartEngine(g: Globals, reply: FlashConfigMessage) returns (relays: seq<RelayEvent>)
    requires g.Valid()
    modifies g
    ensures g.Valid()
    ensures old(g.trace) <= g.trace
    ensures relays == [SteeringLockHigh] + (if reply == ValetOn then [StartHigh, StartLow] else [])
    ensures g.can == old(g.can) + (if reply == ValetOn then [StartCar] else [])
    ensures g.flash == old(g.flash) + [ReadValet]
    ensures g.enabled == old(g.enabled) && g.blocked == old(g.blocked) && g.leds == old(g.leds)
    ensures g.actuator == old(g.actuator) && g.watchdog == old(g.watchdog)
  {
    relays := [SteeringLockHigh];
    g.SendFlash(ReadValet);
    if reply == ValetOn {
      // Three seconds for the car to wake up, then a one-second start pulse.
      g.SendCan(StartCar);
      relays := relays + [StartHigh, StartLow];
    }
  }

  /** `main` of drive-by-wire.rs (drive-by-wire.rs:104-332), up to its idle loop. */
  method Boot(g: Globals, inputs: BootInputs) returns (outcome: BootOutcome, relays: seq<RelayEvent>)
    requires g.Valid()
    modifies g
    ensures g.Valid()
    ensures outcome == OutcomeOf(inputs)
    ensures g.can == old(g.can) + BootBus(inputs)
    ensures g.flash == old(g.flash) + BootFlashRequests(inputs)
    ensures relays == BootRelays(inputs)
    ensures g.watchdog == old(g.watchdog) + (if inputs.selfTestOk then [] else [Yes])
    // The failure report goes out on the bus before the watchdog is told to stop.
    ensures !inputs.selfTestOk ==>
              |g.trace| > |old(g.trace)| + 4
              && g.trace[|old(g.trace)| + 3] == Send(CanChannel) && g.trace[|old(g.trace)| + 4] == Send(WatchdogChannel)
    ensures g.leds.Keys == old(g.leds).Keys && g.blocked == old(g.blocked)
    ensures outcome == Running ==> var b := ToButton(inputs.buttonReply);
              && g.enabled == b && g.actuator == old(g.actuator) + [b]
              && g.leds[P] == old(g.leds)[P] + [Lamp(P, b)] && g.leds[R] == old(g.leds)[R] + [Lamp(R, b)]
              && g.leds[N] == old(g.leds)[N] + [Lamp(N, b)] && g.leds[D] == old(g.leds)[D] + [Lamp(D, b)]
    ensures outcome != Running ==>
              g.enabled == old(g.enabled) && g.actuator == old(g.actuator) && g.leds == old(g.leds)
  {
    Announce(g, inputs.selfTestOk);
    ghost var announced := g.trace;
    var done := Authorize(g, inputs);
    assert announced <= g.trace;
    if !done {
      assert g.can == old(g.can) + BootBus(inputs);
      return Authenticating, [];
    }
    var restored := RestoreGear(g, inputs.buttonReply);
    if !restored {
      assert g.can == old(g.can) + BootBus(inputs);
      return Panicked, [];
    }
    relays := StartEngine(g, inputs.startValetReply);
    outcome := Running;
    assert g.can == old(g.can) + BootBus(inputs);
  }

  /** The self-test failure is reported on the bus exactly when the test fails. */
  lemma SelfTestFailureReported(inputs: BootInputs)
    ensures ActuatorTestFailed in BootBus(inputs) <==> !inputs.selfTestOk
  {
    var pre: seq<CanMessage> := [Starting, RelaysInitialized, InitActuator];
    var post: seq<CanMessage> := [InitFP, FPInitialized, Authorizing];
    var rest := BootBus(inputs)[|AnnounceBus(inputs.selfTestOk)|..];
    assert BootBus(inputs) == AnnounceBus(inputs.selfTestOk) + rest;
    assert ActuatorTestFailed !in rest;
  }

  /**
   * `Authorized` is announced only after a fingerprint match, and only when
   * the first valet reply is not `ValetOff`; a `ValetOff` reply announces
   * valet mode and never waits for a fingerprint.
   */
  lemma AuthorizationGatedByValet(inputs: BootInputs)
    ensures Authorized in BootBus(inputs) <==> inputs.valetReply != ValetOff && true in inputs.fingerprints
    ensures ValetMode in BootBus(inputs) <==> inputs.valetReply == ValetOff
    ensures inputs.valetReply == ValetOff ==> OutcomeOf(inputs) != Authenticating
  {
    var head := AnnounceBus(inputs.selfTestOk);
    var tail := BootBus(inputs)[|head| + |AuthBus(inputs)|..];
    assert BootBus(inputs) == head + AuthBus(inputs) + tail;
    assert Authorized !in head && ValetMode !in head;
    assert Authorized !in tail && ValetMode !in tail;
  }

  /** The start relay is pulsed exactly when the boot completes and the second valet reply is `ValetOn`. */
  lemma StartRelayGatedByValet(inputs: BootInputs)
    ensures StartHigh in BootRelays(inputs) <==> OutcomeOf(inputs) == Running && inputs.startValetReply == ValetOn
    ensures OutcomeOf(inputs) == Running ==> BootRelays(inputs)[0] == SteeringLockHigh
  {
  }

  /** A boot that completes has decoded a gear reply; any other reply panics. */
  lemma GearReplyDecides(inputs: BootInputs)
    requires !NeedsAuth(inputs) || true in inputs.fingerprints
    ensures OutcomeOf(inputs) == Running <==> inputs.buttonReply.IsButton()
    ensures OutcomeOf(inputs) == Panicked <==> !inputs.buttonReply.IsButton()
  {
  }
}
