/**
 * The state the tasks share: the `static mut` globals of lib_buttons.rs and the
 * channels between the tasks, each channel a FIFO sequence of the messages sent
 * to it and not yet received. Every step is atomic; `trace` records, in order,
 * the effects a step makes visible to the other tasks.
 */
module Shared {
  import opened Gear
  import opened Messages

  /** The channel a message was sent on. */
  datatype Channel = LedChannel(led: Button) | ActuatorChannel | FlashChannel | CanChannel | WatchdogChannel

  /** One effect visible to other tasks: a write of a global, a send, or a completed actuator move. */
  datatype Effect = WriteBlocked(blocked: bool) | WriteEnabled(enabled: Button) | Send(channel: Channel) | Moved(mode: GearMode)

  /** The four LED queues, all empty. */
  function NoLedMessages(): (m: map<Button, seq<LedStatus>>)
    ensures P in m && R in m && N in m && D in m
    ensures m[P] == m[R] == m[N] == m[D] == []
  {
    map[P := [], R := [], N := [], D := []]
  }

  /** `n` copies of the same effect. */
  function Repeated(e: Effect, n: nat): (t: seq<Effect>)
    ensures |t| == n
    ensures forall k :: 0 <= k < n ==> t[k] == e
  {
    if n == 0 then [] else Repeated(e, n - 1) + [e]
  }

  class Globals {
    /** `BUTTON_ENABLED`: the gear the actuator is believed to be in. */
    var enabled: Button
    /** `BUTTONS_BLOCKED`: the cooperative lock. */
    var blocked: bool
    /** `CHANNEL_P`, `CHANNEL_R`, `CHANNEL_N`, `CHANNEL_D`: one LED queue per button. */
    var leds: map<Button, seq<LedStatus>>
    /** `CHANNEL_ACTUATOR`: gear requests for the actuator task. */
    var actuator: seq<Button>
    /** `CHANNEL_FLASH`: messages sent to the flash-control task. */
    var flash: seq<FlashConfigMessage>
    /** `CHANNEL_CANWRITE`: status tags for the bus writer. */
    var can: seq<CanMessage>
    /** `CHANNEL_WATCHDOG`: stop requests for the watchdog feeder. */
    var watchdog: seq<StopWatchdog>
    /** Effects in the order they were made. */
    var trace: seq<Effect>

    ghost predicate Valid()
      reads this
    {
      P in leds && R in leds && N in leds && D in leds
    }

    /** The globals as declared: gear P, unlocked, every channel empty. */
    constructor ()
      ensures Valid()
      ensures enabled == P && !blocked
      ensures leds == NoLedMessages() && actuator == [] && flash == [] && can == [] && watchdog == []
      ensures trace == []
    {
      enabled := P;
      blocked := false;
      leds := NoLedMessages();
      actuator := [];
      flash := [];
      can := [];
      watchdog := [];
      trace := [];
    }

    /** Sends `status` to the LED task of button `b`. */
    method SendLed(b: Button, status: LedStatus)
      requires Valid()
      modifies this
      ensures Valid()
      ensures leds == old(leds)[b := old(leds)[b] + [status]]
      ensures trace == old(trace) + [Send(LedChannel(b))]
      ensures enabled == old(enabled) && blocked == old(blocked) && actuator == old(actuator)
      ensures flash == old(flash) && can == old(can) && watchdog == old(watchdog)
    {
      leds := leds[b := leds[b] + [status]];
      trace := trace + [Send(LedChannel(b))];
    }

    /** One blink of `b`'s LED: Off, then On. */
    method BlinkOnce(b: Button)
      requires Valid()
      modifies this
      ensures Valid()
      ensures leds == old(leds)[b := old(leds)[b] + [Off, On]]
      ensures trace == old(trace) + [Send(LedChannel(b)), Send(LedChannel(b))]
      ensures enabled == old(enabled) && blocked == old(blocked) && actuator == old(actuator)
      ensures flash == old(flash) && can == old(can) && watchdog == old(watchdog)
    {
      leds := leds[b := leds[b] + [Off, On]];
      trace := trace + [Send(LedChannel(b)), Send(LedChannel(b))];
    }

    /** Sends a gear request to the actuator task. */
    method SendActuator(b: Button)
      requires Valid()
      modifies this
      ensures Valid()
      ensures actuator == old(actuator) + [b]
      ensures trace == old(trace) + [Send(ActuatorChannel)]
      ensures enabled == old(enabled) && blocked == old(blocked) && leds == old(leds)
      ensures flash == old(flash) && can == old(can) && watchdog == old(watchdog)
    {
      actuator := actuator + [b];
      trace := trace + [Send(ActuatorChannel)];
    }

    /** Sends a message to the flash-control task. */
    method SendFlash(m: FlashConfigMessage)
      requires Valid()
      modifies this
      ensures Valid()
      ensures flash == old(flash) + [m]
      ensures trace == old(trace) + [Send(FlashChannel)]
      ensures enabled == old(enabled) && blocked == old(blocked) && leds == old(leds)
      ensures actuator == old(actuator) && can == old(can) && watchdog == old(watchdog)
    {
      flash := flash + [m];
      trace := trace + [Send(FlashChannel)];
    }

    /** Sends a status tag to the bus writer. */
    method SendCan(m: CanMessage)
      requires Valid()
      modifies this
      ensures Valid()
      ensures can == old(can) + [m]
      ensures trace == old(trace) + [Send(CanChannel)]
      ensures enabled == old(enabled) && blocked == old(blocked) && leds == old(leds)
      ensures actuator == old(actuator) && flash == old(flash) && watchdog == old(watchdog)
    {
      can := can + [m];
      trace := trace + [Send(CanChannel)];
    }

    /** Asks the watchdog feeder to stop. */
    method SendStopWatchdog()
      requires Valid()
      modifies this
      ensures Valid()
      ensures watchdog == old(watchdog) + [Yes]
      ensures trace == old(trace) + [Send(WatchdogChannel)]
      ensures enabled == old(enabled) && blocked == old(blocked) && leds == old(leds)
      ensures actuator == old(actuator) && flash == old(flash) && can == old(can)
    {
      watchdog := watchdog + [Yes];
      trace := trace + [Send(WatchdogChannel)];
    }

    /** Assigns `BUTTONS_BLOCKED`. */
    method WriteBlockedFlag(v: bool)
      requires Valid()
      modifies this
      ensures Valid()
      ensures blocked == v
      ensures trace == old(trace) + [WriteBlocked(v)]
      ensures enabled == old(enabled) && leds == old(leds) && actuator == old(actuator)
      ensures flash == old(flash) && can == old(can) && watchdog == old(watchdog)
    {
      blocked := v;
      trace := trace + [WriteBlocked(v)];
    }

    /** Assigns `BUTTON_ENABLED`. */
    method WriteEnabledGear(b: Button)
      requires Valid()
      modifies this
      ensures Valid()
      ensures enabled == b
      ensures trace == old(trace) + [WriteEnabled(b)]
      ensures blocked == old(blocked) && leds == old(leds) && actuator == old(actuator)
      ensures flash == old(flash) && can == old(can) && watchdog == old(watchdog)
    {
      enabled := b;
      trace := trace + [WriteEnabled(b)];
    }

    /** Takes the oldest gear request off the actuator channel. */
    method ReceiveActuator() returns (b: Button)
      requires Valid() && actuator != []
      modifies this
      ensures Valid()
      ensures b == old(actuator)[0] && actuator == old(actuator)[1..]
      ensures trace == old(trace)
      ensures enabled == old(enabled) && blocked == old(blocked) && leds == old(leds)
      ensures flash == old(flash) && can == old(can) && watchdog == old(watchdog)
    {
      b := actuator[0];
      actuator := actuator[1..];
    }

    /** Records that the actuator has finished moving to `mode`. */
    method RecordMove(mode: GearMode)
      requires Valid()
      modifies this
      ensures Valid()
      ensures trace == old(trace) + [Moved(mode)]
      ensures enabled == old(enabled) && blocked == old(blocked) && leds == old(leds) && actuator == old(actuator)
      ensures flash == old(flash) && can == old(can) && watchdog == old(watchdog)
    {
      trace := trace + [Moved(mode)];
    }
  }
}
