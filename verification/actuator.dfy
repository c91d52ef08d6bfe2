/**
 * The actuator task (`actuator_control` in lib_actuator.rs): the single consumer
 * of the gear-request channel. Each request is moved to, then the lock is
 * released, the enabled gear updated and the new gear sent to the flash task.
 */
module ActuatorTask {
  import opened Gear
  import opened Messages
  import opened Shared

  /** The flash messages for a run of handled requests, in order. */
  function FlashMessagesOf(bs: seq<Button>): (ms: seq<FlashConfigMessage>)
    ensures |ms| == |bs|
    ensures forall i :: 0 <= i < |bs| ==> ms[i].IsButton() && ToButton(ms[i]) == bs[i]
  {
    if bs == [] then [] else FlashMessagesOf(bs[..|bs| - 1]) + [FlashMessageOf(bs[|bs| - 1])]
  }

  /** The effects of handling one request, in the order the task makes them. */
  function HandlingTrace(b: Button): seq<Effect>
  {
    [Moved(ToGearMode(b)), WriteBlocked(false), WriteEnabled(b), Send(FlashChannel)]
  }

  /** `t` is `t0` followed by the handling of each request of `hs`, in order. */
  predicate HandledAfter(t0: seq<Effect>, t: seq<Effect>, hs: seq<Button>)
  {
    |t| == |t0| + 4 * |hs| && t[..|t0|] == t0
    && forall i :: 0 <= i < |hs| ==> t[|t0| + 4 * i .. |t0| + 4 * i + 4] == HandlingTrace(hs[i])
  }

  /** Handling one more request extends the handled trace by its four effects. */
  lemma HandledAfterStep(t0: seq<Effect>, t: seq<Effect>, hs: seq<Button>, b: Button)
    requires HandledAfter(t0, t, hs)
    ensures HandledAfter(t0, t + HandlingTrace(b), hs + [b])
  {
    var t' := t + HandlingTrace(b);
    forall i | 0 <= i < |hs| + 1
      ensures t'[|t0| + 4 * i .. |t0| + 4 * i + 4] == HandlingTrace((hs + [b])[i])
    {
      if i < |hs| {
        assert t'[|t0| + 4 * i .. |t0| + 4 * i + 4] == t[|t0| + 4 * i .. |t0| + 4 * i + 4];
      } else {
        assert t'[|t| .. |t| + 4] == HandlingTrace(b);
      }
    }
    assert t'[..|t0|] == t[..|t0|];
  }

  /** The flash messages of one more request are those of the earlier ones and then its own. */
  lemma FlashMessagesStep(f0: seq<FlashConfigMessage>, hs: seq<Button>, b: Button)
    ensures f0 + FlashMessagesOf(hs + [b]) == f0 + FlashMessagesOf(hs) + [FlashMessageOf(b)]
  {
    assert (hs + [b])[..|hs|] == hs;
  }

  /**
   * One iteration of the task's loop (lib_actuator.rs:25-42). With no request
   * queued the receive would suspend the task, so nothing happens.
   */
  method ActuatorControlStep(g: Globals) returns (handled: bool)
    requires g.Valid()
    modifies g
    ensures g.Valid()
    ensures handled <==> old(g.actuator) != []
    ensures !handled ==> (g.actuator == old(g.actuator) && g.trace == old(g.trace)
                          && g.enabled == old(g.enabled) && g.blocked == old(g.blocked) && g.flash == old(g.flash))
    ensures handled ==> var b := old(g.actuator)[0];
              && g.actuator == old(g.actuator)[1..]
              && !g.blocked && g.enabled == b
              && g.flash == old(g.flash) + [FlashMessageOf(b)]
              && g.trace == old(g.trace) + HandlingTrace(b)
    ensures g.leds == old(g.leds) && g.can == old(g.can) && g.watchdog == old(g.watchdog)
  {
    if g.actuator == [] {
      return false;
    }
    var button := g.ReceiveActuator();
    // `change_gear_mode` runs to completion before anything else.
    g.RecordMove(ToGearMode(button));
    g.WriteBlockedFlag(false);
    g.WriteEnabledGear(button);
    g.SendFlash(FlashMessageOf(button));
    handled := true;
  }

  /** Taking the head of the queue onto the end of the handled requests keeps their concatenation. */
  lemma MoveHead(handled: seq<Button>, queue: seq<Button>)
    requires queue != []
    ensures handled + queue == (handled + [queue[0]]) + queue[1..]
  {
    assert queue == [queue[0]] + queue[1..];
  }

  /** One step of the drain: handles the next request and extends the records of what was handled. */
  method HandleNext(g: Globals, ghost t0: seq<Effect>, ghost f0: seq<FlashConfigMessage>, ghost handled: seq<Button>)
    returns (b: Button)
    requires g.Valid() && g.actuator != []
    requires g.flash == f0 + FlashMessagesOf(handled)
    requires HandledAfter(t0, g.trace, handled)
    modifies g
    ensures g.Valid()
    ensures b == old(g.actuator)[0] && g.actuator == old(g.actuator)[1..]
    ensures !g.blocked && g.enabled == b
    ensures g.flash == f0 + FlashMessagesOf(handled + [b])
    ensures HandledAfter(t0, g.trace, handled + [b])
    ensures g.leds == old(g.leds) && g.can == old(g.can) && g.watchdog == old(g.watchdog)
  {
    ghost var before := g.trace;
    b := g.actuator[0];
    var _ := ActuatorControlStep(g);
    HandledAfterStep(t0, before, handled, b);
    FlashMessagesStep(f0, handled, b);
  }

  /**
   * Runs the task until its receive would suspend it: every queued request is
   * handled, one at a time, in arrival order.
   */
  method DrainRequests(g: Globals) returns (handled: seq<Button>)
    requires g.Valid()
    modifies g
    ensures g.Valid()
    ensures handled == old(g.actuator) && g.actuator == []
    ensures handled != [] ==> !g.blocked && g.enabled == handled[|handled| - 1]
    ensures handled == [] ==> g.blocked == old(g.blocked) && g.enabled == old(g.enabled)
    ensures g.flash == old(g.flash) + FlashMessagesOf(handled)
    ensures HandledAfter(old(g.trace), g.trace, handled)
    ensures g.leds == old(g.leds) && g.can == old(g.can) && g.watchdog == old(g.watchdog)
  {
    handled := [];
    while g.actuator != []
      invariant g.Valid()
      invariant old(g.actuator) == handled + g.actuator
      invariant handled != [] ==> !g.blocked && g.enabled == handled[|handled| - 1]
      invariant handled == [] ==> g.blocked == old(g.blocked) && g.enabled == old(g.enabled)
      invariant g.flash == old(g.flash) + FlashMessagesOf(handled)
      invariant HandledAfter(old(g.trace), g.trace, handled)
      invariant g.leds == old(g.leds) && g.can == old(g.can) && g.watchdog == old(g.watchdog)
      decreases |g.actuator|
    {
      MoveHead(handled, g.actuator);
      var b := HandleNext(g, old(g.trace), old(g.flash), handled);
      handled := handled + [b];
    }
    assert handled == old(g.actuator);
  }
}
