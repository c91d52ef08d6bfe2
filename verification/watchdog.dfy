/**
 * The watchdog feeder (`feed_watchdog` in lib_watchdog.rs): feed, sleep, then
 * poll the control channel without blocking; a stop request ends the task, so
 * the hardware watchdog resets the board once its timeout runs out.
 */
module Watchdog {
  import opened Messages
  import opened Shared

  /** Whether the task is still looping. */
  datatype FeederState = Feeding | Stopped

  /** What one round does, in order: feed, sleep, poll (and whether the poll received a stop). */
  datatype FeederEvent = Feed | Sleep | Poll(received: bool)

  /** The feeder task and what it has done. */
  class Feeder {
    var state: FeederState
    /** How many times the watchdog has been fed. */
    var feeds: nat
    var log: seq<FeederEvent>

    /** The task as spawned. */
    constructor ()
      ensures state == Feeding && feeds == 0 && log == []
    {
      state := Feeding;
      feeds := 0;
      log := [];
    }
  }

  /** The events of one round. */
  function RoundLog(received: bool): seq<FeederEvent>
  {
    [Feed, Sleep, Poll(received)]
  }

  /** `n` rounds whose polls found the channel empty. */
  function QuietLog(n: nat): seq<FeederEvent>
  {
    if n == 0 then [] else QuietLog(n - 1) + RoundLog(false)
  }

  /** The events of `rounds` rounds, the last of which received a stop when `stopped`. */
  function RunLog(rounds: nat, stopped: bool): seq<FeederEvent>
  {
    if stopped && rounds > 0 then QuietLog(rounds - 1) + RoundLog(true) else QuietLog(rounds)
  }

  /** One more quiet round appends its events to those before it. */
  lemma QuietStep(log0: seq<FeederEvent>, n: nat)
    ensures log0 + QuietLog(n + 1) == log0 + QuietLog(n) + RoundLog(false)
  {
  }

  /**
   * One round of the loop (lib_watchdog.rs:22-35). `arriving` is what other
   * tasks send during the sleep; the poll takes at most one message.
   */
  method Round(f: Feeder, g: Globals, arriving: seq<StopWatchdog>)
    requires g.Valid()
    modifies f, g
    ensures g.Valid()
    ensures old(f.state) == Stopped ==>
              f.state == Stopped && f.feeds == old(f.feeds) && f.log == old(f.log) && g.watchdog == old(g.watchdog)
    ensures old(f.state) == Feeding ==> var queued := old(g.watchdog) + arriving;
              && f.feeds == old(f.feeds) + 1
              && f.log == old(f.log) + RoundLog(queued != [])
              && (f.state == Stopped <==> queued != [])
              && g.watchdog == (if queued == [] then [] else queued[1..])
    ensures g.enabled == old(g.enabled) && g.blocked == old(g.blocked) && g.leds == old(g.leds) && g.actuator == old(g.actuator)
    ensures g.flash == old(g.flash) && g.can == old(g.can) && g.trace == old(g.trace)
  {
    if f.state == Stopped {
      return;
    }
    f.feeds := f.feeds + 1;
    f.log := f.log + [Feed];
    // 750 ms sleep, during which other tasks may queue stop requests.
    f.log := f.log + [Sleep];
    g.watchdog := g.watchdog + arriving;
    if g.watchdog != [] {
      g.watchdog := g.watchdog[1..];
      f.log := f.log + [Poll(true)];
      f.state := Stopped;
    } else {
      f.log := f.log + [Poll(false)];
    }
  }

  /** How many rounds run before a stop is received, over the arrivals of successive sleeps. */
  function Rounds(pending: bool, arrivals: seq<seq<StopWatchdog>>): (n: nat)
    ensures n <= |arrivals|
  {
    if arrivals == [] then 0
    else if pending || arrivals[0] != [] then 1
    else 1 + Rounds(false, arrivals[1..])
  }

  /** Whether a stop is received within the arrivals. */
  predicate StopsWithin(pending: bool, arrivals: seq<seq<StopWatchdog>>)
  {
    arrivals != [] && (pending || arrivals[0] != [] || StopsWithin(false, arrivals[1..]))
  }

  /**
   * The feeder stops in the first round whose poll finds a message: every
   * earlier sleep brought nothing, and without any message it runs every round.
   */
  lemma {:induction false} StopAtFirstMessage(pending: bool, arrivals: seq<seq<StopWatchdog>>)
    ensures var n := Rounds(pending, arrivals);
      if StopsWithin(pending, arrivals) then
        1 <= n && ((pending && n == 1) || arrivals[n - 1] != []) && forall i :: 0 <= i < n - 1 ==> arrivals[i] == []
      else
        n == |arrivals| && (pending ==> arrivals == []) && forall i :: 0 <= i < n ==> arrivals[i] == []
  {
    if arrivals != [] && !pending && arrivals[0] == [] {
      StopAtFirstMessage(false, arrivals[1..]);
      var n := Rounds(false, arrivals[1..]);
      assert forall i :: 1 <= i < n + 1 ==> arrivals[i] == arrivals[1..][i - 1];
    }
  }

  /** A run of `n` rounds feeds `n` times, polls after every feed, and receives at most once, in the last poll. */
  lemma {:induction false} RunLogShape(n: nat, stopped: bool)
    ensures |RunLog(n, stopped)| == 3 * n
    ensures forall k :: 0 <= k < n ==>
      RunLog(n, stopped)[3 * k] == Feed && RunLog(n, stopped)[3 * k + 1] == Sleep
      && RunLog(n, stopped)[3 * k + 2] == Poll(stopped && k == n - 1)
  {
    QuietShape(if stopped && n > 0 then n - 1 else n);
  }

  lemma {:induction false} QuietShape(n: nat)
    ensures |QuietLog(n)| == 3 * n
    ensures forall k :: 0 <= k < n ==>
      QuietLog(n)[3 * k] == Feed && QuietLog(n)[3 * k + 1] == Sleep && QuietLog(n)[3 * k + 2] == Poll(false)
  {
    if n > 0 {
      QuietShape(n - 1);
    }
  }

  /**
   * Runs the feeder over the messages that arrive during its successive sleeps,
   * until it stops or the arrivals run out.
   */
  method Run(f: Feeder, g: Globals, arrivals: seq<seq<StopWatchdog>>) returns (rounds: nat)
    requires g.Valid() && f.state == Feeding
    modifies f, g
    ensures g.Valid()
    ensures rounds == Rounds(old(g.watchdog) != [], arrivals)
    ensures f.feeds == old(f.feeds) + rounds
    ensures f.state == Stopped <==> StopsWithin(old(g.watchdog) != [], arrivals)
    ensures f.log == old(f.log) + RunLog(rounds, f.state == Stopped)
    ensures g.enabled == old(g.enabled) && g.blocked == old(g.blocked) && g.leds == old(g.leds) && g.actuator == old(g.actuator)
    ensures g.flash == old(g.flash) && g.can == old(g.can) && g.trace == old(g.trace)
  {
    ghost var pending := old(g.watchdog) != [];
    rounds := 0;
    while rounds < |arrivals| && f.state == Feeding
      invariant g.Valid()
      invariant rounds <= |arrivals|
      invariant f.feeds == old(f.feeds) + rounds
      invariant f.state == Feeding ==>
        && Rounds(pending, arrivals) == rounds + Rounds(g.watchdog != [], arrivals[rounds..])
        && StopsWithin(pending, arrivals) == StopsWithin(g.watchdog != [], arrivals[rounds..])
        && (rounds > 0 ==> g.watchdog == [])
        && f.log == old(f.log) + QuietLog(rounds)
      invariant f.state == Stopped ==>
        rounds == Rounds(pending, arrivals) && StopsWithin(pending, arrivals) && rounds > 0
        && f.log == old(f.log) + QuietLog(rounds - 1) + RoundLog(true)
      invariant g.enabled == old(g.enabled) && g.blocked == old(g.blocked) && g.leds == old(g.leds) && g.actuator == old(g.actuator)
      invariant g.flash == old(g.flash) && g.can == old(g.can) && g.trace == old(g.trace)
      decreases |arrivals| - rounds
    {
      assert arrivals[rounds..][1..] == arrivals[rounds + 1..];
      QuietStep(old(f.log), rounds);
      Round(f, g, arrivals[rounds]);
      rounds := rounds + 1;
    }
  }
}
