/**
 * The UPS monitor (`ups_monitor` in lib_ups.rs): once a second it reads the
 * shunt voltage of the battery hat, switches between "on battery" and "on
 * power" with a hysteresis band, publishes `Stop` or `Start` on each switch,
 * and prints statistics with the clamped charge once a minute.
 */
module Ups {

  /**
   * What is published to the button tasks (`ButtonState`, imported from a
   * revision of lib_buttons.rs that is not part of this model).
   */
  datatype ButtonState = Start | Stop

  /** One measurement: the shunt voltage in microvolts and the charge estimate as an `i16`. */
  datatype Reading = Reading(shuntMicrovolts: int, charge: int)

  /** The two flags `state_battery` and `state_power`. */
  datatype Supply = Supply(battery: bool, power: bool)

  /** The flags as the task starts: on power. */
  const INITIAL: Supply := Supply(false, true)

  /** Thresholds of the hysteresis band, in microvolts. */
  const ON_BATTERY_BELOW: int := -350
  const ON_POWER_ABOVE: int := -50

  /** Statistics are printed every this many readings. */
  const STATS_PERIOD: nat := 60

  /** Rust's `as i16`: keeps the low 16 bits, read as two's complement. */
  function AsI16(x: int): (y: int)
    ensures -0x8000 <= y < 0x8000
    ensures (x - y) % 0x1_0000 == 0
    ensures -0x8000 <= x < 0x8000 ==> y == x
  {
    (x + 0x8000) % 0x1_0000 - 0x8000
  }

  /** The charge clamp (lib_ups.rs:59-63). */
  function Clamp(charge: int): (c: int)
    ensures 0 <= c <= 100
    ensures 0 <= charge <= 100 ==> c == charge
    ensures charge < 0 ==> c == 0
    ensures charge > 100 ==> c == 100
  {
    if charge < 0 then 0 else if charge > 100 then 100 else charge
  }

  /** One switching decision (lib_ups.rs:82-96): the new flags and what is published. */
  function Switch(s: Supply, shunt: int): (r: (Supply, seq<ButtonState>))
    ensures |r.1| <= 1
    ensures r.1 == [] ==> r.0 == s
  {
    if AsI16(shunt) < ON_BATTERY_BELOW && !s.battery then (Supply(true, false), [Stop])
    else if AsI16(shunt) > ON_POWER_ABOVE && !s.power then (Supply(false, true), [Start])
    else (s, [])
  }

  /** The flags and the published events after a run of readings, from `s`. */
  function Monitor(s: Supply, readings: seq<Reading>): (r: (Supply, seq<ButtonState>))
  {
    if readings == [] then (s, [])
    else
      var before := Monitor(s, readings[..|readings| - 1]);
      var step := Switch(before.0, readings[|readings| - 1].shuntMicrovolts);
      (step.0, before.1 + step.1)
  }

  /** A switch keeps the two flags opposite. */
  lemma SwitchKeepsFlagsOpposite(s: Supply, shunt: int)
    requires s.battery == !s.power
    ensures Switch(s, shunt).0.battery == !Switch(s, shunt).0.power
  {
  }

  /** `Stop` is published exactly on a low reading while on power, `Start` exactly on a high one while on battery. */
  lemma SwitchPublishes(s: Supply, shunt: int)
    requires s.battery == !s.power
    ensures Switch(s, shunt).1 == [Stop] <==> AsI16(shunt) < ON_BATTERY_BELOW && s.power
    ensures Switch(s, shunt).1 == [Start] <==> AsI16(shunt) > ON_POWER_ABOVE && s.battery
  {
  }

  /** A reading inside the band changes nothing and publishes nothing. */
  lemma BandIsQuiet(s: Supply, shunt: int)
    requires ON_BATTERY_BELOW <= AsI16(shunt) <= ON_POWER_ABOVE
    ensures Switch(s, shunt) == (s, [])
  {
  }

  /** Repeating a reading publishes nothing the second time. */
  lemma RepeatIsQuiet(s: Supply, shunt: int)
    requires s.battery == !s.power
    ensures Switch(Switch(s, shunt).0, shunt).1 == []
  {
  }

  /**
   * Over any run the flags stay opposite and the published events alternate,
   * the last one naming the supply the monitor ends on and the first one the
   * opposite of the supply it started on: one event per change of supply.
   */
  lemma {:induction false} MonitorAlternates(s: Supply, readings: seq<Reading>)
    requires s.battery == !s.power
    ensures var r := Monitor(s, readings);
      && r.0.battery == !r.0.power
      && (r.1 == [] ==> r.0 == s)
      && (r.1 != [] ==> r.1[0] == (if s.battery then Start else Stop))
      && (r.1 != [] ==> r.1[|r.1| - 1] == (if r.0.battery then Stop else Start))
      && forall i :: 0 <= i < |r.1| - 1 ==> r.1[i] != r.1[i + 1]
  {
    if readings != [] {
      MonitorAlternates(s, readings[..|readings| - 1]);
    }
  }

  /** `cnt` before reading number `k` (counting from 0): 0, then 1..60 over and over. */
  function CounterBefore(k: nat): (cnt: nat)
    ensures k > 0 ==> 1 <= cnt <= STATS_PERIOD
    ensures cnt % STATS_PERIOD == 0 <==> k % STATS_PERIOD == 0
  {
    if k == 0 then 0 else (k - 1) % STATS_PERIOD + 1
  }

  /** The charges printed by the statistics of the first `n` readings. */
  function Reports(readings: seq<Reading>, n: nat): (rs: seq<int>)
    requires n <= |readings|
    ensures forall j :: 0 <= j < |rs| ==> 0 <= rs[j] <= 100
  {
    if n == 0 then []
    else Reports(readings, n - 1) + (if (n - 1) % STATS_PERIOD == 0 then [Clamp(readings[n - 1].charge)] else [])
  }

  /** Statistics are printed once every STATS_PERIOD readings, starting with the first. */
  lemma {:induction false} ReportsCount(readings: seq<Reading>, n: nat)
    requires n <= |readings|
    ensures |Reports(readings, n)| == (n + STATS_PERIOD - 1) / STATS_PERIOD
  {
    if n > 0 {
      ReportsCount(readings, n - 1);
    }
  }

  /**
   * The loop of `ups_monitor` (lib_ups.rs:48-100) over a run of readings,
   * returning what it publishes, the charges its statistics print, the final
   * flags and the final `cnt`.
   */
  method MonitorLoop(readings: seq<Reading>) returns (events: seq<ButtonState>, reports: seq<int>, supply: Supply, cnt: nat)
    ensures (supply, events) == Monitor(INITIAL, readings)
    ensures reports == Reports(readings, |readings|)
    ensures cnt == CounterBefore(|readings|)
    ensures readings != [] ==> 1 <= cnt <= STATS_PERIOD
  {
    var battery, power := false, true;
    cnt := 0;
    events, reports := [], [];
    for k := 0 to |readings|
      invariant (Supply(battery, power), events) == Monitor(INITIAL, readings[..k])
      invariant reports == Reports(readings, k)
      invariant cnt == CounterBefore(k)
    {
      assert readings[..k + 1][..k] == readings[..k];
      ghost var step := Switch(Supply(battery, power), readings[k].shuntMicrovolts);
      ghost var published := events;
      assert Monitor(INITIAL, readings[..k + 1]) == (step.0, published + step.1);
      var charge := Clamp(readings[k].charge);
      if cnt % STATS_PERIOD == 0 {
        reports := reports + [charge];
        cnt := 0;
      }
      var shunt := AsI16(readings[k].shuntMicrovolts);
      if shunt < ON_BATTERY_BELOW && !battery {
        battery, power := true, false;
        events := events + [Stop];
      } else if shunt > ON_POWER_ABOVE && !power {
        battery, power := false, true;
        events := events + [Start];
      }
      cnt := cnt + 1;
      assert Supply(battery, power) == step.0 && events == published + step.1;
    }
    assert readings[..|readings|] == readings;
    supply := Supply(battery, power);
  }
}
