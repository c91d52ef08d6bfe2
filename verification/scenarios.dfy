/**
 * End-to-end runs of several tasks in sequence, each starting from the state
 * the firmware starts in: what the protocol as a whole guarantees.
 */
module Scenarios {
  import opened Wrappers
  import opened Gear
  import opened Messages
  import opened Shared
  import opened Buttons
  import opened ActuatorTask
  import opened FlashDevice
  import Config
  import Legacy
  import Watchdog
  import Boot

  /**
   * A press of gear `b`, released in time, followed by the actuator task's
   * step: `b` ends up enabled, the lock is released, and a new gear (but not a
   * press of the gear already enabled) is sent on to be stored.
   */
  method PressThenMove(b: Button) returns (enabled: Button, blocked: bool, stored: seq<FlashConfigMessage>)
    ensures enabled == b && !blocked
    ensures stored == if b == P then [] else [FlashMessageOf(b)]
  {
    var g := new Globals();
    var outcome := ReadButtonStep(g, b, PressInputs(true, false, ReadButton, 0));
    var handled := ActuatorControlStep(g);
    enabled, blocked, stored := g.enabled, g.blocked, g.flash;
  }

  /**
   * A boot whose actuator self-test fails ends with the watchdog feeder
   * stopping after its first round, even if nothing else is ever sent to it.
   */
  method FailedSelfTestStopsFeeder(inputs: Boot.BootInputs) returns (rounds: nat, stopped: bool)
    requires !inputs.selfTestOk
    ensures rounds == 1 && stopped
  {
    var g := new Globals();
    var f := new Watchdog.Feeder();
    var outcome, relays := Boot.Boot(g, inputs);
    rounds := Watchdog.Run(f, g, [[]]);
    stopped := f.state == Watchdog.Stopped;
  }

  /** With no flash failure, the configuration `write_flash` stores is what `read` returns afterwards. */
  method ConfigSurvivesRestart(contents: seq<bv8>, config: Config.DbwConfig) returns (r: Result<Config.DbwConfig, Error>)
    requires |contents| == FLASH_SIZE
    ensures r == Ok(config)
  {
    var dev := new Flash(contents);
    var faults := Config.Faults(false, false, {}, false);
    Config.WriteFlash(dev, config, faults);
    Config.WriteThenRead(contents, config, faults);
    r := Config.Read(dev, false);
  }

  /**
   * In the older firmware, a gear requested from the UNSET start and moved to
   * is stored in slot 0 and restored by the boot decode after a restart.
   */
  method LegacyGearSurvivesRestart(contents: seq<bv8>, b: Button) returns (restored: Legacy.Selected)
    requires |contents| == FLASH_SIZE
    ensures restored == Legacy.Selected(b)
  {
    var dev := new Flash(contents);
    var g := new Legacy.LegacyGlobals();
    var outcome := Legacy.ReadButtonStep(g, b, true, 0);
    var handled := Legacy.ActuatorControlStep(g, dev, Legacy.SlotFaults(false, false, false));
    Legacy.PersistedGearSurvivesRestart(contents, b);
    var next := new Legacy.LegacyGlobals();
    var stored := Legacy.ReadFlash(dev, 0, false);
    Legacy.BootDecode(next, stored);
    restored := next.enabled;
  }
}
