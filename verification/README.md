# Drive-by-wire gear selector: a Dafny model

This project models the gear-selection core of a Raspberry Pi Pico firmware that
replaces a car's gear lever with four buttons (P, R, N, D). The model covers these parts:

- Button tasks take a debounced press and check it against a shared lock (`BUTTONS_BLOCKED`) and the enabled gear (`BUTTON_ENABLED`).
- The button tasks drive one LED per button and send gear requests to an actuator task.
- The actuator task moves the gear actuator, releases the lock, records the new gear and has it stored in flash.
- A watchdog feeder keeps the board alive until it is told to stop.
- The boot sequence asks the flash task for the valet flag and authenticates the driver by fingerprint unless the reply is `ValetOff`. It restores the stored gear and starts the car.
- A UPS monitor publishes `Stop`/`Start` when the supply switches between battery and mains.

Two revisions of the firmware are modelled side by side:

- the current task library (`lib_buttons.rs`, `lib_actuator.rs`, `lib_config.rs`, `lib_watchdog.rs`, `lib_ups.rs`, `drive-by-wire.rs`);
- the older single-file `main.rs`. It has an UNSET gear at boot and an unbounded wait on the lock. It stores one byte per flash slot and moves the actuator by pulsing two motor pins.

Modelling choices:

- The `static mut` globals and the channels form one object (`Shared.Globals`, `Legacy.LegacyGlobals`).
- Each channel is a FIFO sequence.
- Each task's loop iteration is one atomic method.
- A `trace` field records the order in which effects become visible to other tasks.

These outside results are parameters of the methods:

- the debounced press and release;
- the fingerprint matches;
- the actuator self-test;
- the flash task's replies;
- hardware faults of the flash;
- the moment another task releases the lock.

The flash is an array of bytes with this behaviour:

- erasing sets bytes to `0xFF`;
- programming ANDs bits in;
- the bounds and alignment checks match those of the driver;
- each operation is logged.

Where a comment and the code disagree, the model follows the code:

- A `ValetOff` reply to the valet chord also stores `ValetOff` (lib_buttons.rs:179-181).
- The first `ValetOff` reply at boot *skips* authentication (drive-by-wire.rs:189).
- The start relay fires only when the second reply is `ValetOn` (drive-by-wire.rs:321).
- `BUTTON_ENABLED` starts as P in lib_buttons.rs, though its comment says UNSET (lib_buttons.rs:81-82).

Modules:

| file | module | what it holds |
|---|---|---|
| wrappers.dfy | Wrappers | `Result` and `Outcome` |
| gear.dfy | Gear | buttons, gear modes, LED states, their conversions |
| messages.dfy | Messages | flash, bus and watchdog messages |
| shared.dfy | Shared | the shared globals and channels |
| buttons.dfy | Buttons | one press of a button task |
| actuator.dfy | ActuatorTask | one request of the actuator task |
| flash.dfy | FlashDevice | the flash chip |
| config.dfy | Config | the two-byte configuration store |
| motion.dfy | Motion | move distance and the simulated pulse loop |
| legacy.dfy | Legacy | the older `main.rs` button, actuator, flash and boot-decode logic |
| watchdog.dfy | Watchdog | the feeder task |
| boot.dfy | Boot | the boot sequence of `drive-by-wire.rs` |
| ups.dfy | Ups | the UPS monitor loop |
| scenarios.dfy | Scenarios | runs across several tasks from the initial state |

## Model

| member | source | states |
|---|---|---|
| Gear.ToInteger | code/src/lib_buttons.rs:47-54 | a button's stored discriminant is always below 4 |
| Gear.FromInteger | code/src/lib_buttons.rs:37-45 | decoding is defined only below 4 (above, the source panics) and inverts the encoding |
| Gear.ToGearMode | code/src/lib_buttons.rs:56-63 | each button maps to the gear mode of the same name, in both directions |
| Gear.AllButtons | code/src/lib_buttons.rs:65-67 | the iteration order lists every button once, at the index of its discriminant |
| Gear.Lamp | code/src/lib_buttons.rs:259-262 | in the pattern showing a gear, exactly that gear's LED is on |
| Gear.ConversionsInjective | code/src/lib_buttons.rs:47-63 | distinct buttons have distinct discriminants and distinct gear modes |
| Gear.DecodeEncode | code/src/lib_buttons.rs:37-54 | `from_integer(from(b)) == b` for every button |
| Messages.FlashMessageOf | code/src/lib_actuator.rs:41 | the flash message for a gear names a gear, and decodes back to it |
| Messages.ToButton | code/src/drive-by-wire.rs:306-309 | `to_button` is defined only on the four gear replies and maps each to the gear of the same name, in both directions (with FlashMessageOf and ToButtonInverse: the two are inverses) |
| Messages.ToButtonInverse | code/src/drive-by-wire.rs:306-309 | every gear reply is the message of the gear it decodes to |
| Shared.NoLedMessages | code/src/lib_buttons.rs:76-79 | all four LED channels exist and start empty |
| Shared.Globals.constructor | code/src/lib_buttons.rs:81-85 | the globals start with gear P, unlocked, every channel empty |
| Buttons.BlinksAlternate | code/src/lib_buttons.rs:250-255 | n blinks are 2n LED messages alternating Off, On |
| Buttons.WaitSleeps | code/src/lib_buttons.rs:197-209 | the wait for the lock sleeps between 1 and 5 times, fewer than 5 exactly when another task frees it earlier |
| Buttons.Blink | code/src/lib_buttons.rs:250-255 | the already-selected button sends three Off/On pairs to its own LED only, and nothing else changes |
| Shared.Globals.BlinkOnce | code/src/lib_buttons.rs:250-255 | one blink appends Off then On to that LED's queue and changes nothing else |
| Buttons.SelectGear | code/src/lib_buttons.rs:259-265 | a new gear sets its LED on and the three others off (P, N, R, D order), then sends one request naming itself |
| Buttons.WaitForUnlock | code/src/lib_buttons.rs:197-209 | the wait always ends with the lock free, force-clearing it after the fifth sleep |
| Buttons.ValetChord | code/src/lib_buttons.rs:143-195 | P and N light first. A failed fingerprint sends nothing to flash or bus, turns N off and keeps the lock. A match with reply `ValetOn` or `ValetOff` sends the opposite valet command to the bus and `ValetOff` to flash in both cases, turns N off and ends by freeing the lock. Any other reply panics, still locked. The trace extends the old one by exactly these effects, in this order |
| Buttons.ToggleValet | code/src/lib_buttons.rs:176-194 | after a matched fingerprint: `ValetOn` sends `DisableValetMode`, `ValetOff` sends `EnableValetMode`, both send `ValetOff` to flash, turn N off and end by freeing the lock, with the trace extended by exactly bus, flash, N LED, unlock; any other reply panics with nothing sent |
| Buttons.ReadButtonStep | code/src/lib_buttons.rs:138-368 | blocked: the valet chord only for N while P is enabled, otherwise a bounded wait that frees the lock. Unblocked: the lock is taken before any message. A timed-out press sends nothing and keeps the lock. The enabled button blinks and unlocks. Another button requests itself and stays locked. In every branch the old trace is a prefix of the new one, and the effects appended are given in full |
| ActuatorTask.FlashMessagesOf | code/src/lib_actuator.rs:41 | one flash message per handled request, naming that request's gear, in order |
| ActuatorTask.ActuatorControlStep | code/src/lib_actuator.rs:25-42 | one request is taken in arrival order: move, then unlock, then enable it, then one flash message for it; an empty channel changes nothing |
| ActuatorTask.HandleNext | code/src/lib_actuator.rs:25-42 | handling the next request extends the flash log and the effect trace by exactly that request's part |
| ActuatorTask.HandledAfterStep | code/src/lib_actuator.rs:25-42 | the trace of requests handled in order keeps the earlier trace as a prefix and each request's four effects in its own block |
| ActuatorTask.DrainRequests | code/src/lib_actuator.rs:25-42 | queued requests are handled one at a time in arrival order, each fully before the next, with one flash message each; the last one ends enabled and the lock free |
| FlashDevice.Erased | code/src/lib_config.rs:66-68 | erasing sets exactly the bytes of the range to `0xFF` |
| FlashDevice.Programmed | code/src/lib_config.rs:43 | programming changes exactly the bytes written, ANDing bits in |
| FlashDevice.ProgramErased | code/src/lib_config.rs:66-74 | bytes programmed into an erased range read back as written |
| FlashDevice.ProgramNeedsErase | code/src/lib_config.rs:66-74 | programming can only clear bits, so skipping the erase loses data: `0x02` programmed over `0x01` reads `0x00` |
| FlashDevice.ProgramAppend | code/src/lib_config.rs:42-52 | programming byte by byte at consecutive addresses equals programming the whole buffer |
| FlashDevice.Flash.BlockingRead | code/src/lib_config.rs:25 | a read returns the bytes at the range, or an error when out of bounds or faulty, and changes nothing |
| FlashDevice.Flash.BlockingErase | code/src/lib_config.rs:66-72 | an erase outside the chip or not block-aligned fails; a failed erase changes nothing |
| FlashDevice.Flash.BlockingWrite | code/src/lib_config.rs:43 | a write outside the chip or faulty fails and changes nothing; otherwise it programs the bytes |
| Config.AsArray | code/src/lib_config.rs:18-20 | the stored bytes are `[active_button, valet_mode]`, decoding back to the config |
| Config.EncodeDecode | code/src/lib_config.rs:18-28 | decoding the first two bytes of a block and re-encoding gives those bytes |
| Config.WrittenBefore | code/src/lib_config.rs:42-48 | the bytes written are those before the first failing write |
| Config.Read | code/src/lib_config.rs:22-35 | a successful read yields byte 0 as active button and byte 1 as valet flag of the config block; a failed read is an error, never a fabricated config |
| Config.Write | code/src/lib_config.rs:37-55 | byte i goes to base + i in order; the first failed write stops the loop with an error and no later byte is attempted |
| Config.WriteOps | code/src/lib_config.rs:42-52 | the write loop attempts byte i at base + i, for every byte up to and including the first that fails |
| Config.WriteByte | code/src/lib_config.rs:43-50 | a byte write either fails and changes nothing, or extends the programmed prefix of the buffer by one byte |
| Config.WriteThenRead | code/src/lib_config.rs:58-83 | when the erase and both writes succeed, the stored config is the one written |
| Config.WriteFlashStaysInBlock | code/src/lib_config.rs:66-77 | whatever fails, no byte outside the config block changes |
| Config.EraseAndWrite | code/src/lib_config.rs:66-77 | the erase targets exactly the config block, and its failure does not stop the write that follows |
| Config.WriteFlash | code/src/lib_config.rs:58-83 | read, erase exactly the config block, write, read; no failure is surfaced |
| Motion.MoveAmount | code/src/main.rs:266 | the distance is zero iff the positions are equal, negative iff moving to a higher position, within ±92 (fits `i8`), a multiple of 23 whose quotient is the number of positions crossed |
| Motion.ScaledDistance | code/src/main.rs:266 | a difference of up to four positions times 23 is a multiple of 23 whose quotient is the number of positions |
| Motion.StrokePulses | code/src/main.rs:183-207 | each loop iteration pulses the driven pin once and never the other |
| Motion.StrokeMarkers | code/src/main.rs:186-197 | a both-pins marker fires at every multiple of 23 reached except the first |
| Motion.MoveTraceCounts | code/src/main.rs:172-235 | the idle pin is held low first; the driven pin (plus for negative amounts, minus otherwise) pulses abs(amount)+1 times; abs(amount)/23 markers fire |
| Motion.NegativeAmountCounts | code/src/main.rs:172-235 | a negative amount pulses motor-plus abs(amount)+1 times, motor-minus never, with abs(amount)/23 markers |
| Motion.NonNegativeAmountCounts | code/src/main.rs:172-235 | a non-negative amount pulses motor-minus amount+1 times, motor-plus never, with amount/23 markers |
| Motion.MoveActuator | code/src/main.rs:172-235 | the pulse loops produce exactly the specified pin events |
| Legacy.Discriminant | code/src/main.rs:26-28 | the enabled position is 0..3 for a gear and 4 only for UNSET |
| Legacy.SlotValue | code/src/main.rs:157-166 | a failed read yields the pre-zeroed 0; a successful one the stored byte |
| Legacy.SlotWriteThenRead | code/src/main.rs:142-155 | after a successful erase and write of slot 0, `read_flash(0)` returns the byte written |
| Legacy.SlotWriteReturnsSlotZero | code/src/main.rs:142-155 | writing another slot leaves the value `write_flash` returns (slot 0) unchanged |
| Legacy.StoredGear | code/src/main.rs:585-622 | a stored 0..3 decodes to the gear with that discriminant; anything else to no gear |
| Legacy.DecodeStored | code/src/main.rs:585-622 | the byte a gear is stored as decodes back to that gear at boot |
| Legacy.FailedReadMeansPark | code/src/main.rs:157-166 | a failed read at boot leaves the pre-zeroed 0, which decodes as P |
| Legacy.PersistedGearSurvivesRestart | code/src/main.rs:279 | storing a gear in slot 0 and decoding it at boot gives the gear back |
| Legacy.LegacyGlobals.constructor | code/src/main.rs:42-46 | the older globals start UNSET and unlocked with empty channels |
| Legacy.ShowGear | code/src/main.rs:586-591 | one LED message per button, only the shown gear's on, in the press order or the boot order |
| Legacy.ReadFlash | code/src/main.rs:157-166 | reads one byte of the slot and returns it, or 0 on failure, changing nothing |
| Legacy.WriteFlash | code/src/main.rs:142-155 | erases the slot's block, writes the byte, and returns slot 0 whatever slot was written |
| Legacy.WriteSlot | code/src/main.rs:142-153 | erase then one-byte write of the slot, each failure leaving the bytes as they were |
| Legacy.Blink | code/src/main.rs:355-360 | three Off/On pairs to the pressed button's LED only |
| Legacy.LegacyGlobals.BlinkOnce | code/src/main.rs:355-360 | one blink appends Off then On to that LED's queue and changes nothing else |
| Legacy.ReadButtonStep | code/src/main.rs:319-457 | blocked: waits until another task frees the lock, sending nothing. Enabled button: blinks without touching the lock, its trace being only the six sends to its own LED. Another button: takes the lock, then its LEDs, then one request. A timed-out press changes nothing. The old trace is always a prefix of the new one |
| Legacy.BootDecode | code/src/main.rs:585-622 | a stored 0..3 lights only that gear's LED (P, R, N, D order) and enables it; any other value sends nothing and leaves the gear UNSET |
| Legacy.ActuatorControlStep | code/src/main.rs:252-280 | moves by the distance from the enabled to the requested position, unlocks, enables the request and stores its discriminant in slot 0; the flash log gains exactly the erase, the one-byte write and the slot-0 read. An empty queue changes nothing, the flash log included |
| Legacy.LegacyGlobals.MoveToRequest | code/src/main.rs:253-275 | takes the oldest request, moves by the distance from the enabled position, then frees the lock and enables the request |
| Watchdog.Feeder.constructor | code/src/lib_watchdog.rs:15-19 | the feeder starts feeding, having fed nothing |
| Watchdog.Round | code/src/lib_watchdog.rs:22-35 | feed, sleep, then a non-blocking poll taking at most one message; a stop ends the task and a stopped task does nothing |
| Watchdog.Rounds | code/src/lib_watchdog.rs:22-35 | the feeder never runs more rounds than the sleeps it is given |
| Watchdog.StopAtFirstMessage | code/src/lib_watchdog.rs:28-34 | the feeder stops in the first round whose poll finds a message; if no message arrives it runs every round |
| Watchdog.RunLogShape | code/src/lib_watchdog.rs:22-28 | every round feeds before it sleeps and polls, and only the last poll can receive the stop |
| Watchdog.Run | code/src/lib_watchdog.rs:22-36 | feeds equal rounds run up to and including the one that sees the stop, and no feed follows it |
| Boot.Authenticate | code/src/drive-by-wire.rs:196-217 | the retry loop ends exactly at the first successful match, and every earlier attempt failed |
| Boot.ShowStoredGear | code/src/drive-by-wire.rs:263-299 | only the decoded gear's LED is on (P, R, N, D order), then it is enabled |
| Boot.Announce | code/src/drive-by-wire.rs:108-186 | a failed self-test sends `ActuatorTestFailed` to the bus and then a stop to the watchdog, in that order |
| Boot.Authorize | code/src/drive-by-wire.rs:187-222 | `ValetOff` skips authentication and announces valet mode; otherwise the boot goes on only after a match, announcing `Authorized` |
| Boot.RestoreGear | code/src/drive-by-wire.rs:257-310 | a gear reply sets that gear enabled with only its LED on and sends it once to the actuator; any other reply panics having sent nothing more |
| Boot.StartEngine | code/src/drive-by-wire.rs:312-332 | the steering lock goes high; the start relay goes high then low only on `ValetOn` |
| Boot.Boot | code/src/drive-by-wire.rs:104-332 | the whole boot: bus messages, flash requests, relays, watchdog stop and gear restore, as the phases above |
| Boot.SelfTestFailureReported | code/src/drive-by-wire.rs:137-144 | `ActuatorTestFailed` is sent iff the self-test fails |
| Boot.AuthorizationGatedByValet | code/src/drive-by-wire.rs:187-222 | `Authorized` is sent iff valet is not `ValetOff` and a fingerprint matched; `ValetMode` iff the reply is `ValetOff`, which never waits |
| Boot.StartRelayGatedByValet | code/src/drive-by-wire.rs:312-332 | the start relay is pulsed iff the boot completes and the second reply is `ValetOn` |
| Boot.GearReplyDecides | code/src/drive-by-wire.rs:263-301 | past authentication, the boot completes iff the reply names a gear, and panics otherwise |
| Ups.AsI16 | code/src/lib_ups.rs:82-89 | the cast keeps the value modulo 2^16 in the `i16` range, and is the identity there |
| Ups.Clamp | code/src/lib_ups.rs:59-63 | the reported charge is within 0..100, unchanged inside it |
| Ups.Switch | code/src/lib_ups.rs:82-96 | at most one event per reading; no event means no change of flags |
| Ups.SwitchKeepsFlagsOpposite | code/src/lib_ups.rs:82-96 | `state_battery == !state_power` is preserved |
| Ups.SwitchPublishes | code/src/lib_ups.rs:82-96 | `Stop` iff the reading is below -350 while on power; `Start` iff above -50 while on battery |
| Ups.BandIsQuiet | code/src/lib_ups.rs:82-96 | a reading in [-350, -50] changes nothing and publishes nothing |
| Ups.RepeatIsQuiet | code/src/lib_ups.rs:82-96 | the same reading twice publishes nothing the second time |
| Ups.MonitorAlternates | code/src/lib_ups.rs:82-96 | over any run the flags stay opposite; consecutive events differ; the first leaves the starting supply and the last matches the final one; no events means no change |
| Ups.CounterBefore | code/src/lib_ups.rs:66-98 | after the first reading `cnt` stays within 1..60 (no `u8` overflow), and is a multiple of 60 exactly every 60th reading |
| Ups.Reports | code/src/lib_ups.rs:66-69 | every printed charge is within 0..100 |
| Ups.ReportsCount | code/src/lib_ups.rs:66-80 | statistics print once per 60 readings, starting with the first |
| Ups.MonitorLoop | code/src/lib_ups.rs:48-100 | the loop publishes the specified events, prints the specified charges and ends with `cnt` in 1..60 |
| Scenarios.PressThenMove | code/src/lib_actuator.rs:25-42 | a press followed by the actuator step leaves that gear enabled and the lock free; only a new gear is sent to flash |
| Scenarios.FailedSelfTestStopsFeeder | code/src/drive-by-wire.rs:137-144 | after a failed self-test the feeder stops in its first round |
| Scenarios.ConfigSurvivesRestart | code/src/lib_config.rs:58-83 | with no failure, the config written is the config read back |
| Scenarios.LegacyGearSurvivesRestart | code/src/main.rs:279 | in the older firmware a requested gear is stored and restored at the next boot |

## Left out

- Timing is not modelled: sleeps, deadlines and debouncing. The press, release and time-out become inputs. The watchdog's hardware reset and its timeout are not modelled either.
- Real concurrency is not modelled: interleaving, the two cores, task spawning and `unwrap!` on spawn. Each task step is atomic, and channels are unbounded (the capacity of 64 never blocks).
- The fingerprint protocol, the scanner's aura, the NeoPixel colours, the LED driver tasks and the bus reader/writer are not modelled. Bus traffic is kept only as the order of message tags.
- The `actuator` crate (`change_gear_mode`, `test_actuator`) is not modelled. A move is one recorded effect, and the self-test result is an input.
- The flash-control task and the `FlashConfigMessages` revision of lib_config.rs are not part of this model. Its replies are inputs. `CHANNEL_FLASH` is kept as the log of messages the modelled tasks send to it. The firmware also receives replies on the same channel, so `main` could take its own request; that race is not modelled.
- The floating-point charge estimate (lib_ups.rs:57-58) is left out. The model starts from the `i16` it is cast to. The INA219 setup failure and measurement panics (lib_ups.rs:37-53, 102) are left out too.
- The rest of the older `main` boot sequence is not modelled, including its fingerprint check with inverted logic (main.rs:461-584, 624-655). Only the stored-gear decode is modelled. `feed_watchdog` and `write_can` in main.rs duplicate the library versions and are not modelled separately.
- The older `read_button`'s `Button::UNSET` arm is not modelled. Tasks are only spawned for P, R, N and D.
- Legacy.ReadButtonStep: it requires that another task frees a held lock at some sleep. The source waits forever otherwise.
- Boot.Authenticate: it is limited to the given finite sequence of match results. When they run out, the boot is still `Authenticating`; the source retries forever.
- Legacy.ReadFlash: it requires that the `u32` address sum does not overflow. The source's callers use offsets 0 and 8192.
- Legacy.WriteFlash: it has the same `u32` address requirement as Legacy.ReadFlash.
- Motion.MoveActuator: it requires an `i8` amount, which is what the source's parameter type allows. `pos` never exceeds 6 (the multiples of 23 within an `i8` range on either side of zero), so its `i8` overflow cannot occur and is not modelled.
