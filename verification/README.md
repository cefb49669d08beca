# hidpin verification model

A Dafny model of hidpin: a USB HID device that debounces up to 30 GPIOs and reports their changes, and the
host library that turns its reports into ON/OFF announcements. The model follows the code of the firmware
core, the host watcher and the byte formats between them, and proves what each keeps over whole runs and
what the two give together.

Verify everything with `dafny verify dfyconfig.toml`.

## How it is built

Each stateful component is modelled twice, and the two are tied by proof:

- as a **state machine on values** (`EngineSpec`, `WatchSpec`, and the step functions of `Debounce`,
  `DeviceClock` and `EdgeRing`), one function for every entry point of the source;
- as **classes** with the source's own fields, loops and order of assignments (`Engine`, `WatchLoop`,
  `Debouncers`, `EventQueue`, `ClockEstimate`, `EdgeBuffer`, `Device`), whose methods are proved to take
  exactly the step of the state machine.

What the source promises is then proved about the state machines: over every run from power-on, and every
order of inputs.

| Module | Source | Subject |
|---|---|---|
| `Protocol`, `StatusCodec`, `PinConfigCodec` | `firmware/core/src/protocol.c`, `hidpin/protocol.go` | masks, reports, validation, byte formats of both sides |
| `Debounce`, `EventQueue` | `firmware/core/src/debounce.c`, `event_queue.c` | the per-pin debouncer; the 32-entry ring |
| `EngineSpec`, `Replay`, `EngineInvariants`, `EngineTheorems`, `Reasons`, `EventOrder`, `PinOrder`, `Engine` | `firmware/core/src/engine.c` | the device |
| `EdgeRing` | `firmware/app/gpio_hw.c` | the ring between the interrupt handler and the main loop, access by access |
| `DeviceClock`, `WatchSpec`, `WatchInvariants`, `WatchTheorems`, `WatchLifecycle`, `WatchCounts`, `WatchLoop` | `rust/src/watch.rs`, `hidpin/watch_loop.go` | the host watcher |
| `HostDevice` | `hidpin/device.go` | the write-then-read handshake, against the engine |
| `EndToEnd`, `Snapshots` | both | every confirmed edge is announced exactly once |
| `SettleGate` | both | what a watcher uses after it wrote a configuration |
| `Scenarios` | both | runs from power-on in which a promise of the documents is not kept |
| `ReportDescriptor` | `hidpin/internal/hidraw/hidraw.go` | finding the top-level collection |

Modelling conventions:

- A GPIO mask is a set of bit numbers; `Protocol.PinsOfMask` ties it to the `u32` on the wire.
- `hp_engine_t` is one struct; here its configuration and settle fields are `PinControl` and its report
  fields are `ReportSender`, owned by one `Engine`. The hardware callbacks act on `GpioBoard`, whose ghost
  registers record what the engine last told the hardware about each GPIO.
- `State.log`, `Fifo.accepted`, `Fifo.lost`, `Fifo.drops` and `Fifo.dirty` are histories that no step reads. A
  *dirty* pin is one with a dropped event, or one whose level was read anew by a settle while older events of it were
  queued; the next report that empties the queue cleans it. A *reread* pin got its level from a settle since the last
  committed report.
- A send is prepare, then commit or no commit, with nothing in between, as the main loop does it.
  `EngineTheorems.InterleavedCommand` shows why that matters.
- Times are unbounded microseconds (nanoseconds on the host). Where the code depends on wrapping it is written
  out: `seq`, the periodic interval, the ages, the missed counts and the stale comparison.
- What the device, the operating system and the clock answer during a watcher step is a parameter of the
  step, so every theorem holds for every device unless it says otherwise.

## Where code and documents part

The model follows the code. For each difference there is a run in which it shows, and the exact condition, for
all inputs, under which it does not.

- `docs/PROTOCOL.md:139` promises events in the order their changes started. Events leave in the order they were
  confirmed.
  - Across pins the promise holds, for runs without writes from a quiet state, exactly when at most one pin is
    monitored or none has a debounce time (`EventOrder.StartOrderIff`), so not for the default configuration of a
    device with two GPIOs (`EventOrder.DefaultConfigBreaksOrder`).
  - For one pin it fails too. The interrupt handler stamps an edge, the main loop may resynchronise
    (`firmware/app/main.c:119-126`) or apply a write before it processes it, and then the later stamp comes first
    (`Scenarios.LateEdgeBreaksPinOrder`). A step keeps the order exactly when it stamps no pin with a time before the
    start of one of its events (`PinOrder.PinOrderIff`), a whole run exactly when each of its steps does so
    (`PinOrder.AlwaysInOrderIff`); an edge that is late for a tick only does no harm (`EventOrder.PinsInStartOrder`).
- `docs/PROTOCOL.md:308` lets `monitored`, `outputs` and `levels` change together after the settle. The masks do
  (`EngineTheorems.MasksMoveOnlyAtSettle`); the level bits of outputs change at once (`Scenarios.OutputMovesEarly`), and
  `EngineTheorems.LevelsWaitIff` and `EngineTheorems.LevelsWaitThroughout` say exactly when that shows during the wait.
- `rust/src/watch.rs:327-328` and `docs/HOST_API.md:942` say that a new target whose write failed stays and is
  written again later. A target that was not taken is written by the next connection
  (`WatchTheorems.NextConnectionWrites`), but as long as the connection stays and no CONFIG_CHANGED arrives, nothing
  writes it (`WatchTheorems.FailedTargetIsNotRetried`, `Scenarios.TargetIsNotWritten`);
  `WatchTheorems.NewTargetFollowedIff` says exactly which targets are taken.
- A snapshot with `seq` 0 is absorbed but gives nothing to compare later reports with: the number may also mean
  that no report was sent yet. A report from before such a snapshot that follows it is announced again
  (`Scenarios.FirstReportRepeats`). The reports on their way add nothing exactly when the number is not 0 or each of them
  shows what the snapshot shows (`Snapshots.BufferedAddNothingIff`), which is what `EndToEnd.ExactlyOnce` asks for.
- `docs/HOST_API.md:955-957` has the watcher use no report after a write until the one with CONFIG_CHANGED, because
  earlier ones show the old configuration. Any CONFIG_CHANGED report ends the wait, also one of an earlier change that was
  still on its way: its levels are then read with the new polarity (`Scenarios.OldLevelIsUsed`). The first report used
  was made after the settle of the write exactly when no such report was on its way or due
  (`SettleGate.WaitsForItsWriteIff`).
- The HID 1.11 specification saves and restores the usage page with Push and Pop, lets a 4-byte usage name a page of
  its own, and drops usages at every Main item. The descriptor scan knows none of this. It returns what the
  specification gives the collection exactly if two things hold (`ReportDescriptor.ScanMeetsSpecificationIff`). The last
  page set stands: it came from a 4-byte usage that no usage or Main item followed, or from a Usage Page behind which no
  Pop went back while no 4-byte usage was in force; or the page that is in force instead happens to have the same
  number. And no Main item follows the last usage, unless that is 0. `PopIsIgnored`, `ExtendedPageLeaks`,
  `ExtendedPageIsOverridden` and `UsageOutlivesMain` are descriptors for which it does not; the device's own is one for
  which it does (`ReportDescriptor.OwnDescriptor`).

## Model

| member | source | states |
|---|---|---|
| EndToEnd.ExactlyOnce | hidpin/watch_loop.go:356-446 | For every history of the device, every later run that leaves the configuration alone and drops no event, and every delivery of the reports: those from before the snapshot add no announcement, and the later ones add exactly one per confirmed edge, in order, with its pin, level and ON/OFF and none inferred; what was announced plus what is queued is all that was confirmed. The snapshot's number is not 0, or no report on its way shows anything else than the snapshot |
| EndToEnd.RunSince | firmware/core/src/engine.c:174-239 | In such a run no pin becomes dirty, the published masks stay, and every committed report leads every monitored pin from the levels of the report before it to its own by alternating edges |
| EndToEnd.LinkAbsorbed | hidpin/watch_loop.go:408-446 | Absorbing a report that follows from what is known announces each of its edges once, infers nothing, and leaves the watcher with the report's levels |
| EndToEnd.BufferedAddNothing | hidpin/watch_loop.go:363-387 | Up to 32768 reports sent before a snapshot and read after it announce nothing and leave the comparison number in place |
| EndToEnd.LiveReceived | rust/src/watch.rs:732-809 | Any number of linked reports, as bytes, advance the watcher report by report and announce exactly their edges |
| EndToEnd.StartIsExact | firmware/core/src/engine.c:75-85 | The host recovers the device's own start time exactly when it is not in the future and less than 2^32-1 us old; older starts are unknown, later ones become the timestamp |
| Snapshots.BufferedAddNothingIff | hidpin/watch_loop.go:363-387 | The reports on their way when a quiet device is asked for a snapshot add no announcement and no knowledge if and only if the snapshot's number is not 0, or each of them shows the monitored pins at the levels of the reply and carries no event of them |
| Snapshots.AddNothingIff | rust/src/watch.rs:812-864 | Of any number of reports, received as bytes and compared with no number, the same |
| Snapshots.ZeroSnapshotRepeats | rust/src/watch.rs:754-756 | After a snapshot numbered 0, the report sent before it announces at least as often as it has edges |
| Scenarios.FirstReportRepeats | rust/src/watch.rs:754-756 | For a device with one GPIO, one edge and one report: any watcher that takes its snapshot then and reads that report afterwards announces the edge although the snapshot had it |
| Snapshots.CatchesUp | rust/src/watch.rs:754-807 | A snapshot taken while events are queued announces nothing; the watcher learns from the first report after it, and from the second on every edge is announced exactly once; with nothing queued in the end it knows the confirmed levels |
| EndToEnd.ResetOutputsAreDriven | docs/PROTOCOL.md:296-304 | The outputs the watcher says a write has reset are those whose hardware the device drives anew to the initial level; every other output keeps its level |
| SettleGate.WaitsForItsWriteIff | rust/src/watch.rs:779-805 | For every reachable state of the device, every write that changes its configuration and every waiting watcher: however the device goes on without another change and whatever it reports, the first report the watcher uses was made after the settle of the write, if and only if no CONFIG_CHANGED report of an earlier change was on its way or due at the write and recognisable as sent after the snapshot |
| SettleGate.LearnsWhatItWrote | docs/HOST_API.md:955-957 | In that case the watcher announces nothing and forgets nothing until then, and then knows exactly the inputs it wrote, with the levels of that report and their new polarity |
| SettleGate.FirstOpens | hidpin/watch_loop.go:388-392 | Of any reports, received as bytes, the one that ends the wait is the first that says CONFIG_CHANGED and is not taken for one from before the snapshot, and its levels are taken over |
| SettleGate.RunAfterWrite | firmware/core/src/engine.c:93-113 | Over every run after a write that changes the configuration, each CONFIG_CHANGED report was made after the settle and shows the written masks, or is the next one and was due already |
| SettleGate.WroteWaits | rust/src/watch.rs:998-1015 | Every write to a connected device makes the watcher wait |
| SettleGate.ConnectWaits | rust/src/watch.rs:654-712 | So does a write while connecting |
| Scenarios.OldLevelIsUsed | rust/src/watch.rs:779-805 | A watcher connects to a device with one pin, finds the pull-up and writes the pull-down, and reads the report that announced the pull-up: it takes LOW, which meant ON, for the pin's OFF while the pin still settles |
| EngineInvariants.AlwaysInv | firmware/core/src/engine.c:93-343 | In every reachable state: hardware as configured, masks disjoint and equal to the configuration's outside a settle, settling pins are inputs and all other inputs monitored, queued events of every clean pin alternate from its reported to its confirmed level, events conserved, and overflow implies a queued event |
| EngineInvariants.StepKeeps | firmware/core/src/engine.c:93-343 | Every entry point, with any arguments, keeps that invariant |
| EngineInvariants.BatchFollows | firmware/core/src/engine.c:182-198 | The events a report takes lead each clean monitored pin from its reported level to the level in the report, and the rest lead from there to the confirmed level |
| EngineInvariants.CommitKeeps | firmware/core/src/engine.c:223-239 | Committing a report keeps the invariant: what stays queued continues where the report ended |
| EngineInvariants.SettleKeeps | firmware/core/src/engine.c:93-113 | Ending a settle keeps the invariant, pins with older queued events included |
| EngineInvariants.ApplyPins | firmware/core/src/engine.c:279-306 | The loop over 30 pins gives every pin the register, settle bit and output level its own old and new setting demand, and touches nothing else |
| EngineInvariants.AdoptKeeps | firmware/core/src/engine.c:279-312 | Accepting any configuration that suits the board keeps the invariant |
| EngineTheorems.EventsConserved | firmware/core/src/engine.c:174-239 | Over every run the events of all committed reports followed by the queue are the accepted ones in order, and each report shows its events with their ages at its timestamp |
| EngineTheorems.LevelsMoveByEvents | docs/PROTOCOL.md:145-150 | Between consecutive reports a clean pin moves from its old to its new level by exactly the alternating events in between, and stays if there are none |
| EngineTheorems.ReportFlags | firmware/core/src/engine.c:201-213 | OVERFLOW is on a report exactly when it drains the queue and events were dropped since the last draining one; every report has a reason, and LEVEL_CHANGED exactly with events; seq counts reports modulo 2^16 |
| Reasons.ReportTellsReasons | docs/PROTOCOL.md:107-114 | Over every run, the reasons of the k-th report are exactly those that arose after the report before it was committed: a settle that ended for a write, a second without a report, an output command, a reset with outputs; and LEVEL_CHANGED exactly with events |
| Reasons.NoReasonLost | docs/PROTOCOL.md:152 | A reason that arises in any step of any run is in the first report committed afterwards |
| Reasons.FlagMeansWrite | firmware/core/src/engine.c:109-112 | The flag read at the end of a settle is set exactly when a write that changes the configuration was accepted since the last settle ended |
| EngineTheorems.ReplyIsAhead | docs/PROTOCOL.md:155-159 | In every reachable state the reply to Get_Report(Input) carries the number of the last report and HOST_REQUEST alone, says MORE_EVENTS exactly while confirmed events are unsent, and is ahead of the reports by exactly those: they lead each clean pin from its reported level to the one shown |
| EngineTheorems.SilenceEnds | firmware/core/src/engine.c:169-171 | In every reachable state, a tick at least 1 s after the last report makes the next report exist and say PERIODIC; an earlier tick does not raise it |
| EngineTheorems.SentGrows | firmware/app/main.c:31-40 | A report joins the history exactly when it was handed over and there was something to send |
| EngineTheorems.UncommittedChangesNothing | firmware/core/include/hidpin/engine.h:74-78 | A report that is not handed over changes nothing but the staging area, and the next send is the one it would have been without it |
| EngineTheorems.InterleavedCommand | firmware/core/src/engine.c:217-230 | A command between prepare and commit keeps its OUTPUT_APPLIED if and only if no report was staged or the staged one did not carry that reason already; after the commit it always does |
| EngineTheorems.MaskChangesAreAnnounced | docs/PROTOCOL.md:310 | After the first settle, two consecutive reports with different masks imply CONFIG_CHANGED on the later one |
| EngineTheorems.MasksMoveOnlyAtSettle | docs/PROTOCOL.md:307-309 | The published masks change in no step but the tick that ends a settle, and then become those of the latest accepted configuration, with CONFIG_CHANGED if a write was waiting |
| EngineTheorems.LevelsWaitIff | docs/PROTOCOL.md:308-309 | Right after an accepted write, Get_Report(Input) differs from before in nothing but `levels`, and shows the old levels exactly when no published output changes its level |
| EngineTheorems.LevelsWaitThroughout | docs/PROTOCOL.md:308-309 | The same for every reply until the settle ends, whatever edges, ticks and sends come in between, while nothing is confirmed, written, commanded or reset |
| Scenarios.OutputMovesEarly | docs/PROTOCOL.md:308-309 | A device that drives LOW and is told to drive HIGH shows the new level with the old masks |
| EngineTheorems.HardwareFollows | firmware/core/src/engine.c:271-313 | In every reachable state an available pin's hardware is as configured, an output drives its output level, and an unavailable GPIO was never touched |
| EngineTheorems.CommandReaches | docs/PROTOCOL.md:321-324 | A command drives exactly the output pins of its mask to its levels and leaves every other pin alone, and the next report and reply show it with OUTPUT_APPLIED |
| EngineTheorems.ResetReturns | docs/PROTOCOL.md:328-329 | A USB reset returns every output to its initial level, touches nothing else, and raises OUTPUT_RESET exactly when there is an output |
| EngineTheorems.TrackedDebouncers | firmware/core/src/engine.c:289-294 | In every reachable state a debouncer waits exactly while raw and confirmed differ, and a tracked one has its configured debounce time |
| EngineTheorems.ResyncHeals | firmware/core/src/engine.c:146-154 | After a resynchronisation every tracked pin's debouncer has the electrical level given, and no other changed |
| EngineTheorems.FirstLevelsWaitOut | firmware/core/src/engine.c:87-102 | With ticks and writes in time order, no run reads a pin's first level sooner than 1000 us after its last set-up |
| PinOrder.PinOrderIff | docs/PROTOCOL.md:139 | From every reachable state in order, after a step that drops no event the events of each pin stay in the order of their starts, however ticks and sends go on, if and only if the step stamps no pin with a time before the start of one of its events |
| PinOrder.AlwaysInOrderIff | docs/PROTOCOL.md:139 | Over every run that drops no event, from power-on or any state in order, the events of each pin are in the order of their starts after each step if and only if every stamp is of that kind |
| PinOrder.TimelyRunsKeepOrder | firmware/core/src/engine.c:135-172 | Over every run from power-on whose stamps are of that kind, the events of each pin are in order |
| EventOrder.PinsInStartOrder | firmware/core/src/engine.c:135-172 | In particular over every run whose edges, resynchronisations and writes are processed in the order of their times; ticks may come at any time |
| Scenarios.LateEdgeBreaksPinOrder | firmware/app/main.c:119-126 | An edge stamped before a resynchronisation and processed after it puts two events of one pin out of order |
| EventOrder.StartOrderIff | docs/PROTOCOL.md:139 | From a quiet state, every run without writes whose edges and resynchronisations come in the order of their times keeps all events in start order if and only if at most one pin is monitored or no monitored pin has a debounce time |
| EventOrder.DefaultConfigBreaksOrder | docs/PROTOCOL.md:247 | The default configuration of a device with two GPIOs does not keep the start order |
| EventOrder.LowerOvertakes | firmware/core/src/engine.c:162-167 | Two changes that one tick confirms are queued in pin order, against the order of their starts |
| EventOrder.QuickOvertakes | firmware/core/src/debounce.c:28-33 | A change without debounce time overtakes an earlier one that waits |
| Engine.Engine.constructor | firmware/core/src/engine.c:115-133 | Power-on reaches the initial state: default configuration, every available pin set up and settling |
| Engine.Engine.OnEdge | firmware/core/src/engine.c:135-144 | An edge takes the state to the one after it, ignoring GPIOs out of range or not tracked |
| Engine.Engine.Resync | firmware/core/src/engine.c:146-154 | The loop feeds each differing tracked pin, in order |
| Engine.Engine.FinishSettle | firmware/core/src/engine.c:93-113 | First levels, masks, reported levels and the waiting CONFIG_CHANGED, in place |
| Engine.Engine.Task | firmware/core/src/engine.c:156-172 | Settle if due, poll all pins in order, then the periodic reason with wrapping subtraction |
| Engine.Engine.PrepareReport | firmware/core/src/engine.c:174-221 | Reports whether there is something to send, and stages exactly the report described by the state |
| Engine.Engine.CommitReport | firmware/core/src/engine.c:223-239 | Takes the staged events, reasons and overflow out and numbers the report |
| Engine.Engine.SendStatusReport | firmware/app/main.c:31-40 | Prepare, and commit exactly when the report was handed over |
| Engine.Engine.GetStatus | firmware/core/src/engine.c:241-253 | The reply shows the confirmed levels and changes nothing |
| Engine.Engine.GetPinConfig | firmware/core/src/engine.c:260-269 | The reply shows the configuration in force and the verdict on the last write |
| Engine.Engine.SetPinConfig | firmware/core/src/engine.c:271-313 | Records the verdict, and on success applies every changed pin and starts a settle |
| Engine.Engine.Output | firmware/core/src/engine.c:315-331 | Drives exactly the output pins of the mask; a wrong length changes nothing |
| Engine.Engine.UsbReset | firmware/core/src/engine.c:333-343 | Returns the output pins, if there are any, to their initial levels |
| Engine.PinControl.ApplyPin | firmware/core/src/engine.c:281-305 | One pin of a write: register, settle bit and output level |
| Debounce.Debouncers.Reset | firmware/core/src/debounce.c:3-10 | The struct in place becomes a settled debouncer |
| Debounce.Debouncers.ChangeTime | firmware/core/src/debounce.c:12-18 | A new debounce time restarts a pending wait |
| Debounce.Debouncers.OnEdge | firmware/core/src/debounce.c:20-36 | An edge in place, with the start of a change confirmed at once |
| Debounce.Debouncers.OnPoll | firmware/core/src/debounce.c:38-50 | A poll in place, with the start of a change that waited long enough |
| Debounce.ConsistentAlways | firmware/core/src/debounce.c:20-50 | Over any run a change is pending exactly when raw and confirmed differ |
| Debounce.ConfirmationsAlternate | firmware/core/src/debounce.c:20-50 | Over any run every confirmed level negates the one before it |
| Debounce.PolledLevelWasQuiet | firmware/core/src/debounce.c:38-50 | A level confirmed by a poll was the last one seen, and its start is the last change or new debounce time recorded, at least the debounce time ago |
| Debounce.StartsAreOrdered | firmware/core/src/debounce.c:20-50 | With ordered times the starts of successive confirmations never go back |
| EventQueue.EventQueue.Push | firmware/core/src/event_queue.c:10-19 | Appends at the end of the FIFO, or sets the overflow flag when it holds 32 |
| EventQueue.EventQueue.Peek | firmware/core/src/event_queue.c:21-24 | The index-th oldest event |
| EventQueue.EventQueue.Drop | firmware/core/src/event_queue.c:26-33 | Removes the n oldest events, all of them if there are fewer |
| EventQueue.WindowAppend | firmware/core/src/event_queue.c:16-17 | Writing the slot past a ring's window appends to it, wrapping around |
| EventQueue.WindowDrop | firmware/core/src/event_queue.c:31-32 | Moving the head drops the oldest items of the window |
| Replay.AlternatesSplit | firmware/core/src/engine.c:185-193 | A batch taken from the front ends at the level the rest starts from |
| Replay.AlternatesNeighbours | firmware/core/src/engine.c:68-73 | Alternating events of a pin carry opposite levels wherever they stand in the queue |
| EdgeRing.NothingLostInBetween | firmware/app/gpio_hw.c:17-113 | Under every interleaving, popped edges followed by the ring are the accepted ones in order, at most 255 wait, and without a refusal they are all that arrived |
| EdgeRing.CopyIsNotTorn | firmware/app/gpio_hw.c:103-113 | However often the handler strikes around the copy, the edge taken out is the one that was oldest when the ring was found not empty |
| EdgeRing.StepKeeps | firmware/app/gpio_hw.c:17-122 | Every single access of either side keeps the ring's invariant |
| EdgeRing.OverflowIsTakenOnce | firmware/app/gpio_hw.c:115-122 | The flag is set exactly while a refusal has not been taken, and taking it clears all of them |
| EdgeRing.EdgeBuffer.OnInterrupt | firmware/app/gpio_hw.c:32-39 | The handler on the real array and indices |
| EdgeRing.EdgeBuffer.PopEdge | firmware/app/gpio_hw.c:103-113 | Interrupted between its accesses by any edges, it returns the oldest edge, or none exactly when the ring was empty at the comparison |
| EdgeRing.EdgeBuffer.TakeOverflowFlag | firmware/app/gpio_hw.c:115-122 | Returns and clears the flag in one step |
| Protocol.MaskBit | hidpin/protocol.go:262-264 | Bit n of a mask is set exactly for its members |
| Protocol.PinsOfMask | hidpin/protocol.go:215-223 | The pins of a mask are the set it was made of |
| Protocol.ReasonRoundTrip | firmware/core/src/engine.c:202 | The reason byte gives back every set of reasons |
| StatusCodec.LeRoundTrip | firmware/core/src/protocol.c:36-63 | Little-endian bytes of any width give the number back |
| StatusCodec.PutLe | firmware/core/src/protocol.c:36-54 | The loop writes the little-endian bytes at the offset and nothing else |
| StatusCodec.EncodeStatus | firmware/core/src/protocol.c:83-105 | The device writes exactly the 63 bytes of the report |
| StatusCodec.DecodeStatus | hidpin/protocol.go:267-294 | The host's loop decodes, refusing wrong lengths and more than 7 events |
| StatusCodec.StatusRoundTrip | hidpin/protocol.go:267-294 | The host decodes every field and all 0 to 7 events of what the device encoded |
| StatusCodec.ReportRoundTrip | firmware/core/src/protocol.c:83-105 | The same for reports as the engine makes them, with sets of pins, reasons and flags |
| StatusCodec.CommandRoundTrip | firmware/core/src/protocol.c:177-185 | An output command of the host reaches the device with both masks, and other lengths are refused |
| PinConfigCodec.DecodeSet | firmware/core/src/protocol.c:142-175 | The device's validation returns the verdict, and replaces the configuration only on success |
| PinConfigCodec.ValidatePayload | hidpin/protocol.go:558-581 | The host's validation returns the same verdict for every byte string and every availability mask |
| PinConfigCodec.VerdictOf | docs/PROTOCOL.md:257-272 | The verdict names the lowest offending pin and its first failed check |
| PinConfigCodec.VerdictIsUnique | docs/PROTOCOL.md:257-272 | That description leaves one verdict only |
| PinConfigCodec.AcceptedIffAcceptable | firmware/core/src/protocol.c:151-170 | An encoded configuration is accepted if and only if it suits the board |
| PinConfigCodec.AcceptedModes | firmware/core/src/protocol.c:151-173 | What an accepted payload carries suits the board |
| PinConfigCodec.AcceptedReencodes | firmware/core/src/protocol.c:131-140 | An accepted payload and the encoding of what was accepted carry the same mode and param bytes |
| PinConfigCodec.ConfigRoundTrip | hidpin/protocol.go:520-546 | The host reads back exactly the report that was encoded |
| PinConfigCodec.EncodePinConfig | firmware/core/src/protocol.c:131-140 | The loop writes exactly the report's bytes |
| PinConfigCodec.DecodePinConfig | hidpin/protocol.go:520-533 | The host's loop decodes, refusing wrong lengths and undefined modes |
| HostDevice.Device.SetPinConfig | hidpin/device.go:272-304 | Writes only what suits the board, uses up a request id exactly when it writes, judges the payload read back, and keeps the configuration it carries, whatever the judgement |
| HostDevice.ValidatePinConfig | hidpin/protocol.go:584-587 | The host's check before a write names the same fault as the device would |
| HostDevice.Device.TrackSeq | hidpin/device.go:357-366 | Adds the wrapped gap, except for replies to requests |
| HostDevice.LastWriteDecides | firmware/core/src/engine.c:271-313 | Over any run, the answer to a read is the verdict on the last write of any process, and the configuration is that of the last accepted one |
| HostDevice.WriteOutcome | hidpin/device.go:286-303 | With other writers in between: "applied" if and only if the last write carries the host's id, was accepted and the host's configuration is in force; "conflict" if and only if the last write carries another id |
| HostDevice.LoneWriter | docs/PROTOCOL.md:286-292 | Without another writer, a write is applied if and only if it suits the board, is otherwise refused with the fault of the host's own validation, and never conflicts |
| HostDevice.WriteIsPublished | docs/PROTOCOL.md:307-310 | The first tick 1000 us after an accepted write that changes something publishes its masks, whatever else happens meanwhile; a report that carries them with CONFIG_CHANGED was committed or the next one will be |
| DeviceClock.ClockEstimate.AddSample | rust/src/watch.rs:414-428 | Takes a sample into the current window or opens a new one |
| DeviceClock.ClockEstimate.InstantAt | rust/src/watch.rs:431-439 | Converts with the better of the two samples |
| DeviceClock.KeepsLeastSamples | hidpin/watch_loop.go:616-625 | Over any history, cur and prev are least samples of the current and previous groups |
| DeviceClock.BestIsLeast | hidpin/watch_loop.go:627-633 | The sample used is a least one of both groups together |
| DeviceClock.NeverEarly | hidpin/watch_loop.go:595-599 | Without drift the converted time is late by exactly the smallest retained latency, so never early |
| WatchInvariants.AlwaysInv | rust/src/watch.rs:516-591 | Over any inputs and answers: disconnected if and only if a scan is armed, awaiting a configuration if and only if a settle deadline is armed, no other deadline without a connection, and the event grammar |
| WatchInvariants.ChangesFollowAnnouncements | hidpin/watch_loop.go:407-446 | In any event stream, losses and reconnections included, a change follows an announcement of its pin and negates the latest one |
| WatchInvariants.ReportKeeps | rust/src/watch.rs:812-864 | After absorbing any report, exactly the monitored pins are known, each with the ON/OFF of its level, and the grammar holds |
| WatchInvariants.StepKeeps | rust/src/watch.rs:516-591 | Every round, with any answers of the outside world, keeps the invariant |
| WatchLifecycle.AlwaysOrderly | rust/src/watch.rs:616-759 | Over any run, Connected and Disconnected alternate, beginning with Connected; only the first is not a reconnection; a reconnection is followed at once by the reset of its outputs and nothing else is; failures come only while disconnected and all other events only while connected; write-backs are numbered 1, 2, 3 |
| WatchCounts.CauseIsToldOnce | rust/src/watch.rs:597-651 | Over any run of due attempts to connect that fail with the same cause, wherever in the attempt, the second is told and no other; conflicts with other request ids are other causes |
| WatchTheorems.WriteBacksAreSpaced | rust/src/watch.rs:910-946 | Over any run with ordered clock readings, any two rounds that try to write the target back do so at least 1 s apart |
| WatchTheorems.StepMarks | rust/src/watch.rs:920-928 | A round tries a write-back exactly in the cases listed by `WatchTheorems.WriteBack`, and remembers its time |
| WatchTheorems.AlwaysFollows | rust/src/watch.rs:889-996 | With a device that follows the protocol, when set_target can read the configuration and its write arrives and is rejected only if it does not suit the board, a connected watcher with a target last saw the device with it or has a write-back armed |
| WatchTheorems.NewTargetFollowedIff | rust/src/watch.rs:961-996 | Whether a new target is followed, case by case of what the device answered |
| WatchTheorems.FailedTargetIsNotRetried | docs/HOST_API.md:942 | After any `set_target` whose target is not taken, be it the read or the write that failed or a rejection over a foreign configuration, no timer and no report without CONFIG_CHANGED tries a write-back |
| WatchTheorems.NextConnectionWrites | rust/src/watch.rs:654-672 | A connection with a target ends with the device on the target, which it had or was written to it |
| Scenarios.TargetIsNotWritten | rust/src/watch.rs:982-993 | A watcher that finds a device and is given a target whose write does not arrive keeps a target that it does not follow |
| WatchTheorems.ChangedPinIsAnnouncedAnew | rust/src/watch.rs:880-887 | A pin whose mode a new configuration changes has its ON/OFF announced anew by the next report absorbed, with its new polarity and as no change; an input that keeps its pull keeps what is known |
| WatchTheorems.StaleTests | hidpin/watch_loop.go:380-387 | For true numbers at most 2^15 apart the signed and the distance comparison agree and tell whether a report was sent at or before the snapshot |
| WatchCounts.MissedCountsSkipped | rust/src/watch.rs:739-744 | However reports are lost, the missed counts that a run of the connected watcher tells in its events add up to the reports that were sent and not received, while no more than 2^16 - 1 are lost in a row |
| WatchLoop.WatchLoop.Round | rust/src/watch.rs:516-591 | One round of the loop takes the state machine's step for its input |
| WatchLoop.WatchLoop.TryConnect | rust/src/watch.rs:616-651 | Scan, choose one device, connect or schedule the next scan |
| WatchLoop.WatchLoop.Connect | rust/src/watch.rs:654-712 | Open, read, write the target if needed, attach, then snapshot or wait for the settle |
| WatchLoop.WatchLoop.Lost | rust/src/watch.rs:723-730 | Drops the connection with its deadlines and schedules a scan |
| WatchLoop.WatchLoop.Received | rust/src/watch.rs:732-745 | Ignores what is not a status report, counts the gap, follows the report |
| WatchLoop.WatchLoop.Snapshot | rust/src/watch.rs:748-759 | Sets the comparison number and follows the reply; a fatal error in it is ignored |
| WatchLoop.WatchLoop.TakeStatus | rust/src/watch.rs:761-809 | Clock sample, staleness, settle, announcements, configuration and absorption, in order |
| WatchLoop.WatchLoop.Absorb | rust/src/watch.rs:812-864 | The loops over events and levels update the known ON/OFF and announce what changed |
| WatchLoop.WatchLoop.SetConfig | rust/src/watch.rs:882-887 | Forgets the pins no longer monitored or with another pull |
| WatchLoop.WatchLoop.ConfigChange | rust/src/watch.rs:890-918 | Announces a foreign configuration, or writes the target back now or when the interval is over |
| WatchLoop.WatchLoop.RestoreTarget | rust/src/watch.rs:920-959 | One write-back with each of its outcomes |
| WatchLoop.WatchLoop.SetTarget | rust/src/watch.rs:961-996 | A new target with each of its outcomes, the old one back after a rejection |
| WatchLoop.WatchLoop.DrivenOutputs | rust/src/watch.rs:1017-1021 | The outputs a write drives anew |
| ReportDescriptor.TopLevelUsage | hidpin/internal/hidraw/hidraw.go:61-93 | On any bytes, truncated ones included, the loop ends within bounds with what the scan finds |
| ReportDescriptor.ReadData | hidpin/internal/hidraw/hidraw.go:72-75 | Reads the item's data little-endian as far as there are bytes |
| ReportDescriptor.FirstApplicationFound | hidpin/internal/hidraw/hidraw.go:59-93 | On the encoding of any list of short and long items, the scan returns the page and usage last set before the first application collection, or (0, 0) without one |
| ReportDescriptor.ScanMeetsSpecificationIff | hidpin/internal/hidraw/hidraw.go:59-93 | On the encoding of any list of items with an application collection, the scan returns what sections 6.2.2.7 and 6.2.2.8 of the HID specification give it if and only if the last page set stands, or the two page numbers happen to be equal, and no Main item follows the last usage, unless that is 0 |
| ReportDescriptor.LastPageDecidesIff | hidpin/internal/hidraw/hidraw.go:77-85 | The item that set a page last decides the specification's page if and only if there is none, or it is a 4-byte usage with no usage or Main item after it, or it is a Usage Page, no 4-byte usage is in force, and the number of saved pages never fell below what it was at that item |
| ReportDescriptor.OrderDecides | hidpin/internal/hidraw/hidraw.go:59-93 | When no two items set the same page and none sets 0, the order of the items alone decides whether the scan meets the specification |
| ReportDescriptor.PlainDescriptors | hidpin/internal/hidraw/hidraw.go:59-93 | In particular for descriptors without Pop and 4-byte usages that name the collection after the last Main item |
| ReportDescriptor.OwnDescriptor | firmware/core/src/protocol.c:10-13 | The device's own descriptor, however it goes on, is found to be FF00:0001 |
| ReportDescriptor.PopIsIgnored | hidpin/internal/hidraw/hidraw.go:77-91 | With page p, Push, page q, Pop before a usage, the scan returns page q where the specification gives p, for all p and q |
| ReportDescriptor.ExtendedPageLeaks | hidpin/internal/hidraw/hidraw.go:80-85 | One in which the page of a 4-byte usage is taken for a later usage |
| ReportDescriptor.ExtendedPageIsOverridden | hidpin/internal/hidraw/hidraw.go:78-83 | One in which a Usage Page replaces the page of a 4-byte usage |
| ReportDescriptor.UsageOutlivesMain | hidpin/internal/hidraw/hidraw.go:80-85 | One in which a usage outlives a Main item |

## Left out

- EndToEnd.ExactlyOnce: for runs in which the configuration changes, events are dropped or reports are lost,
  nothing more is stated end to end than the grammar of `WatchInvariants.ChangesFollowAnnouncements` and the levels
  of `WatchInvariants.ReportKeeps`, because inferred changes then stand in for events the host never sees.
- Snapshots.ZeroSnapshotRepeats: gives the least number of repeated announcements for the last report sent; that any
  number of reports add nothing is decided by `Snapshots.BufferedAddNothingIff`.
- EventOrder.StartOrderIff: is about runs without configuration writes whose edges and resynchronisations are processed
  in the order of their times, from a state with nothing pending, while the clock is below 2^48 us.
- PinOrder.PinOrderIff: is about steps that drop no event, because a dropped one is never out of order, and stamps below
  2^63 us. `PinOrder.AlwaysInOrderIff` likewise.
- SettleGate.WaitsForItsWriteIff: leaves out another change of the configuration by other processes, which the watcher
  would undo or report, and the settle deadline of 1 s, which takes a snapshot instead.
- EngineTheorems.LevelsWaitThroughout: leaves out waits in which an event is confirmed, which changes the level of a
  monitored pin as it should, or an output is commanded or reset.
- ReportDescriptor.ScanMeetsSpecificationIff: takes the last of several usages given for a collection; the specification
  foresees one.
- WatchTheorems.AlwaysFollows: leaves out transport failures inside `set_target`, where the property is false.
- HostDevice.Device.SetPinConfig: a configuration has defined modes only; a Go `PinSetting` could hold any byte, which
  the host's validation refuses.
- DeviceClock.ClockEstimate.InstantAt: gives the host instant; the conversion to wall-clock time, and an instant
  before the start of the host's own clock, are not part of this model.
- WatchLoop.WatchLoop.Round: requests of the application and the delivery of events to it are inputs and outputs of a round; threads,
  channels, the capacity of the outgoing queue and closing the watcher are not modelled.
- WatchLoop.WatchLoop.Snapshot: is the Rust form; in the Go watcher a fatal error while following a snapshot stops it
  (`hidpin/watch_loop.go:356-367`).
- Go's alarms and read goroutine: the Rust form with plain deadlines is modelled; their effect on the loop is the same.
- Wrapping of 64-bit microsecond times, after more than 500000 years; only the periodic comparison keeps it.
- The activity counter and the status LED, device information, board and chip names: independent of the properties here.
- USB and Pico SDK code, hidraw enumeration and file access, the command-line tool: foreign code and plumbing.
- The random choice of a request id: any id from 1 to 255 other than the last one is allowed.
- The Python library and `rust/src/protocol.rs`: further copies of the logic modelled from Go and Rust.
- Simulated devices (`hidpin/hidpintest`, `rust/src/testing.rs`): the engine itself is the device in `EndToEnd` and `HostDevice`.
- The main loop of `firmware/app/main.c` as a loop: runs here are in any order of its steps, which covers its own.
