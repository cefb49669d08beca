/** The firmware engine as the object the C code keeps: fields updated in place, 30 debouncers, a queue
    and the GPIO hardware. Every method is proved to take the step of the state machine EngineSpec. */
module Engine {
  import opened Protocol
  import opened Q = EventQueue
  import D = Debounce
  import C = PinConfigCodec
  import W = StatusCodec
  import S = EngineSpec

  /** The GPIO callbacks the firmware supplies. pins records what was configured, and when. */
  class GpioBoard {
    ghost var pins: seq<S.HwPin>
    var levels: set<nat>  // electrical values, changed by the world outside

    constructor (levels: set<nat>)
      ensures pins == seq(GPIO_COUNT, _ => S.Untouched)
    {
      this.levels := levels;
      pins := seq(GPIO_COUNT, _ => S.Untouched);
    }

    method SetUnused(n: nat)
      requires n < |pins|
      modifies `pins
      ensures pins == old(pins)[n := S.Disabled]
    {
      pins := pins[n := S.Disabled];
    }

    method SetInput(n: nat, mode: PinMode, ghost at: nat)
      requires n < |pins|
      modifies `pins
      ensures pins == old(pins)[n := S.Sensing(mode, at)]
    {
      pins := pins[n := S.Sensing(mode, at)];
    }

    method SetOutput(n: nat, level: bool)
      requires n < |pins|
      modifies `pins
      ensures pins == old(pins)[n := S.Driven(level)]
    {
      pins := pins[n := S.Driven(level)];
    }

    method WriteOutputs(mask: set<nat>, value: set<nat>)
      modifies `pins
      ensures pins == S.WritePins(old(pins), mask, value)
    {
      pins := S.WritePins(pins, mask, value);
    }

    method ReadInputs() returns (raw: set<nat>)
      ensures raw == levels
    {
      raw := levels;
    }
  }

  method InputMask(config: PinConfig) returns (mask: set<nat>)
    ensures mask == InputPins(config)
  {
    mask := {};
    for n := 0 to GPIO_COUNT
      invariant mask == set m: nat | m < n && IsInput(config[m].mode)
    {
      if IsInput(config[n].mode) {
        mask := mask + {n};
      }
    }
  }

  method OutputMask(config: PinConfig) returns (mask: set<nat>)
    ensures mask == OutputPins(config)
  {
    mask := {};
    for n := 0 to GPIO_COUNT
      invariant mask == set m: nat | m < n && config[m].mode.Output?
    {
      if config[n].mode == PinMode.Output {
        mask := mask + {n};
      }
    }
  }

  method InitialOutputLevels(config: PinConfig) returns (levels: set<nat>)
    ensures levels == S.InitialHigh(config)
  {
    levels := {};
    for n := 0 to GPIO_COUNT
      invariant levels == set m: nat | m < n && config[m].mode.Output? && config[m].param != 0
    {
      if config[n].mode == PinMode.Output && config[n].param != 0 {
        levels := levels + {n};
      }
    }
  }

  /** The fields that deal with the pin configuration, the settle in progress and the hardware. */
  class PinControl {
    const available: set<nat>
    const hw: GpioBoard
    var config: PinConfig
    var result: byte
    var resultGpio: byte
    var requestId: byte
    var outputLevels: set<nat>
    var settling: set<nat>
    var settleActive: bool
    var configChanged: bool
    var settleDeadline: nat
    ghost var view: S.Setup

    ghost predicate Valid()
      reads this, hw`pins
    {
      && |hw.pins| == GPIO_COUNT
      && view == S.Setup(available, config, result, resultGpio, requestId,
                         outputLevels, settling, settleActive, configChanged, settleDeadline, hw.pins)
    }

    /** Applies the default configuration; GPIOs that are not available are never touched. */
    constructor (board: GpioBoard, available: set<nat>, now: nat)
      requires board.pins == seq(GPIO_COUNT, _ => S.Untouched)
      modifies board
      ensures Valid() && hw == board && view == S.Init(available, now).cfg
    {
      var defaults: seq<PinSetting> := [];
      for n := 0 to GPIO_COUNT
        modifies {}
        invariant |defaults| == n
        invariant forall i :: 0 <= i < n ==>
          defaults[i] == if i in available then PinSetting(InputPullUp, S.DEFAULT_DEBOUNCE_MS) else PinSetting(Unused, 0)
      {
        defaults := defaults + [if n in available then PinSetting(InputPullUp, S.DEFAULT_DEBOUNCE_MS)
                                else PinSetting(Unused, 0)];
      }
      var toSettle: set<nat> := {};
      for n := 0 to GPIO_COUNT
        modifies board
        invariant |board.pins| == GPIO_COUNT
        invariant forall i :: 0 <= i < GPIO_COUNT ==>
          board.pins[i] == if i < n && i in available then S.Sensing(InputPullUp, now) else S.Untouched
        invariant toSettle == set i: nat | i < n && i in available
      {
        if IsInput(defaults[n].mode) {
          board.SetInput(n, defaults[n].mode, now);
          toSettle := toSettle + {n};
        }
      }
      this.available, hw := available, board;
      config, result, resultGpio, requestId := defaults, C.RESULT_OK, C.GPIO_NONE, 0;
      outputLevels, settling := {}, toSettle;
      settleActive, configChanged, settleDeadline := true, false, now + S.SETTLE_US;
      view := S.Init(available, now).cfg;
      new;
      assert config == S.DefaultConfig(available);
      assert hw.pins == view.hw;
    }

    /** One pin of a write: its hardware, its place among the settling pins and its output level. */
    method ApplyPin(next: PinConfig, n: nat, now: nat)
      requires Valid() && n < GPIO_COUNT
      modifies this, hw`pins
      ensures Valid() && view == S.ApplyPin(old(view), next, n, now)
    {
      var was, setting := config[n], next[n];
      if was == setting {
        return;
      }
      if IsInput(setting.mode) {
        if was.mode != setting.mode {
          hw.SetInput(n, setting.mode, now);
          settling := settling + {n};
        }
        outputLevels := S.WithBit(outputLevels, n, false);
      } else if setting.mode.Output? {
        settling := settling - {n};
        hw.SetOutput(n, setting.param != 0);
        outputLevels := S.WithBit(outputLevels, n, setting.param != 0);
      } else {
        settling := settling - {n};
        hw.SetUnused(n);
        outputLevels := S.WithBit(outputLevels, n, false);
      }
      view := S.ApplyPin(view, next, n, now);
    }

    /** The outcome of a write is recorded whether or not it is accepted. */
    method RecordVerdict(v: C.Verdict)
      requires Valid()
      modifies this
      ensures Valid()
      ensures view == old(view).(result := v.result, resultGpio := v.gpio, requestId := v.requestId)
    {
      result, resultGpio, requestId := v.result, v.gpio, v.requestId;
      view := view.(result := v.result, resultGpio := v.gpio, requestId := v.requestId);
    }

    method StartSettle(next: PinConfig, now: nat)
      requires Valid()
      modifies this
      ensures Valid()
      ensures view == old(view).(
        config := next, configChanged := true, settleActive := true, settleDeadline := now + S.SETTLE_US)
    {
      config := next;
      configChanged := true;
      settleActive := true;
      settleDeadline := now + S.SETTLE_US;
      view := view.(config := next, configChanged := true, settleActive := true, settleDeadline := now + S.SETTLE_US);
    }

    method EndSettle()
      requires Valid()
      modifies this
      ensures Valid() && view == old(view).(settling := {}, settleActive := false, configChanged := false)
    {
      settling := {};
      settleActive := false;
      configChanged := false;
      view := view.(settling := {}, settleActive := false, configChanged := false);
    }

    /** Drives the output pins of mask to the levels in value. */
    method DriveOutputs(mask: set<nat>, value: set<nat>)
      requires Valid()
      modifies this, hw`pins
      ensures Valid()
      ensures view == old(view).(
        outputLevels := (old(view).outputLevels - mask) + value, hw := S.WritePins(old(view).hw, mask, value))
    {
      outputLevels := (outputLevels - mask) + value;
      if mask != {} {
        hw.WriteOutputs(mask, value);
      } else {
        assert hw.pins == S.WritePins(hw.pins, mask, value);
      }
      view := view.(outputLevels := outputLevels, hw := hw.pins);
    }
  }

  /** The fields that deal with sending reports: reasons, sequence numbers and the staged report. */
  class ReportSender {
    var pendingReasons: set<Reason>
    var nextSeq: u16
    var lastSeq: u16
    var hasSent: bool
    var lastSent: nat
    var staged: bool
    var stagedEvents: nat
    var stagedReasons: set<Reason>
    var stagedOverflow: bool
    var stagedLevels: set<nat>
    ghost var view: S.Sender

    ghost predicate Valid()
      reads this
    {
      && view.reasons == pendingReasons && view.nextSeq == nextSeq && view.lastSeq == lastSeq
      && view.hasSent == hasSent && view.lastSent == lastSent
      && (staged <==> view.staged.Staged?)
      && (staged ==> view.staged.count == stagedEvents && view.staged.reasons == stagedReasons
                     && view.staged.overflow == stagedOverflow && view.staged.levels == stagedLevels)
    }

    constructor (now: nat)
      ensures Valid() && view == S.Sender({}, 0, 0, false, now, S.NotStaged)
    {
      pendingReasons, nextSeq, lastSeq, hasSent, lastSent := {}, 0, 0, false, now;
      staged, stagedEvents, stagedReasons, stagedOverflow, stagedLevels := false, 0, {}, false, {};
      view := S.Sender({}, 0, 0, false, now, S.NotStaged);
    }

    method Raise(r: Reason)
      requires Valid()
      modifies this
      ensures Valid() && view == S.Raise(old(view), r)
    {
      pendingReasons := pendingReasons + {r};
      view := S.Raise(view, r);
    }

    method Unstage()
      requires Valid()
      modifies this
      ensures Valid() && view == old(view).(staged := S.NotStaged)
    {
      staged := false;
      view := view.(staged := S.NotStaged);
    }

    method Stage(report: Report, reflected: set<nat>, count: nat)
      requires Valid()
      modifies this
      ensures Valid()
      ensures view == old(view).(
        staged := S.Staged(count, report.reasons, report.overflow, reflected, report))
    {
      staged := true;
      stagedEvents := count;
      stagedReasons := report.reasons;
      stagedOverflow := report.overflow;
      stagedLevels := reflected;
      view := view.(staged := S.Staged(count, report.reasons, report.overflow, reflected, report));
    }

    /** The staged report was handed over: it takes its reasons and its sequence number with it. */
    method Acknowledge(now: nat)
      requires Valid() && staged
      modifies this
      ensures Valid() && view == S.Acknowledge(old(view), old(view).staged.reasons, now)
    {
      pendingReasons := pendingReasons - stagedReasons;
      lastSeq := nextSeq;
      nextSeq := (nextSeq + 1) % 0x1_0000;
      hasSent := true;
      lastSent := now;
      staged := false;
      view := S.Acknowledge(view, view.staged.reasons, now);
    }
  }

  class Engine {
    const control: PinControl
    const debounce: D.Debouncers
    const queue: Q.EventQueue
    const sender: ReportSender
    var monitored: set<nat>
    var outputs: set<nat>
    var reportedLevels: set<nat>
    ghost var state: S.State  // the state of the state machine that this object is in

    /** The objects the engine is made of. */
    ghost function Parts(): set<object>
      reads this
    {
      {this, control, control.hw, debounce, debounce.cells, queue, queue.items, sender}
    }

    ghost predicate Valid()
      reads Parts()
    {
      ValidButDebouncers() && debounce.Valid() && state.deb == debounce.views
    }

    ghost predicate ValidButDebouncers()
      reads this, control, control.hw, queue, queue.items, sender
    {
      && control.Valid() && queue.Valid() && sender.Valid() && S.Sized(state)
      && state.cfg == control.view
      && state.fifo.queue == queue.contents && state.fifo.overflowed == queue.overflowed
      && state.pub == S.Published(monitored, outputs, reportedLevels)
      && state.tx == sender.view
    }

    constructor (board: GpioBoard, available: set<nat>, now: nat)
      requires board.pins == seq(GPIO_COUNT, _ => S.Untouched)
      modifies board
      ensures Valid() && state == S.Init(available, now)
      ensures fresh(Parts() - {board})
    {
      control := new PinControl(board, available, now);
      debounce := new D.Debouncers(GPIO_COUNT);
      queue := new Q.EventQueue();
      sender := new ReportSender(now);
      monitored, outputs, reportedLevels := {}, {}, {};
      state := S.Init(available, now);
    }

    // ---- edges ----

    method IsTracking(n: nat) returns (tracking: bool)
      requires Valid() && n < GPIO_COUNT
      ensures tracking == S.Tracking(state.cfg, state.pub, n)
    {
      tracking := n in monitored && n !in control.settling && IsInput(control.config[n].mode);
    }

    method PushEvent(gpio: nat, level: bool, start: nat, ghost fifo: S.Fifo)
      requires queue.Valid() && fifo.queue == queue.contents && fifo.overflowed == queue.overflowed
      modifies queue, queue.items
      ensures queue.Valid()
      ensures var pushed := S.Push(fifo, EdgeEvent(gpio, level, start));
        pushed.queue == queue.contents && pushed.overflowed == queue.overflowed
    {
      var queued := queue.Push(EdgeEvent(gpio, level, start));
    }

    method OnEdge(gpio: nat, rawLevel: bool, now: nat)
      requires Valid()
      modifies `state, queue, queue.items, debounce, debounce.cells
      ensures Valid() && state == S.OnEdge(old(state), gpio, rawLevel, now)
    {
      if gpio >= GPIO_COUNT {
        return;
      }
      var tracking := IsTracking(gpio);
      if !tracking {
        return;
      }
      var start := debounce.OnEdge(gpio, rawLevel, now);
      Announce(gpio, start);
    }

    /** A debouncer step on pin n is done; a confirmed level goes to the queue. */
    method Announce(n: nat, start: Option<nat>)
      requires n < GPIO_COUNT && debounce.Valid() && |debounce.views| == GPIO_COUNT && S.Sized(state)
      requires ValidButDebouncers() && state.deb[n := debounce.views[n]] == debounce.views
      modifies `state, queue, queue.items
      ensures Valid() && state == S.Confirm(old(state), n, debounce.views[n], start)
    {
      if start.Some? {
        var d := debounce.Get(n);
        PushEvent(n, d.confirmed, start.value, state.fifo);
      }
      state := S.Confirm(state, n, debounce.views[n], start);
    }

    method Resync(raw: set<nat>, now: nat)
      requires Valid()
      modifies `state, queue, queue.items, debounce, debounce.cells
      ensures Valid() && state == S.ResyncFrom(old(state), raw, now, 0)
    {
      for n := 0 to GPIO_COUNT
        invariant Valid() && S.ResyncFrom(state, raw, now, n) == S.ResyncFrom(old(state), raw, now, 0)
      {
        var level := n in raw;
        var tracking := IsTracking(n);
        var d := debounce.Get(n);
        if tracking && level != d.raw {
          OnEdge(n, level, now);
        }
      }
    }

    // ---- task ----

    method FinishSettle(ghost now: nat)
      requires Valid()
      modifies this, control, debounce, debounce.cells, sender
      ensures Valid() && state == S.FinishSettle(old(state), control.hw.levels, now)
    {
      var raw := control.hw.ReadInputs();
      SettlePins(raw);
      PublishMasks();
      if control.configChanged {
        sender.Raise(ConfigChanged);
      }
      control.EndSettle();
      state := S.FinishSettle(state, raw, now);
    }

    /** The settled pins start from the level read; their bits in reportedLevels are set to it. */
    method SettlePins(raw: set<nat>)
      requires debounce.Valid() && |debounce.views| == GPIO_COUNT
      modifies `reportedLevels, debounce, debounce.cells
      ensures debounce.Valid() && |debounce.views| == GPIO_COUNT
      ensures forall m :: 0 <= m < GPIO_COUNT ==>
        debounce.views[m] == SettledCell(old(debounce.views), m, GPIO_COUNT, raw)
      ensures forall m :: m in reportedLevels <==>
        if m < GPIO_COUNT && m in control.settling then m in raw else m in old(reportedLevels)
    {
      for n := 0 to GPIO_COUNT
        invariant debounce.Valid() && |debounce.views| == GPIO_COUNT
        invariant forall m :: 0 <= m < GPIO_COUNT ==>
          debounce.views[m] == SettledCell(old(debounce.views), m, n, raw)
        invariant forall m :: m in reportedLevels <==>
          if m < n && m in control.settling then m in raw else m in old(reportedLevels)
      {
        if n in control.settling {
          debounce.Reset(n, n in raw, control.config[n].param);
          reportedLevels := S.WithBit(reportedLevels, n, n in raw);
        }
      }
    }

    /** Debouncer m after the pins below n were settled. */
    ghost function SettledCell(views: seq<D.Deb>, m: nat, n: nat, raw: set<nat>): D.Deb
      requires m < |views| == GPIO_COUNT
      reads control
    {
      if m < n && m in control.settling then D.ResetTo(m in raw, control.config[m].param) else views[m]
    }

    method PublishMasks()
      modifies `monitored, `outputs, `reportedLevels
      ensures monitored == InputPins(control.config) && outputs == OutputPins(control.config)
      ensures reportedLevels == old(reportedLevels) * monitored
    {
      monitored := InputMask(control.config);
      outputs := OutputMask(control.config);
      reportedLevels := reportedLevels * monitored;
    }

    method PollPin(n: nat, now: nat)
      requires Valid() && n < GPIO_COUNT
      modifies `state, queue, queue.items, debounce, debounce.cells
      ensures Valid() && state == S.PollPin(old(state), n, now)
    {
      var tracking := IsTracking(n);
      if tracking {
        var start := debounce.OnPoll(n, now);
        Announce(n, start);
      }
    }

    method PollAll(now: u64)
      requires Valid()
      modifies `state, queue, queue.items, debounce, debounce.cells
      ensures Valid() && state == S.PollFrom(old(state), now, 0)
    {
      for n := 0 to GPIO_COUNT
        invariant Valid() && S.PollFrom(state, now, n) == S.PollFrom(old(state), now, 0)
      {
        PollPin(n, now);
      }
    }

    method RaiseIfPeriodic(now: u64)
      requires Valid()
      modifies `state, sender
      ensures Valid()
      ensures state == old(state).(tx :=
        if S.PeriodicDue(now, old(state).tx.lastSent) then S.Raise(old(state).tx, Periodic) else old(state).tx)
    {
      if (now - sender.lastSent) % 0x1_0000_0000_0000_0000 >= S.PERIODIC_US {
        sender.Raise(Periodic);
        state := state.(tx := sender.view);
      }
    }

    method Task(now: u64)
      requires Valid()
      modifies this, control, debounce, debounce.cells, queue, queue.items, sender
      ensures Valid() && state == S.Task(old(state), control.hw.levels, now)
    {
      if control.settleActive && now >= control.settleDeadline {
        FinishSettle(now);
      }
      PollAll(now);
      RaiseIfPeriodic(now);
    }

    // ---- reports ----

    method ConfirmedLevels() returns (levels: set<nat>)
      requires Valid()
      ensures levels == S.ConfirmedLevels(state.pub.monitored, state.deb)
    {
      levels := {};
      for n := 0 to GPIO_COUNT
        invariant levels == set m: nat | m < n && m in monitored && debounce.views[m].confirmed
      {
        var d := debounce.Get(n);
        if n in monitored && d.confirmed {
          levels := levels + {n};
        }
      }
    }

    /** Takes a batch from the front of the queue without removing it: the events as the report shows
        them and the levels up to the last of them. */
    method PeekBatch(count: nat, now: u64) returns (events: seq<WireEvent>, reflected: set<nat>)
      requires Valid() && count <= queue.count
      ensures events == S.ToWireEvents(state.fifo.queue[..count], now)
      ensures reflected == S.Reflect(reportedLevels, state.fifo.queue[..count])
    {
      events, reflected := [], reportedLevels;
      ghost var q := queue.contents;
      for i := 0 to count
        invariant |events| == i && forall j :: 0 <= j < i ==> events[j] == S.ToWireEvent(q[j], now)
        invariant reflected == S.Reflect(reportedLevels, q[..i])
      {
        var event := queue.Peek(i);
        events := events + [S.ToWireEvent(event, now)];
        reflected := S.WithBit(reflected, event.gpio, event.level);
        ReflectSnoc(reportedLevels, q[..i], event);
        assert q[..i + 1] == q[..i] + [event];
      }
    }

    /** The report for the current state and the levels it reflects. */
    method BuildReport(now: u64) returns (report: Report, reflected: set<nat>)
      requires Valid()
      ensures report == S.ReportOf(state, now) && reflected == S.ReflectedLevels(state)
    {
      var queued := queue.count;
      var n := if queued < EVENTS_PER_REPORT then queued else EVENTS_PER_REPORT;
      var events;
      events, reflected := PeekBatch(n, now);
      var drained := queued == n;
      if drained {
        // Also covers the effect of dropped events.
        reflected := ConfirmedLevels();
      }
      reflected := reflected * monitored;
      assert reflected == S.ReflectedLevels(state);
      report := Report(
        sender.nextSeq, sender.pendingReasons + (if n > 0 then {LevelChanged} else {}),
        drained && queue.overflowed, !drained,
        monitored, outputs, reflected + control.outputLevels * outputs, now, events);
    }

    /** Builds the next report and encodes it into out. */
    method Assemble(now: u64, out: array<byte>) returns (report: Report, reflected: set<nat>)
      requires Valid() && out.Length == PAYLOAD_LEN
      modifies out
      ensures Valid() && out[..] == W.DeviceEncode(report)
      ensures report == S.ReportOf(state, now) && reflected == S.ReflectedLevels(state)
    {
      report, reflected := BuildReport(now);
      W.EncodeStatus(W.ToWire(report), out);
    }

    method StageNext(now: u64, out: array<byte>)
      requires Valid() && out.Length == PAYLOAD_LEN && !S.NothingToSend(state)
      modifies sender, out
      ensures sender.Valid() && sender.view == old(sender.view).(staged := S.Stage(state, now))
      ensures out[..] == W.DeviceEncode(S.ReportOf(state, now))
    {
      var report, reflected := Assemble(now, out);
      var count := if queue.count < EVENTS_PER_REPORT then queue.count else EVENTS_PER_REPORT;
      sender.Stage(report, reflected, count);
    }

    /** Stages the next report, if there is one. */
    method StageOrUnstage(now: u64, out: array<byte>) returns (ready: bool)
      requires Valid() && out.Length == PAYLOAD_LEN
      modifies sender, out
      ensures sender.Valid() && sender.view == old(sender.view).(staged := S.Stage(state, now))
      ensures ready <==> !S.NothingToSend(state)
      ensures ready ==> out[..] == W.DeviceEncode(S.ReportOf(state, now))
    {
      ready := !(sender.pendingReasons == {} && queue.count == 0 && !queue.overflowed);
      if ready {
        StageNext(now, out);
      } else {
        sender.Unstage();
      }
    }

    method PrepareReport(now: u64, out: array<byte>) returns (ready: bool)
      requires Valid() && out.Length == PAYLOAD_LEN
      modifies `state, sender, out
      ensures Valid() && state == S.Prepare(old(state), now)
      ensures ready <==> !S.NothingToSend(old(state))
      ensures ready ==> out[..] == W.DeviceEncode(S.ReportOf(old(state), now))
    {
      ready := StageOrUnstage(now, out);
      state := state.(tx := sender.view);
    }

    method CommitReport(now: nat)
      requires Valid()
      modifies this, queue, sender
      ensures Valid() && state == S.Commit(old(state), now)
    {
      if !sender.staged {
        return;
      }
      queue.Drop(sender.stagedEvents);
      if sender.stagedOverflow {
        queue.ClearOverflow();
      }
      reportedLevels := sender.stagedLevels;
      sender.Acknowledge(now);
      state := S.Commit(state, now);
    }

    /** The reply to Get_Report(Input); it takes nothing from the queue. */
    method GetStatus(now: u64, out: array<byte>)
      requires Valid() && out.Length == PAYLOAD_LEN
      modifies out
      ensures out[..] == W.DeviceEncode(S.StatusReply(state, now))
    {
      var levels := ConfirmedLevels();
      var report := Report(
        if sender.hasSent then sender.lastSeq else 0, {HostRequest}, false, queue.count > 0,
        monitored, outputs, levels + control.outputLevels * outputs, now, []);
      assert report == S.StatusReply(state, now);
      W.EncodeStatus(W.ToWire(report), out);
    }

    method GetPinConfig(out: array<byte>)
      requires Valid() && out.Length == PAYLOAD_LEN
      modifies out
      ensures out[..] == C.ConfigBytes(S.ConfigReply(state.cfg))
    {
      C.EncodePinConfig(
        C.PinConfigReport(control.result, control.resultGpio, control.requestId, control.config), out);
    }

    // ---- configuration and outputs ----

    method RetimePin(next: PinConfig, n: nat, now: nat)
      requires debounce.Valid() && |debounce.views| == GPIO_COUNT && n < GPIO_COUNT
      modifies debounce, debounce.cells
      ensures debounce.Valid()
      ensures debounce.views == old(debounce.views)[n :=
        S.Retimed(old(debounce.views)[n], control.config[n], next[n], now)]
    {
      if control.config[n] != next[n] && IsInput(next[n].mode) && control.config[n].mode == next[n].mode {
        debounce.ChangeTime(n, next[n].param, now);
      }
    }

    /** One round of the loop over the pins: whether its setting differs, and what that does. */
    method WritePin(next: PinConfig, n: nat, now: nat) returns (differs: bool)
      requires control.Valid() && debounce.Valid() && |debounce.views| == GPIO_COUNT && n < GPIO_COUNT
      modifies control, control.hw`pins, debounce, debounce.cells
      ensures control.Valid() && debounce.Valid() && control.config == old(control.config)
      ensures control.view == S.ApplyPin(old(control.view), next, n, now)
      ensures debounce.views ==
        old(debounce.views)[n := S.Retimed(old(debounce.views)[n], control.config[n], next[n], now)]
      ensures differs <==> control.config[n] != next[n]
    {
      differs := control.config[n] != next[n];
      RetimePin(next, n, now);
      control.ApplyPin(next, n, now);
    }

    method ApplyAll(next: PinConfig, now: nat) returns (changed: bool)
      requires control.Valid() && debounce.Valid() && |debounce.views| == GPIO_COUNT
      modifies control, control.hw`pins, debounce, debounce.cells
      ensures control.Valid() && debounce.Valid() && control.config == old(control.config)
      ensures control.view == S.ApplyFrom(old(control.view), next, now, 0)
      ensures debounce.views == S.Retime(old(debounce.views), control.config, next, now)
      ensures changed <==> control.config != next
    {
      changed := false;
      for n := 0 to GPIO_COUNT
        invariant control.Valid() && debounce.Valid() && control.config == old(control.config)
        invariant S.ApplyFrom(control.view, next, now, n) == S.ApplyFrom(old(control.view), next, now, 0)
        invariant |debounce.views| == GPIO_COUNT
        invariant forall m :: 0 <= m < GPIO_COUNT ==> debounce.views[m] == RetimedCell(old(debounce.views), m, n, next, now)
        invariant changed <==> !SameBelow(control.config, next, n)
      {
        var differs := WritePin(next, n, now);
        changed := changed || differs;
      }
    }

    /** The configurations agree on the pins below n. */
    static predicate SameBelow(a: PinConfig, b: PinConfig, n: nat)
      requires n <= GPIO_COUNT
    {
      forall m :: 0 <= m < n ==> a[m] == b[m]
    }

    /** Debouncer m after the pins below n were written. */
    ghost function RetimedCell(views: seq<D.Deb>, m: nat, n: nat, next: PinConfig, now: nat): D.Deb
      requires m < |views| == GPIO_COUNT
      reads control
    {
      if m < n then S.Retimed(views[m], control.config[m], next[m], now) else views[m]
    }

    method SetPinConfig(payload: seq<byte>, now: nat)
      requires Valid()
      modifies `state, control, control.hw`pins, debounce, debounce.cells
      ensures Valid() && state == S.SetPinConfig(old(state), payload, now)
    {
      var v, next := C.DecodeSet(payload, control.available, control.config);
      control.RecordVerdict(v);
      state := state.(cfg := control.view);
      if v.result != C.RESULT_OK {
        return;
      }
      C.AcceptedModes(payload, control.available);
      assert next == C.ConfigIn(payload);
      Adopt(next, now);
    }

    method Adopt(next: PinConfig, now: nat)
      requires Valid()
      modifies `state, control, control.hw`pins, debounce, debounce.cells
      ensures Valid() && state == S.Adopt(old(state), next, now)
    {
      var changed := ApplyAll(next, now);
      if changed {
        control.StartSettle(next, now);
      } else {
        ApplySame(old(control.view), next, now, 0);
        RetimeSame(old(debounce.views), next, now);
      }
      state := S.Adopt(state, next, now);
    }

    /** An output command; false when it was ignored. */
    method Output(payload: seq<byte>) returns (applied: bool)
      requires Valid()
      modifies `state, control, control.hw`pins, sender
      ensures Valid() && state == S.Drive(old(state), W.CommandOf(payload))
      ensures applied <==> |payload| == W.OUTPUT_LEN
    {
      var command := W.CommandOf(payload);
      if command.None? {
        return false;
      }
      var (mask, value) := command.value;
      var pins := OutputMask(control.config);
      var target := mask * pins;
      control.DriveOutputs(target, value * target);
      sender.Raise(OutputApplied);
      state := S.Drive(state, command);
      applied := true;
    }

    method UsbReset()
      requires Valid()
      modifies `state, control, control.hw`pins, sender
      ensures Valid() && state == S.UsbReset(old(state))
    {
      var pins := OutputMask(control.config);
      if pins == {} {
        return;
      }
      var levels := InitialOutputLevels(control.config);
      control.DriveOutputs(pins, levels);
      sender.Raise(Reason.OutputReset);
      state := S.UsbReset(state);
    }

    /** send_status_report of the main loop: a report takes effect only once USB accepted it. */
    method SendStatusReport(now: u64, usbAccepts: bool, out: array<byte>)
      requires Valid() && out.Length == PAYLOAD_LEN
      modifies this, queue, sender, out
      ensures Valid() && state == S.Send(old(state), now, usbAccepts)
    {
      var ready := PrepareReport(now, out);
      if !ready {
        return;
      }
      if usbAccepts {
        CommitReport(now);
      }
    }
  }

  lemma {:induction false} ReflectSnoc(levels: set<nat>, q: seq<EdgeEvent>, e: EdgeEvent)
    ensures S.Reflect(levels, q + [e]) == S.WithBit(S.Reflect(levels, q), e.gpio, e.level)
    decreases |q|
  {
    if q == [] {
      assert (q + [e])[1..] == [];
    } else {
      ReflectSnoc(S.WithBit(levels, q[0].gpio, q[0].level), q[1..], e);
      assert (q + [e])[1..] == q[1..] + [e];
    }
  }

  lemma RetimeSame(deb: seq<D.Deb>, config: PinConfig, at: nat)
    requires |deb| == GPIO_COUNT
    ensures S.Retime(deb, config, config, at) == deb
  {
  }

  /** Writing the configuration that is in force changes nothing. */
  lemma {:induction false} ApplySame(cfg: S.Setup, next: PinConfig, at: nat, n: nat)
    requires |cfg.hw| == GPIO_COUNT && n <= GPIO_COUNT && next == cfg.config
    ensures S.ApplyFrom(cfg, next, at, n) == cfg
    decreases GPIO_COUNT - n
  {
    if n < GPIO_COUNT {
      ApplySame(cfg, next, at, n + 1);
    }
  }
}
