/** The firmware engine (firmware/core/src/engine.c) as a state machine on values: one function for
    every entry point, and a log of what happened that no step reads. */
module EngineSpec {
  import opened Protocol
  import opened EventQueue
  import D = Debounce
  import C = PinConfigCodec

  const SETTLE_US := 1000
  const PERIODIC_US := 1_000_000
  const DEFAULT_DEBOUNCE_MS: byte := 20

  /** What the engine last told the hardware about one GPIO. */
  datatype HwPin = Untouched | Disabled | Sensing(mode: PinMode, since: nat) | Driven(level: bool)

  datatype Staged =
    | NotStaged
    | Staged(count: nat, reasons: set<Reason>, overflow: bool, levels: set<nat>, report: Report)

  /** A committed report with the events it took from the queue and the state of the log before it. */
  datatype Record = Record(
    report: Report, edges: seq<EdgeEvent>, drops: nat, dirty: set<nat>, reread: set<nat>)

  /** The first level of a pin, read at a time after the pin was set up. */
  datatype Sample = Sample(gpio: nat, since: nat, at: nat)

  /** The configuration, the hardware and the settle in progress. */
  datatype Setup = Setup(
    available: set<nat>, config: PinConfig, result: byte, resultGpio: byte, requestId: byte,
    outputLevels: set<nat>, settling: set<nat>, settleActive: bool, configChanged: bool, settleDeadline: nat,
    hw: seq<HwPin>)

  /** The event queue. The last four fields log what happened; no step reads them. */
  datatype Fifo = Fifo(
    queue: seq<EdgeEvent>, overflowed: bool,
    accepted: seq<EdgeEvent>,   // confirmed events that entered the queue
    lost: nat,                  // confirmed events that were dropped
    drops: nat,                 // the ones dropped since the last draining report
    dirty: set<nat>)            // pins whose queued events do not lead from the reported to the confirmed level

  /** The published snapshot. */
  datatype Published = Published(monitored: set<nat>, outputs: set<nat>, reported: set<nat>)

  /** The report sender. */
  datatype Sender = Sender(
    reasons: set<Reason>, nextSeq: u16, lastSeq: u16, hasSent: bool, lastSent: nat, staged: Staged)

  datatype Log = Log(
    sent: seq<Record>,          // committed reports
    reread: set<nat>,           // pins read anew since the last committed report
    settledAt: Option<nat>,     // how many reports had been committed when the first settle ended
    samples: seq<Sample>)

  datatype State = State(cfg: Setup, deb: seq<D.Deb>, fifo: Fifo, pub: Published, tx: Sender, log: Log)

  predicate Sized(s: State) {
    |s.deb| == GPIO_COUNT && |s.cfg.hw| == GPIO_COUNT
  }

  // ---- helpers ----

  function WithBit(m: set<nat>, n: nat, on: bool): set<nat> {
    if on then m + {n} else m - {n}
  }

  function InitialHigh(c: PinConfig): set<nat> {
    set n: nat | n < GPIO_COUNT && c[n].mode.Output? && c[n].param != 0
  }

  function ConfirmedLevels(monitored: set<nat>, deb: seq<D.Deb>): set<nat>
    requires |deb| == GPIO_COUNT
  {
    set n: nat | n < GPIO_COUNT && n in monitored && deb[n].confirmed
  }

  predicate Tracking(cfg: Setup, pub: Published, n: nat)
    requires n < GPIO_COUNT
  {
    n in pub.monitored && n !in cfg.settling && IsInput(cfg.config[n].mode)
  }

  function Raise(tx: Sender, r: Reason): Sender {
    tx.(reasons := tx.reasons + {r})
  }

  function Push(f: Fifo, e: EdgeEvent): Fifo {
    if |f.queue| >= QUEUE_SIZE then
      f.(overflowed := true, lost := f.lost + 1, drops := f.drops + 1, dirty := f.dirty + {e.gpio})
    else
      f.(queue := f.queue + [e], accepted := f.accepted + [e])
  }

  function Age(now: u64, start: nat): u32 {
    if start >= now then 0 else if now - start > SATURATED_AGE then SATURATED_AGE else now - start
  }

  predicate HasEvent(q: seq<EdgeEvent>, n: nat) {
    exists i :: 0 <= i < |q| && q[i].gpio == n
  }

  // ---- init ----

  function DefaultConfig(available: set<nat>): PinConfig {
    seq(GPIO_COUNT, n requires 0 <= n < GPIO_COUNT =>
      if n in available then PinSetting(InputPullUp, DEFAULT_DEBOUNCE_MS) else PinSetting(Unused, 0))
  }

  function Init(available: set<nat>, at: nat): State {
    State(
      Setup(available, DefaultConfig(available), C.RESULT_OK, C.GPIO_NONE, 0,
            {}, set n: nat | n < GPIO_COUNT && n in available, true, false, at + SETTLE_US,
            seq(GPIO_COUNT, n => if n in available then Sensing(InputPullUp, at) else Untouched)),
      seq(GPIO_COUNT, _ => D.Deb(false, false, false, 0, 0)),
      Fifo([], false, [], 0, 0, {}),
      Published({}, {}, {}),
      Sender({}, 0, 0, false, at, NotStaged),
      Log([], {}, None, []))
  }

  // ---- edges ----

  /** The outcome of a debouncer step on pin n: a confirmed level goes to the queue. */
  function Confirm(s: State, n: nat, d: D.Deb, start: Option<nat>): State
    requires Sized(s) && n < GPIO_COUNT
  {
    s.(deb := s.deb[n := d],
       fifo := if start.Some? then Push(s.fifo, EdgeEvent(n, d.confirmed, start.value)) else s.fifo)
  }

  function OnEdge(s: State, n: nat, level: bool, at: nat): (s': State)
    requires Sized(s)
    ensures Sized(s')
  {
    if n >= GPIO_COUNT || !Tracking(s.cfg, s.pub, n) then s
    else
      var (d, start) := D.Edge(s.deb[n], level, at);
      Confirm(s, n, d, start)
  }

  function ResyncFrom(s: State, raw: set<nat>, at: nat, n: nat): (s': State)
    requires Sized(s) && n <= GPIO_COUNT
    ensures Sized(s')
    decreases GPIO_COUNT - n
  {
    if n == GPIO_COUNT then s
    else if Tracking(s.cfg, s.pub, n) && (n in raw) != s.deb[n].raw then
      ResyncFrom(OnEdge(s, n, n in raw, at), raw, at, n + 1)
    else ResyncFrom(s, raw, at, n + 1)
  }

  // ---- task ----

  function SettleDeb(cfg: Setup, deb: seq<D.Deb>, raw: set<nat>): (r: seq<D.Deb>)
    requires |deb| == GPIO_COUNT
    ensures |r| == GPIO_COUNT
  {
    seq(GPIO_COUNT, n requires 0 <= n < GPIO_COUNT =>
      if n in cfg.settling then D.ResetTo(n in raw, cfg.config[n].param) else deb[n])
  }

  function SamplesFrom(cfg: Setup, at: nat, n: nat): (r: seq<Sample>)
    requires |cfg.hw| == GPIO_COUNT && n <= GPIO_COUNT
    decreases GPIO_COUNT - n
  {
    if n == GPIO_COUNT then []
    else if n in cfg.settling && cfg.hw[n].Sensing? then
      [Sample(n, cfg.hw[n].since, at)] + SamplesFrom(cfg, at, n + 1)
    else SamplesFrom(cfg, at, n + 1)
  }

  function SettleReported(cfg: Setup, reported: set<nat>, raw: set<nat>): set<nat> {
    set n: nat | n < GPIO_COUNT && n in InputPins(cfg.config) && if n in cfg.settling then n in raw else n in reported
  }

  /** The settled pins get their first level, and the new configuration is published. */
  function FinishSettle(s: State, raw: set<nat>, at: nat): (s': State)
    requires Sized(s)
    ensures Sized(s')
  {
    State(
      s.cfg.(settling := {}, settleActive := false, configChanged := false),
      SettleDeb(s.cfg, s.deb, raw),
      s.fifo.(dirty := s.fifo.dirty + (set n | n in s.cfg.settling && HasEvent(s.fifo.queue, n))),
      Published(InputPins(s.cfg.config), OutputPins(s.cfg.config), SettleReported(s.cfg, s.pub.reported, raw)),
      if s.cfg.configChanged then Raise(s.tx, ConfigChanged) else s.tx,
      s.log.(
        reread := s.log.reread + s.cfg.settling,
        settledAt := if s.log.settledAt.None? then Some(|s.log.sent|) else s.log.settledAt,
        samples := s.log.samples + SamplesFrom(s.cfg, at, 0)))
  }

  function PollPin(s: State, n: nat, at: nat): (s': State)
    requires Sized(s) && n < GPIO_COUNT
    ensures Sized(s')
  {
    if !Tracking(s.cfg, s.pub, n) then s
    else
      var (d, start) := D.Poll(s.deb[n], at);
      Confirm(s, n, d, start)
  }

  function PollFrom(s: State, at: nat, n: nat): (s': State)
    requires Sized(s) && n <= GPIO_COUNT
    ensures Sized(s')
    decreases GPIO_COUNT - n
  {
    if n == GPIO_COUNT then s else PollFrom(PollPin(s, n, at), at, n + 1)
  }

  /** (u64)(now - last) >= the periodic interval */
  predicate PeriodicDue(now: u64, last: nat) {
    (now - last) % 0x1_0000_0000_0000_0000 >= PERIODIC_US
  }

  function SettleIfDue(s: State, raw: set<nat>, at: nat): (s': State)
    requires Sized(s)
    ensures Sized(s')
  {
    if s.cfg.settleActive && at >= s.cfg.settleDeadline then FinishSettle(s, raw, at) else s
  }

  /** raw is what read_inputs returns, should the settle end now. */
  function Task(s: State, raw: set<nat>, at: u64): (s': State)
    requires Sized(s)
    ensures Sized(s')
  {
    var s2 := PollFrom(SettleIfDue(s, raw, at), at, 0);
    s2.(tx := if PeriodicDue(at, s2.tx.lastSent) then Raise(s2.tx, Periodic) else s2.tx)
  }

  // ---- reports ----

  function Reflect(levels: set<nat>, q: seq<EdgeEvent>): set<nat>
    decreases |q|
  {
    if q == [] then levels else Reflect(WithBit(levels, q[0].gpio, q[0].level), q[1..])
  }

  function ToWireEvent(e: EdgeEvent, now: u64): WireEvent {
    WireEvent(e.gpio, e.level, Age(now, e.start))
  }

  function ToWireEvents(q: seq<EdgeEvent>, now: u64): (r: seq<WireEvent>) {
    seq(|q|, i requires 0 <= i < |q| => ToWireEvent(q[i], now))
  }

  function BatchSize(queue: seq<EdgeEvent>): (n: nat)
    ensures n <= |queue|
  {
    if |queue| < EVENTS_PER_REPORT then |queue| else EVENTS_PER_REPORT
  }

  /** The levels of the monitored pins up to the last event of the next batch. */
  function ReflectedLevels(s: State): set<nat>
    requires Sized(s)
  {
    var q := s.fifo.queue;
    if |q| == BatchSize(q) then ConfirmedLevels(s.pub.monitored, s.deb)
    else Reflect(s.pub.reported, q[..BatchSize(q)]) * s.pub.monitored
  }

  function ReportOf(s: State, at: u64): Report
    requires Sized(s)
  {
    var q := s.fifo.queue;
    var n := BatchSize(q);
    Report(
      s.tx.nextSeq, s.tx.reasons + (if n > 0 then {LevelChanged} else {}), |q| == n && s.fifo.overflowed, |q| != n,
      s.pub.monitored, s.pub.outputs, ReflectedLevels(s) + s.cfg.outputLevels * s.pub.outputs,
      at, ToWireEvents(q[..n], at))
  }

  predicate NothingToSend(s: State) {
    s.tx.reasons == {} && s.fifo.queue == [] && !s.fifo.overflowed
  }

  function Stage(s: State, at: u64): Staged
    requires Sized(s)
  {
    if NothingToSend(s) then NotStaged
    else
      var r := ReportOf(s, at);
      Staged(BatchSize(s.fifo.queue), r.reasons, r.overflow, ReflectedLevels(s), r)
  }

  /** prepare_report: replaces whatever was staged and not committed. */
  function Prepare(s: State, at: u64): (s': State)
    requires Sized(s)
    ensures Sized(s')
  {
    s.(tx := s.tx.(staged := Stage(s, at)))
  }

  function Dequeue(f: Fifo, k: nat, overflow: bool, more: bool): Fifo
    requires k <= |f.queue|
  {
    f.(queue := f.queue[k..], overflowed := f.overflowed && !overflow,
       drops := if more then f.drops else 0, dirty := if more then f.dirty else {})
  }

  function Acknowledge(tx: Sender, reasons: set<Reason>, at: nat): Sender {
    Sender(tx.reasons - reasons, (tx.nextSeq + 1) % 0x1_0000, tx.nextSeq, true, at, NotStaged)
  }

  function RecordOf(s: State, k: nat, report: Report): Record
    requires k <= |s.fifo.queue|
  {
    Record(report, s.fifo.queue[..k], s.fifo.drops, s.fifo.dirty, s.log.reread)
  }

  function Commit(s: State, at: nat): (s': State)
    requires Sized(s)
    ensures Sized(s')
  {
    match s.tx.staged
    case NotStaged => s
    case Staged(count, reasons, overflow, levels, report) =>
      var k := if count > |s.fifo.queue| then |s.fifo.queue| else count;
      State(s.cfg, s.deb,
            Dequeue(s.fifo, k, overflow, report.more),
            s.pub.(reported := levels),
            Acknowledge(s.tx, reasons, at),
            s.log.(sent := s.log.sent + [RecordOf(s, k, report)], reread := {}))
  }

  /** send_status_report of the main loop: a commit follows its prepare at once or not at all. */
  function Send(s: State, at: u64, handedOver: bool): (s': State)
    requires Sized(s)
    ensures Sized(s')
  {
    var s1 := Prepare(s, at);
    if handedOver then Commit(s1, at) else s1
  }

  /** The reply to Get_Report(Input). */
  function StatusReply(s: State, at: u64): Report
    requires Sized(s)
  {
    Report(
      if s.tx.hasSent then s.tx.lastSeq else 0, {HostRequest}, false, s.fifo.queue != [],
      s.pub.monitored, s.pub.outputs,
      ConfirmedLevels(s.pub.monitored, s.deb) + s.cfg.outputLevels * s.pub.outputs, at, [])
  }

  function ConfigReply(cfg: Setup): C.PinConfigReport {
    C.PinConfigReport(cfg.result, cfg.resultGpio, cfg.requestId, cfg.config)
  }

  // ---- configuration and outputs ----

  function ApplyPin(cfg: Setup, next: PinConfig, n: nat, at: nat): (cfg': Setup)
    requires |cfg.hw| == GPIO_COUNT && n < GPIO_COUNT
    ensures |cfg'.hw| == GPIO_COUNT && cfg'.config == cfg.config
  {
    var was, now := cfg.config[n], next[n];
    if was == now then cfg
    else if IsInput(now.mode) then
      (if was.mode == now.mode then cfg
       else cfg.(hw := cfg.hw[n := Sensing(now.mode, at)], settling := cfg.settling + {n}))
      .(outputLevels := cfg.outputLevels - {n})
    else if now.mode.Output? then
      cfg.(settling := cfg.settling - {n}, hw := cfg.hw[n := Driven(now.param != 0)],
           outputLevels := WithBit(cfg.outputLevels, n, now.param != 0))
    else
      cfg.(settling := cfg.settling - {n}, hw := cfg.hw[n := Disabled], outputLevels := cfg.outputLevels - {n})
  }

  function ApplyFrom(cfg: Setup, next: PinConfig, at: nat, n: nat): (cfg': Setup)
    requires |cfg.hw| == GPIO_COUNT && n <= GPIO_COUNT
    ensures |cfg'.hw| == GPIO_COUNT && cfg'.config == cfg.config
    decreases GPIO_COUNT - n
  {
    if n == GPIO_COUNT then cfg else ApplyFrom(ApplyPin(cfg, next, n, at), next, at, n + 1)
  }

  /** Only the debounce time of an input changes: the debouncer keeps its level. */
  predicate OnlyTimeChanges(was: PinSetting, now: PinSetting) {
    was != now && IsInput(now.mode) && was.mode == now.mode
  }

  function Retimed(d: D.Deb, was: PinSetting, now: PinSetting, at: nat): D.Deb {
    if OnlyTimeChanges(was, now) then D.SetTime(d, now.param, at) else d
  }

  function Retime(deb: seq<D.Deb>, was: PinConfig, next: PinConfig, at: nat): (r: seq<D.Deb>)
    requires |deb| == GPIO_COUNT
    ensures |r| == GPIO_COUNT
  {
    seq(GPIO_COUNT, n requires 0 <= n < GPIO_COUNT =>
      Retimed(deb[n], was[n], next[n], at))
  }

  function Adopt(s: State, next: PinConfig, at: nat): (s': State)
    requires Sized(s)
    ensures Sized(s')
  {
    if next == s.cfg.config then s
    else
      var cfg := ApplyFrom(s.cfg, next, at, 0);
      s.(cfg := cfg.(config := next, configChanged := true, settleActive := true, settleDeadline := at + SETTLE_US),
         deb := Retime(s.deb, s.cfg.config, next, at))
  }

  function SetPinConfig(s: State, p: seq<byte>, at: nat): (s': State)
    requires Sized(s)
    ensures Sized(s')
  {
    var v := C.VerdictOf(p, s.cfg.available);
    var s1 := s.(cfg := s.cfg.(result := v.result, resultGpio := v.gpio, requestId := v.requestId));
    if v.result != C.RESULT_OK then s1
    else
      C.AcceptedModes(p, s.cfg.available);
      Adopt(s1, C.ConfigIn(p), at)
  }

  function WritePins(hw: seq<HwPin>, mask: set<nat>, value: set<nat>): (r: seq<HwPin>)
    ensures |r| == |hw|
  {
    seq(|hw|, n requires 0 <= n < |hw| => if n in mask then Driven(n in value) else hw[n])
  }

  /** An output command; its masks are given as pins, None stands for a wrong length. */
  function Drive(s: State, command: Option<(set<nat>, set<nat>)>): (s': State)
    requires Sized(s)
    ensures Sized(s')
  {
    match command
    case None => s
    case Some((mask, value)) =>
      var target := mask * OutputPins(s.cfg.config);
      s.(cfg := s.cfg.(outputLevels := (s.cfg.outputLevels - target) + (value * target),
                       hw := WritePins(s.cfg.hw, target, value * target)),
         tx := Raise(s.tx, OutputApplied))
  }

  function UsbReset(s: State): (s': State)
    requires Sized(s)
    ensures Sized(s')
  {
    var outputs := OutputPins(s.cfg.config);
    if outputs == {} then s
    else
      s.(cfg := s.cfg.(outputLevels := (s.cfg.outputLevels - outputs) + InitialHigh(s.cfg.config),
                       hw := WritePins(s.cfg.hw, outputs, InitialHigh(s.cfg.config))),
         tx := Raise(s.tx, Reason.OutputReset))
  }

  // ---- runs ----

  datatype Action =
    | Edge(gpio: nat, level: bool, at: u64)
    | Resync(raw: set<nat>, at: u64)
    | Tick(raw: set<nat>, at: u64)
    | Configure(payload: seq<byte>, at: u64)
    | Command(command: Option<(set<nat>, set<nat>)>)
    | Reset
    | SendReport(at: u64, handedOver: bool)

  function Step(s: State, a: Action): (s': State)
    requires Sized(s)
    ensures Sized(s')
  {
    match a
    case Edge(gpio, level, at) => OnEdge(s, gpio, level, at)
    case Resync(raw, at) => ResyncFrom(s, raw, at, 0)
    case Tick(raw, at) => Task(s, raw, at)
    case Configure(payload, at) => SetPinConfig(s, payload, at)
    case Command(command) => Drive(s, command)
    case Reset => UsbReset(s)
    case SendReport(at, handedOver) => Send(s, at, handedOver)
  }

  function Run(s: State, acts: seq<Action>): (s': State)
    requires Sized(s)
    ensures Sized(s')
  {
    if acts == [] then s else Step(Run(s, acts[..|acts| - 1]), acts[|acts| - 1])
  }
}
