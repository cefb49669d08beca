/** The host watcher (rust/src/watch.rs, hidpin/watch_loop.go) as a state machine on values. What the
    device, the operating system and the clock answer during a step is a parameter of the step. */
module WatchSpec {
  import opened Protocol
  import K = DeviceClock
  import C = PinConfigCodec
  import W = StatusCodec

  const RESTORE_INTERVAL := 1_000_000_000
  const SETTLE_TIMEOUT := 1_000_000_000
  const REPORT_LEN := 64
  const REPORT_ID_STATUS: byte := 1

  /** What the text of a failure tells apart. A conflict's text names both request ids. */
  datatype Fault = NoFault | Fault(text: string) | ConflictFault(expected: byte, seen: byte)

  datatype Cause = Suspend | Reconnect | Written

  datatype Event =
    | Connected(config: PinConfig, reconnected: bool)
    | Disconnected
    | ConnectFailed(error: Fault)
    | StatusReceived(report: Report, missed: nat, on: map<nat, bool>)
    | InitialOnOff(learned: map<nat, bool>)
    | OnOffChange(gpio: nat, isOn: bool, level: bool, time: Option<int>, deviceUs: Option<nat>, inferred: bool)
    | OutputsReset(gpios: set<nat>, cause: Cause)
    | PinConfigChanged(changed: PinConfig)
    | PinConfigRestored(found: PinConfig, count: nat)

  datatype Conn = Conn(clock: K.Clock, lastSeq: Option<u16>, snapshotSeq: Option<u16>, awaiting: bool)

  datatype Watch = Watch(
    activeLow: map<nat, bool>, interval: nat, serial: Option<string>,
    target: Option<PinConfig>, available: Option<set<nat>>,
    config: PinConfig, known: map<nat, bool>, everConnected: bool, conn: Option<Conn>,
    failure: Fault, failures: nat, restoreCount: nat, lastRestore: Option<int>,
    scanAt: Option<int>, restoreAt: Option<int>, settleAt: Option<int>,
    stopped: bool, emitted: seq<Event>)

  // ---- what the outside world answers ----

  datatype Reply<+T> = Got(value: T) | Failed(error: Fault)

  datatype SetReply = Applied | Rejected | Conflict(expected: byte, seen: byte) | SetFailed(error: Fault)

  /** One write-back: the clock when it starts, the configuration read, the outcome of the write and the
      clock after it. */
  datatype RestoreIO = RestoreIO(at: int, found: Reply<PinConfig>, outcome: SetReply, later: int)

  /** What a CONFIG_CHANGED report makes the watcher ask for: the configuration, the time since the last
      write-back, and the write-back that may follow. */
  datatype ChangeIO = ChangeIO(found: Reply<PinConfig>, now: int, armAt: int, restore: RestoreIO)

  datatype SnapshotIO = SnapshotIO(status: Reply<Report>, at: int, change: ChangeIO)

  datatype ScanReply = Unsupported | ScanFailed(error: Fault) | Entries(serials: seq<string>)

  datatype ConnectIO = ConnectIO(
    scan: ScanReply, open: Reply<()>, info: Reply<set<nat>>, found: Reply<PinConfig>, outcome: SetReply,
    at: int, snapshot: SnapshotIO)

  datatype TargetIO = TargetIO(found: Reply<PinConfig>, outcome: SetReply, later: int)

  // ---- helpers ----

  function Emit(w: Watch, e: Event): Watch {
    w.(emitted := w.emitted + [e])
  }

  /** The pins whose LOW level means ON: overridden ones as told, others when they have the pull-up. */
  function LowPinsOf(activeLow: map<nat, bool>, config: PinConfig): set<nat> {
    set n: nat | n < GPIO_COUNT && if n in activeLow then activeLow[n] else config[n].mode.InputPullUp?
  }

  function LowPins(w: Watch): set<nat> {
    LowPinsOf(w.activeLow, w.config)
  }

  predicate IsOn(level: bool, low: set<nat>, n: nat) {
    level != (n in low)
  }

  function OnOff(r: Report, low: set<nat>): map<nat, bool> {
    map n | n in r.monitored :: IsOn(n in r.levels, low, n)
  }

  function DrivenOutputs(prev: PinConfig, next: PinConfig): set<nat> {
    set n: nat | n < GPIO_COUNT && next[n].mode.Output? && prev[n] != next[n]
  }

  /** The wrapping test that a report was sent at or before the snapshot. */
  predicate IsStale(seqNo: u16, snapshot: u16) {
    var distance := (seqNo - snapshot) % 0x1_0000;
    distance == 0 || distance >= 0x8000
  }

  function Missed(lastSeq: Option<u16>, seqNo: u16): nat {
    if lastSeq.None? then 0 else (seqNo - lastSeq.value - 1) % 0x1_0000
  }

  predicate Suits(config: PinConfig, available: set<nat>) {
    C.VerdictOf(C.ConfigBytes(C.PinConfigReport(0, 0, 0, config)), available).result == C.RESULT_OK
  }

  // ---- absorbing a report ----

  /** The known ON/OFF of pins and the events announced so far while one report is absorbed. */
  datatype Absorbed = Absorbed(known: map<nat, bool>, out: seq<Event>)

  function Change(n: nat, level: bool, low: set<nat>, time: Option<int>, deviceUs: Option<nat>, inferred: bool): Event {
    OnOffChange(n, IsOn(level, low, n), level, time, deviceUs, inferred)
  }

  function HostTime(clock: K.Clock, start: Option<nat>): Option<int> {
    if start.None? || clock.cur.None? then None else Some(K.At(clock, start.value))
  }

  function AbsorbEvent(a: Absorbed, e: WireEvent, timestamp: u64, low: set<nat>, clock: K.Clock): Absorbed {
    if e.gpio !in a.known then a
    else
      var on, start := IsOn(e.level, low, e.gpio), StartUs(e, timestamp);
      // The pin is where the event leads already: a change away from it never arrived.
      var lost := if on == a.known[e.gpio] then [Change(e.gpio, !e.level, low, None, None, true)] else [];
      Absorbed(a.known[e.gpio := on],
               a.out + lost + [Change(e.gpio, e.level, low, HostTime(clock, start), start, false)])
  }

  function AbsorbEvents(a: Absorbed, events: seq<WireEvent>, timestamp: u64, low: set<nat>, clock: K.Clock): Absorbed
    decreases |events|
  {
    if events == [] then a
    else AbsorbEvents(AbsorbEvent(a, events[0], timestamp, low, clock), events[1..], timestamp, low, clock)
  }

  /** Compares the level of pin n with what is known. */
  function AbsorbLevel(a: Absorbed, r: Report, n: nat, low: set<nat>): Absorbed {
    var level := n in r.levels;
    if n !in r.monitored then a
    else
      Absorbed(a.known[n := IsOn(level, low, n)],
               if n in a.known && a.known[n] != IsOn(level, low, n)
               then a.out + [Change(n, level, low, None, None, true)] else a.out)
  }

  function AbsorbLevels(a: Absorbed, r: Report, n: nat, low: set<nat>): Absorbed
    requires n <= GPIO_COUNT
    decreases GPIO_COUNT - n
  {
    if n == GPIO_COUNT then a else AbsorbLevels(AbsorbLevel(a, r, n, low), r, n + 1, low)
  }

  /** The ON/OFF of the monitored pins that were not known. */
  function Learn(known: map<nat, bool>, r: Report, low: set<nat>): map<nat, bool> {
    map n | n in r.monitored && n !in known :: IsOn(n in r.levels, low, n)
  }

  function AbsorbReport(known: map<nat, bool>, r: Report, low: set<nat>, clock: K.Clock): Absorbed {
    var a1 := AbsorbEvents(Absorbed(known, []), r.events, r.timestamp, low, clock);
    var learned := Learn(a1.known, r, low);
    var a2 := AbsorbLevels(a1, r, 0, low);
    Absorbed(map n | n in a2.known && n in r.monitored :: a2.known[n],
             if learned == map[] then a2.out else a2.out + [InitialOnOff(learned)])
  }

  function Absorb(w: Watch, r: Report): Watch
    requires w.conn.Some?
  {
    var a := AbsorbReport(w.known, r, LowPins(w), w.conn.value.clock);
    w.(known := a.known, emitted := w.emitted + a.out)
  }

  // ---- connection ----

  function DropConnection(w: Watch): Watch {
    if w.conn.None? then w else w.(conn := None, restoreAt := None, settleAt := None)
  }

  function Lost(w: Watch, at: int): Watch {
    if w.conn.None? then w else Emit(DropConnection(w), Disconnected).(scanAt := Some(at + w.interval))
  }

  function NoteFailure(w: Watch, error: Fault): Watch {
    var failures := if error == w.failure then w.failures + 1 else 1;
    var w1 := w.(failure := error, failures := failures);
    if failures == 2 then Emit(w1, ConnectFailed(error)) else w1
  }

  /** What is known survives only for inputs that keep their pull. */
  function SetConfig(w: Watch, config: PinConfig): Watch {
    w.(known := map n | n in w.known && n < GPIO_COUNT && IsInput(config[n].mode) && config[n].mode == w.config[n].mode
                  :: w.known[n],
       config := config)
  }

  function Wrote(w: Watch, found: PinConfig, config: PinConfig, at: int): Watch {
    var w1 := SetConfig(w, config);
    var w2 := w1.(conn := if w1.conn.Some? then Some(w1.conn.value.(awaiting := true)) else None,
                  settleAt := Some(at + SETTLE_TIMEOUT));
    var driven := DrivenOutputs(found, config);
    if driven == {} then w2 else Emit(w2, OutputsReset(driven, Written))
  }

  // ---- the target configuration ----

  function CountRestore(w: Watch, found: PinConfig): Watch {
    Emit(w.(restoreCount := w.restoreCount + 1), PinConfigRestored(found, w.restoreCount + 1))
  }

  /** The write of the target over found has been tried. */
  function Restored(w: Watch, found: PinConfig, target: PinConfig, io: RestoreIO): Watch {
    match io.outcome
    case Applied => Wrote(CountRestore(w, found), found, target, io.later)
    case Rejected => w.(stopped := true)
    case Conflict(expected, seen) => w.(restoreAt := Some(io.later + RESTORE_INTERVAL))
    case SetFailed(_) => Lost(w, io.later)
  }

  function RestoreTarget(w: Watch, io: RestoreIO): Watch {
    if w.target.None? || w.conn.None? then w
    else
      var w1 := w.(restoreAt := None, lastRestore := Some(io.at));
      if io.found.Failed? then Lost(w1, io.later)
      else
        var w2 := SetConfig(w1, io.found.value);
        if io.found.value == w.target.value then w2 else Restored(w2, io.found.value, w.target.value, io)
  }

  function ConfigChange(w: Watch, io: ChangeIO): Watch {
    if io.found.Failed? then Lost(w, io.armAt)
    else
      var config := io.found.value;
      var w1 := SetConfig(w, config);
      if w.target.None? then
        if config != w.config then Emit(w1, PinConfigChanged(config)) else w1
      else if config == w.target.value then w1
      else if w.lastRestore.Some? && io.now - w.lastRestore.value < RESTORE_INTERVAL then
        w1.(restoreAt := Some(io.armAt + (RESTORE_INTERVAL - (io.now - w.lastRestore.value))))
      else RestoreTarget(w1, io.restore)
  }

  function TargetWritten(w: Watch, previous: Option<PinConfig>, found: PinConfig, config: PinConfig, io: TargetIO): Watch {
    match io.outcome
    case Applied => Wrote(w, found, config, io.later)
    case Rejected => w.(target := previous)
    case Conflict(expected, seen) => w.(restoreAt := Some(io.later + RESTORE_INTERVAL))
    case SetFailed(_) => w
  }

  function SetTarget(w: Watch, config: PinConfig, io: TargetIO): Watch {
    if w.available.Some? && !Suits(config, w.available.value) then w
    else
      var w1 := w.(target := Some(config));
      if w.conn.None? then w1
      else
        var w2 := w1.(restoreAt := None);
        if io.found.Failed? then w2
        else
          var w3 := SetConfig(w2, io.found.value);
          if io.found.value == config then w3 else TargetWritten(w3, w.target, io.found.value, config, io)
  }

  // ---- reports ----

  /** A report before its contents are looked at: the clock, the snapshot it is compared with, and the
      end of the wait for a configuration. */
  function Arrive(w: Watch, r: Report, at: int, missed: nat): Watch
    requires w.conn.Some?
  {
    var c := w.conn.value;
    var stale := StaleFor(c, r);
    var settled := ConfigChanged in r.reasons && !stale;
    var c1 := c.(
      clock := K.Add(c.clock, K.Sample(at, r.timestamp)),
      snapshotSeq := if HostRequest !in r.reasons && !stale then None else c.snapshotSeq,
      awaiting := c.awaiting && !settled);
    var w1 := w.(conn := Some(c1), settleAt := if settled then None else w.settleAt);
    var w2 := Emit(w1, StatusReceived(r, missed, OnOff(r, LowPins(w))));
    if Reason.OutputReset in r.reasons && r.outputs != {} then Emit(w2, OutputsReset(r.outputs, Suspend)) else w2
  }

  predicate StaleFor(c: Conn, r: Report) {
    HostRequest !in r.reasons && c.snapshotSeq.Some? && IsStale(r.seqNo, c.snapshotSeq.value)
  }

  /** Follows a change of configuration, then absorbs the report unless it is stale, shows an old
      configuration or is a snapshot ahead of queued events. */
  function Follow(w: Watch, r: Report, stale: bool, io: ChangeIO): Watch
    requires w.conn.Some?
  {
    var w1 := if ConfigChanged in r.reasons then ConfigChange(w, io) else w;
    if w1.stopped || w1.conn.None? || stale || w1.conn.value.awaiting || (HostRequest in r.reasons && r.more) then w1
    else Absorb(w1, r)
  }

  function TakeStatus(w: Watch, r: Report, at: int, missed: nat, io: ChangeIO): Watch
    requires w.conn.Some?
  {
    Follow(Arrive(w, r, at, missed), r, StaleFor(w.conn.value, r), io)
  }

  function Received(w: Watch, data: seq<byte>, at: int, io: ChangeIO): Watch {
    if w.conn.None? || |data| < REPORT_LEN || data[0] != REPORT_ID_STATUS then w
    else
      match W.HostDecode(data[1..REPORT_LEN])
      case None => w
      case Some(r) =>
        var c := w.conn.value;
        TakeStatus(w.(conn := Some(c.(lastSeq := Some(r.seqNo)))), r, at, Missed(c.lastSeq, r.seqNo), io)
  }

  /** The number that later reports are compared with after this reply. While events are queued the reply
      shows their outcome, which the reports will tell again. */
  function ReferenceOf(r: Report): Option<u16> {
    if r.seqNo != 0 && !r.more then Some(r.seqNo) else None
  }

  /** A fatal error met while following a snapshot is dropped. */
  function Snapshot(w: Watch, io: SnapshotIO): Watch
    requires w.conn.Some?
  {
    match io.status
    case Failed(_) => Lost(w, io.at)
    case Got(r) =>
      TakeStatus(w.(conn := Some(w.conn.value.(snapshotSeq := ReferenceOf(r)))), r, io.at, 0, io.change)
      .(stopped := w.stopped)
  }

  // ---- looking for the device ----

  function Attach(w: Watch, found: PinConfig, awaiting: bool, driven: set<nat>): Watch {
    var w1 := SetConfig(w.(conn := Some(Conn(K.EMPTY, None, None, awaiting)), failure := NoFault, failures := 0,
                           everConnected := true), found);
    var w2 := Emit(w1, Connected(found, w.everConnected));
    var outputs := OutputPins(found);
    // A device that was away has reset its outputs.
    if w.everConnected && outputs != {} then Emit(w2, OutputsReset(outputs, Reconnect))
    else if driven != {} then Emit(w2, OutputsReset(driven, Written))
    else w2
  }

  function Retry(w: Watch, error: Fault, at: int): Watch {
    NoteFailure(w, error).(scanAt := Some(at + w.interval))
  }

  /** The device was opened and its configuration read: the target is written if it has another one. */
  function Settle(w: Watch, found: PinConfig, io: ConnectIO): Watch {
    if w.target.None? || found == w.target.value then Snapshot(Attach(w, found, false, {}), io.snapshot)
    else
      match io.outcome
      case Applied =>
        Attach(w, w.target.value, true, DrivenOutputs(found, w.target.value)).(settleAt := Some(io.at + SETTLE_TIMEOUT))
      case Rejected => w.(stopped := true)
      case Conflict(expected, seen) => Retry(w, ConflictFault(expected, seen), io.at)
      case SetFailed(error) => Retry(w, error, io.at)
  }

  function Connect(w: Watch, io: ConnectIO): Watch {
    if io.open.Failed? then Retry(w, io.open.error, io.at)
    else if io.info.Failed? then Retry(w, io.info.error, io.at)
    else
      var w1 := w.(available := Some(io.info.value));
      if io.found.Failed? then Retry(w1, io.found.error, io.at) else Settle(w1, io.found.value, io)
  }

  function TryConnect(w: Watch, io: ConnectIO): Watch {
    match io.scan
    case Unsupported => w.(stopped := true)
    case ScanFailed(error) => Retry(w, error, io.at)
    case Entries(serials) =>
      var matching := Matching(w.serial, serials);
      if matching == [] then w.(failure := NoFault, failures := 0, scanAt := Some(io.at + w.interval))
      else if w.serial.None? && |matching| > 1 then w.(stopped := true)
      else Connect(w.(serial := Some(matching[0])), io)
  }

  function Matching(wanted: Option<string>, serials: seq<string>): seq<string> {
    if serials == [] then []
    else (if wanted.None? || serials[0] == wanted.value then [serials[0]] else []) + Matching(wanted, serials[1..])
  }

  // ---- the loop ----

  function Init(activeLow: map<nat, bool>, interval: nat, serial: Option<string>, target: Option<PinConfig>, now: int): Watch {
    Watch(activeLow, interval, serial, target, None, seq(GPIO_COUNT, _ => PinSetting(Unused, 0)), map[], false, None,
          NoFault, 0, 0, None, Some(now), None, None, false, [])
  }

  predicate Due(at: Option<int>, now: int) {
    at.Some? && now >= at.value
  }

  /** One round of the main loop. A timer input whose deadline has not passed does nothing. */
  datatype Input =
    | ScanTimer(now: int, connect: ConnectIO)
    | RestoreTimer(now: int, restore: RestoreIO)
    | SettleTimer(now: int, snapshot: SnapshotIO)
    | Incoming(data: seq<byte>, at: int, change: ChangeIO)
    | ReadFailed(at: int)
    | NewTarget(config: PinConfig, write: TargetIO)

  function SettleFired(w: Watch, io: SnapshotIO): Watch {
    var w1 := w.(settleAt := None);
    if w1.conn.None? then w1
    else Snapshot(w1.(conn := Some(w1.conn.value.(awaiting := false))), io)
  }

  function Step(w: Watch, i: Input): Watch {
    if w.stopped then w
    else
      match i
      case ScanTimer(now, io) => if Due(w.scanAt, now) then TryConnect(w.(scanAt := None), io) else w
      case RestoreTimer(now, io) => if Due(w.restoreAt, now) then RestoreTarget(w.(restoreAt := None), io) else w
      case SettleTimer(now, io) => if Due(w.settleAt, now) then SettleFired(w, io) else w
      case Incoming(data, at, io) => Received(w, data, at, io)
      case ReadFailed(at) => Lost(w, at)
      case NewTarget(config, io) => SetTarget(w, config, io)
  }

  function Run(w: Watch, inputs: seq<Input>): Watch {
    if inputs == [] then w else Step(Run(w, inputs[..|inputs| - 1]), inputs[|inputs| - 1])
  }
}
