/** Promises of the watcher about its target configuration and about sequence numbers. */
module WatchTheorems {
  import opened Protocol
  import opened WatchSpec
  import opened WatchInvariants
  import K = DeviceClock
  import W = StatusCodec

  // ---- write-backs keep their distance ----

  ghost predicate ChangeInOrder(io: ChangeIO, from: int) {
    from <= io.now <= io.armAt && io.now <= io.restore.at <= io.restore.later
  }

  /** The clock readings of a round come after from, in the order in which they are taken. */
  ghost predicate InOrder(i: Input, from: int) {
    match i
    case ScanTimer(now, io) => from <= now <= io.at <= io.snapshot.at && ChangeInOrder(io.snapshot.change, io.snapshot.at)
    case RestoreTimer(now, io) => from <= now <= io.at <= io.later
    case SettleTimer(now, io) => from <= now <= io.at && ChangeInOrder(io.change, io.at)
    case Incoming(_, at, io) => from <= at && ChangeInOrder(io, at)
    case ReadFailed(at) => from <= at
    case NewTarget(_, io) => from <= io.later
  }

  function Later(a: int, b: int): (c: int)
    ensures a <= c && b <= c && (c == a || c == b)
  {
    if a < b then b else a
  }

  function ChangeEnd(io: ChangeIO): int {
    Later(io.armAt, io.restore.later)
  }

  function End(i: Input): int {
    match i
    case ScanTimer(_, io) => ChangeEnd(io.snapshot.change)
    case RestoreTimer(_, io) => io.later
    case SettleTimer(_, io) => ChangeEnd(io.change)
    case Incoming(_, _, io) => ChangeEnd(io)
    case ReadFailed(at) => at
    case NewTarget(_, io) => io.later
  }

  /** An armed restore is at least one interval after the last write-back. */
  ghost predicate Spaced(lastRestore: Option<int>, restoreAt: Option<int>, clock: int) {
    lastRestore.Some? ==>
      lastRestore.value <= clock && (restoreAt.Some? ==> lastRestore.value + RESTORE_INTERVAL <= restoreAt.value)
  }

  ghost predicate SpacedAt(w: Watch, clock: int) {
    Spaced(w.lastRestore, w.restoreAt, clock)
  }

  /** The last write-back is still the same one, or a new one at least an interval later. */
  ghost predicate KeptDistance(before: Option<int>, now: Option<int>) {
    now == before || (now.Some? && (before.Some? ==> before.value + RESTORE_INTERVAL <= now.value))
  }

  lemma RestoreSpaced(w: Watch, io: RestoreIO, clock: int)
    requires SpacedAt(w, clock) && clock <= io.at <= io.later
    requires w.lastRestore.Some? ==> w.lastRestore.value + RESTORE_INTERVAL <= io.at
    ensures var w' := RestoreTarget(w, io);
      SpacedAt(w', io.later) && KeptDistance(w.lastRestore, w'.lastRestore)
  {
    if w.target.Some? && w.conn.Some? {
      var w1 := w.(restoreAt := None, lastRestore := Some(io.at));
      if io.found.Failed? {
        LostFrame(w1, io.later);
      } else {
        RestoredFrame(SetConfig(w1, io.found.value), io.found.value, w.target.value, io);
      }
    }
  }

  lemma ChangeSpaced(w: Watch, io: ChangeIO, clock: int)
    requires SpacedAt(w, clock) && ChangeInOrder(io, clock)
    ensures var w' := ConfigChange(w, io);
      SpacedAt(w', ChangeEnd(io)) && KeptDistance(w.lastRestore, w'.lastRestore)
  {
    if io.found.Got? {
      var w1 := SetConfig(w, io.found.value);
      if w.lastRestore.None? || io.now - w.lastRestore.value >= RESTORE_INTERVAL {
        RestoreSpaced(w1, io.restore, io.now);
      }
    }
  }

  lemma StatusSpaced(w: Watch, r: Report, at: int, missed: nat, io: ChangeIO, clock: int)
    requires w.conn.Some? && SpacedAt(w, clock) && ChangeInOrder(io, clock)
    ensures var w' := TakeStatus(w, r, at, missed, io);
      SpacedAt(w', ChangeEnd(io)) && KeptDistance(w.lastRestore, w'.lastRestore)
  {
    ChangeSpaced(Arrive(w, r, at, missed), io, clock);
  }

  lemma SnapshotSpaced(w: Watch, io: SnapshotIO, clock: int)
    requires w.conn.Some? && SpacedAt(w, clock) && clock <= io.at && ChangeInOrder(io.change, io.at)
    ensures var w' := Snapshot(w, io);
      SpacedAt(w', ChangeEnd(io.change)) && KeptDistance(w.lastRestore, w'.lastRestore)
  {
    if io.status.Got? {
      var r := io.status.value;
      StatusSpaced(w.(conn := Some(w.conn.value.(snapshotSeq := ReferenceOf(r)))), r, io.at, 0, io.change, io.at);
    }
  }

  lemma AttachFrame(w: Watch, found: PinConfig, awaiting: bool, driven: set<nat>)
    ensures var w' := Attach(w, found, awaiting, driven);
      && w'.lastRestore == w.lastRestore && w'.restoreAt == w.restoreAt && w'.target == w.target
      && w'.stopped == w.stopped && w'.config == found && w'.conn.Some?
  {
  }

  lemma RetryFrame(w: Watch, error: Fault, at: int)
    ensures var w' := Retry(w, error, at);
      w'.lastRestore == w.lastRestore && w'.restoreAt == w.restoreAt && w'.conn == w.conn
  {
  }

  lemma SettleSpaced(w: Watch, found: PinConfig, io: ConnectIO, clock: int)
    requires SpacedAt(w, clock) && clock <= io.at <= io.snapshot.at && ChangeInOrder(io.snapshot.change, io.snapshot.at)
    ensures var w' := Settle(w, found, io);
      SpacedAt(w', ChangeEnd(io.snapshot.change)) && KeptDistance(w.lastRestore, w'.lastRestore)
  {
    if w.target.None? || found == w.target.value {
      AttachFrame(w, found, false, {});
      SnapshotSpaced(Attach(w, found, false, {}), io.snapshot, clock);
    } else {
      match io.outcome
      case Applied => AttachFrame(w, w.target.value, true, DrivenOutputs(found, w.target.value));
      case Rejected =>
      case Conflict(expected, seen) => RetryFrame(w, ConflictFault(expected, seen), io.at);
      case SetFailed(error) => RetryFrame(w, error, io.at);
    }
  }

  lemma ConnectSpaced(w: Watch, io: ConnectIO, clock: int)
    requires SpacedAt(w, clock) && clock <= io.at <= io.snapshot.at && ChangeInOrder(io.snapshot.change, io.snapshot.at)
    ensures var w' := Connect(w, io);
      SpacedAt(w', ChangeEnd(io.snapshot.change)) && KeptDistance(w.lastRestore, w'.lastRestore)
  {
    if io.open.Failed? {
      RetryFrame(w, io.open.error, io.at);
    } else if io.info.Failed? {
      RetryFrame(w, io.info.error, io.at);
    } else {
      var w1 := w.(available := Some(io.info.value));
      if io.found.Failed? {
        RetryFrame(w1, io.found.error, io.at);
      } else {
        SettleSpaced(w1, io.found.value, io, clock);
      }
    }
  }

  lemma TryConnectSpaced(w: Watch, io: ConnectIO, clock: int)
    requires SpacedAt(w, clock) && clock <= io.at <= io.snapshot.at && ChangeInOrder(io.snapshot.change, io.snapshot.at)
    ensures var w' := TryConnect(w, io);
      SpacedAt(w', ChangeEnd(io.snapshot.change)) && KeptDistance(w.lastRestore, w'.lastRestore)
  {
    if io.scan.Entries? && Matching(w.serial, io.scan.serials) != [] {
      ConnectSpaced(w.(serial := Some(Matching(w.serial, io.scan.serials)[0])), io, clock);
    }
  }

  lemma TargetWrittenSpaced(
      w: Watch, previous: Option<PinConfig>, found: PinConfig, config: PinConfig, io: TargetIO, clock: int)
    requires SpacedAt(w, clock) && clock <= io.later
    ensures var w' := TargetWritten(w, previous, found, config, io);
      SpacedAt(w', io.later) && w'.lastRestore == w.lastRestore
  {
    WroteFrame(w, found, config, io.later);
  }

  lemma TargetSpaced(w: Watch, config: PinConfig, io: TargetIO, clock: int)
    requires SpacedAt(w, clock) && clock <= io.later
    ensures var w' := SetTarget(w, config, io);
      SpacedAt(w', io.later) && w'.lastRestore == w.lastRestore
  {
    if io.found.Got? {
      var w2 := w.(target := Some(config), restoreAt := None);
      TargetWrittenSpaced(SetConfig(w2, io.found.value), w.target, io.found.value, config, io, clock);
    }
  }

  lemma ReceivedSpaced(w: Watch, data: seq<byte>, at: int, io: ChangeIO, clock: int)
    requires SpacedAt(w, clock) && clock <= at && ChangeInOrder(io, at)
    ensures var w' := Received(w, data, at, io);
      SpacedAt(w', ChangeEnd(io)) && KeptDistance(w.lastRestore, w'.lastRestore)
  {
    if w.conn.Some? && |data| >= REPORT_LEN && W.HostDecode(data[1..REPORT_LEN]).Some? {
      var r, c := W.HostDecode(data[1..REPORT_LEN]).value, w.conn.value;
      StatusSpaced(w.(conn := Some(c.(lastSeq := Some(r.seqNo)))), r, at, Missed(c.lastSeq, r.seqNo), io, at);
    }
  }

  lemma StepSpaced(w: Watch, i: Input, clock: int)
    requires Inv(w) && SpacedAt(w, clock) && InOrder(i, clock)
    ensures var w' := Step(w, i); SpacedAt(w', End(i)) && KeptDistance(w.lastRestore, w'.lastRestore)
  {
    if !w.stopped {
      match i
      case ScanTimer(now, io) => TryConnectSpaced(w.(scanAt := None), io, clock);
      case RestoreTimer(now, io) =>
        if Due(w.restoreAt, now) {
          RestoreSpaced(w.(restoreAt := None), io, clock);
        }
      case SettleTimer(now, io) =>
        if Due(w.settleAt, now) {
          SnapshotSpaced(w.(settleAt := None, conn := Some(w.conn.value.(awaiting := false))), io, clock);
        }
      case Incoming(data, at, io) => ReceivedSpaced(w, data, at, io, clock);
      case ReadFailed(at) =>
      case NewTarget(config, io) => TargetSpaced(w, config, io, clock);
    }
  }

  ghost predicate RunInOrder(inputs: seq<Input>, from: int) {
    inputs == [] ||
    (var before, last := inputs[..|inputs| - 1], inputs[|inputs| - 1];
     RunInOrder(before, from) && InOrder(last, RunEnd(before, from)) && Decoded(last))
  }

  function RunEnd(inputs: seq<Input>, from: int): int {
    if inputs == [] then from else End(inputs[|inputs| - 1])
  }

  // ---- when a write-back is tried ----

  /** Looking at the configuration after CONFIG_CHANGED tries a write-back at once if it is not the target and
      the last one is an interval ago. */
  function ChangeWrites(w: Watch, io: ChangeIO): Option<int> {
    if io.found.Got? && w.target.Some? && io.found.value != w.target.value
       && (w.lastRestore.Some? ==> io.now - w.lastRestore.value >= RESTORE_INTERVAL)
    then Some(io.restore.at) else None
  }

  function SnapshotWrites(w: Watch, io: SnapshotIO): Option<int> {
    if io.status.Got? && ConfigChanged in io.status.value.reasons then ChangeWrites(w, io.change) else None
  }

  /** The attempt finds one device to open, and nothing to write to it. */
  predicate ConnectsAsFound(w: Watch, io: ConnectIO) {
    && io.scan.Entries?
    && (var matching := Matching(w.serial, io.scan.serials);
        matching != [] && !(w.serial.None? && |matching| > 1))
    && io.open.Got? && io.info.Got? && io.found.Got? && (w.target.None? || io.found.value == w.target.value)
  }

  /** The time at which a round tries to write the target back, if it does. */
  function WriteBack(w: Watch, i: Input): Option<int> {
    if w.stopped then None
    else
      match i
      case ScanTimer(now, io) =>
        if Due(w.scanAt, now) && ConnectsAsFound(w, io) then SnapshotWrites(w, io.snapshot) else None
      case RestoreTimer(now, io) =>
        if Due(w.restoreAt, now) && w.target.Some? && w.conn.Some? then Some(io.at) else None
      case SettleTimer(now, io) => if Due(w.settleAt, now) && w.conn.Some? then SnapshotWrites(w, io) else None
      case Incoming(data, at, io) =>
        if w.conn.Some? && |data| >= REPORT_LEN && data[0] == REPORT_ID_STATUS
           && W.HostDecode(data[1..REPORT_LEN]).Some?
           && ConfigChanged in W.HostDecode(data[1..REPORT_LEN]).value.reasons
        then ChangeWrites(w, io) else None
      case _ => None
  }

  /** The watcher remembers the time of its last attempt. */
  ghost predicate Marked(w: Watch, w': Watch, tried: Option<int>) {
    w'.lastRestore == if tried.Some? then tried else w.lastRestore
  }

  lemma RestoreMarks(w: Watch, io: RestoreIO)
    ensures Marked(w, RestoreTarget(w, io), if w.target.Some? && w.conn.Some? then Some(io.at) else None)
  {
    if w.target.Some? && w.conn.Some? {
      var w1 := w.(restoreAt := None, lastRestore := Some(io.at));
      if io.found.Failed? {
        LostFrame(w1, io.later);
      } else {
        RestoredFrame(SetConfig(w1, io.found.value), io.found.value, w.target.value, io);
      }
    }
  }

  lemma ChangeMarks(w: Watch, io: ChangeIO)
    requires w.conn.Some?
    ensures Marked(w, ConfigChange(w, io), ChangeWrites(w, io))
  {
    if io.found.Got? {
      RestoreMarks(SetConfig(w, io.found.value), io.restore);
    }
  }

  lemma StatusMarks(w: Watch, r: Report, at: int, missed: nat, io: ChangeIO)
    requires w.conn.Some?
    ensures Marked(w, TakeStatus(w, r, at, missed, io), if ConfigChanged in r.reasons then ChangeWrites(w, io) else None)
  {
    ChangeMarks(Arrive(w, r, at, missed), io);
  }

  lemma SnapshotMarks(w: Watch, io: SnapshotIO)
    requires w.conn.Some?
    ensures Marked(w, Snapshot(w, io), SnapshotWrites(w, io))
  {
    if io.status.Got? {
      var r := io.status.value;
      StatusMarks(w.(conn := Some(w.conn.value.(snapshotSeq := ReferenceOf(r)))), r, io.at, 0, io.change);
    }
  }

  lemma SettleMarks(w: Watch, found: PinConfig, io: ConnectIO)
    ensures Marked(w, Settle(w, found, io),
      if w.target.None? || found == w.target.value then SnapshotWrites(Attach(w, found, false, {}), io.snapshot) else None)
    ensures Attach(w, found, false, {}).target == w.target && Attach(w, found, false, {}).lastRestore == w.lastRestore
  {
    AttachFrame(w, found, false, {});
    if w.target.None? || found == w.target.value {
      SnapshotMarks(Attach(w, found, false, {}), io.snapshot);
    } else {
      AttachFrame(w, w.target.value, true, DrivenOutputs(found, w.target.value));
    }
  }

  lemma TryConnectMarks(w: Watch, io: ConnectIO, now: int)
    requires !w.stopped && Due(w.scanAt, now)
    ensures Marked(w, TryConnect(w.(scanAt := None), io), WriteBack(w, ScanTimer(now, io)))
  {
    if io.scan.Entries? {
      var matching := Matching(w.serial, io.scan.serials);
      if matching != [] && !(w.serial.None? && |matching| > 1) && io.open.Got? && io.info.Got? && io.found.Got? {
        SettleMarks(w.(scanAt := None, serial := Some(matching[0]), available := Some(io.info.value)), io.found.value, io);
      }
    }
  }

  lemma StepMarks(w: Watch, i: Input)
    requires Inv(w)
    ensures Marked(w, Step(w, i), WriteBack(w, i))
  {
    if !w.stopped {
      match i
      case ScanTimer(now, io) =>
        if Due(w.scanAt, now) {
          TryConnectMarks(w, io, now);
        }
      case RestoreTimer(now, io) =>
        if Due(w.restoreAt, now) {
          RestoreMarks(w.(restoreAt := None), io);
        }
      case SettleTimer(now, io) =>
        if Due(w.settleAt, now) {
          SnapshotMarks(w.(settleAt := None, conn := Some(w.conn.value.(awaiting := false))), io);
        }
      case Incoming(data, at, io) => ReceivedMarks(w, data, at, io);
      case ReadFailed(at) => LostFrame(w, at);
      case NewTarget(config, io) => TargetMarks(w, config, io);
    }
  }

  lemma TargetMarks(w: Watch, config: PinConfig, io: TargetIO)
    ensures Marked(w, SetTarget(w, config, io), None)
  {
    if w.conn.Some? && io.found.Got? {
      var w3 := SetConfig(w.(target := Some(config), restoreAt := None), io.found.value);
      WroteFrame(w3, io.found.value, config, io.later);
    }
  }

  lemma ReceivedMarks(w: Watch, data: seq<byte>, at: int, io: ChangeIO)
    requires !w.stopped
    ensures Marked(w, Received(w, data, at, io), WriteBack(w, Incoming(data, at, io)))
  {
    if w.conn.Some? && |data| >= REPORT_LEN && W.HostDecode(data[1..REPORT_LEN]).Some? {
      var r, c := W.HostDecode(data[1..REPORT_LEN]).value, w.conn.value;
      StatusMarks(w.(conn := Some(c.(lastSeq := Some(r.seqNo)))), r, at, Missed(c.lastSeq, r.seqNo), io);
    }
  }

  /** An attempt comes at least an interval after the one before it. */
  lemma WriteBackWaits(w: Watch, i: Input, clock: int)
    requires SpacedAt(w, clock) && InOrder(i, clock)
    ensures WriteBack(w, i).Some? && w.lastRestore.Some? ==>
      w.lastRestore.value + RESTORE_INTERVAL <= WriteBack(w, i).value
  {
  }

  /** The times at which write-backs of the target were tried during a run. */
  function WriteBacks(w: Watch, inputs: seq<Input>): seq<int> {
    if inputs == [] then []
    else
      var tried := WriteBack(Run(w, inputs[..|inputs| - 1]), inputs[|inputs| - 1]);
      WriteBacks(w, inputs[..|inputs| - 1]) + if tried.Some? then [tried.value] else []
  }

  ghost predicate AllApart(times: seq<int>) {
    forall i, j :: 0 <= i < j < |times| ==> times[i] + RESTORE_INTERVAL <= times[j]
  }

  ghost predicate LastIs(times: seq<int>, last: Option<int>) {
    last == if times == [] then None else Some(times[|times| - 1])
  }

  lemma TimesExtend(times: seq<int>, before: Option<int>, tried: Option<int>)
    requires AllApart(times) && LastIs(times, before)
    requires tried.Some? && before.Some? ==> before.value + RESTORE_INTERVAL <= tried.value
    ensures var longer := times + (if tried.Some? then [tried.value] else []);
      AllApart(longer) && LastIs(longer, if tried.Some? then tried else before)
  {
  }

  lemma {:induction false} RunSpaced(w: Watch, inputs: seq<Input>, from: int)
    requires Inv(w) && w.lastRestore.None? && RunInOrder(inputs, from)
    ensures var w', times := Run(w, inputs), WriteBacks(w, inputs);
      && Inv(w') && SpacedAt(w', RunEnd(inputs, from))
      && LastIs(times, w'.lastRestore) && AllApart(times)
  {
    if inputs != [] {
      var before, last := inputs[..|inputs| - 1], inputs[|inputs| - 1];
      RunSpaced(w, before, from);
      var w1 := Run(w, before);
      StepKeeps(w1, last);
      StepSpaced(w1, last, RunEnd(before, from));
      StepMarks(w1, last);
      WriteBackWaits(w1, last, RunEnd(before, from));
      TimesExtend(WriteBacks(w, before), w1.lastRestore, WriteBack(w1, last));
      assert Run(w, inputs) == Step(w1, last) && RunEnd(inputs, from) == End(last);
    }
  }

  /** Over any run with ordered clock readings - reconnections, conflicts and new targets included - any
      two write-backs of the target are at least one restore interval apart. */
  lemma WriteBacksAreSpaced(
      activeLow: map<nat, bool>, interval: nat, serial: Option<string>, target: Option<PinConfig>, now: int,
      inputs: seq<Input>, i: nat, j: nat)
    requires RunInOrder(inputs, now)
    requires i < j < |WriteBacks(Init(activeLow, interval, serial, target, now), inputs)|
    ensures var times := WriteBacks(Init(activeLow, interval, serial, target, now), inputs);
      times[i] + RESTORE_INTERVAL <= times[j]
  {
    RunSpaced(Init(activeLow, interval, serial, target, now), inputs, now);
  }

  // ---- following the target ----

  /** While connected with a target, the device was last seen with it or a write-back is armed. */
  ghost predicate Follows(w: Watch) {
    w.conn.Some? && w.target.Some? ==> w.config == w.target.value || w.restoreAt.Some?
  }

  /** A device that follows the protocol answers Get_Report(Input) with HOST_REQUEST alone. */
  ghost predicate PlainSnapshot(io: SnapshotIO) {
    io.status.Got? ==> ConfigChanged !in io.status.value.reasons
  }

  /** Exactly when a new target set while connected is followed afterwards: the device had it already, its
      write was applied or met a conflict, or it was rejected and the old target is still in place. A
      transport failure leaves the new target neither written nor armed. */
  ghost predicate TargetTaken(w: Watch, config: PinConfig, io: TargetIO) {
    if io.found.Failed? then w.config == config
    else if io.found.value == config then true
    else
      match io.outcome
      case Applied => true
      case Conflict(expected, seen) => true
      case Rejected => w.target.Some? ==> io.found.value == w.target.value
      case SetFailed(_) => false
  }

  lemma NewTargetFollowedIff(w: Watch, config: PinConfig, io: TargetIO)
    requires w.conn.Some? && w.available.Some? && Suits(config, w.available.value)
    ensures Follows(SetTarget(w, config, io)) <==> TargetTaken(w, config, io)
  {
    if io.found.Got? && io.found.value != config {
      var w3 := SetConfig(w.(target := Some(config), restoreAt := None), io.found.value);
      match io.outcome
      case Applied => WroteFrame(w3, io.found.value, config, io.later);
      case _ =>
    }
  }

  /** The connection stays, no report says CONFIG_CHANGED, and no new target is set. */
  ghost predicate Uneventful(i: Input) {
    match i
    case ScanTimer(_, _) => true
    case RestoreTimer(_, _) => true
    case SettleTimer(_, io) => io.status.Got? && ConfigChanged !in io.status.value.reasons
    case Incoming(data, _, _) =>
      |data| >= REPORT_LEN && W.HostDecode(data[1..REPORT_LEN]).Some? ==>
        ConfigChanged !in W.HostDecode(data[1..REPORT_LEN]).value.reasons
    case _ => false
  }

  ghost predicate AllUneventful(inputs: seq<Input>) {
    forall k :: 0 <= k < |inputs| ==> Uneventful(inputs[k]) && Decoded(inputs[k])
  }

  /** Connected, with a target that the device was not last seen with and that nothing will write. */
  ghost predicate Forgotten(w: Watch, target: Option<PinConfig>) {
    && Inv(w) && !w.stopped && w.conn.Some? && w.target == target
    && target.Some? && w.config != target.value && w.restoreAt.None?
  }

  lemma StatusForgets(w: Watch, r: Report, at: int, missed: nat, io: ChangeIO)
    requires w.conn.Some? && !w.stopped && ConfigChanged !in r.reasons
    ensures var w' := TakeStatus(w, r, at, missed, io);
      && w'.conn.Some? && !w'.stopped && w'.target == w.target && w'.config == w.config && w'.restoreAt == w.restoreAt
  {
  }

  lemma UneventfulForgets(w: Watch, i: Input)
    requires Forgotten(w, w.target) && Uneventful(i) && Decoded(i)
    ensures Forgotten(Step(w, i), w.target) && WriteBack(w, i).None?
  {
    StepKeeps(w, i);
    match i
    case SettleTimer(now, io) =>
      if Due(w.settleAt, now) {
        var r, c := io.status.value, w.conn.value.(awaiting := false);
        StatusForgets(w.(settleAt := None, conn := Some(c.(snapshotSeq := ReferenceOf(r)))), r, io.at, 0, io.change);
      }
    case Incoming(data, at, io) =>
      if |data| >= REPORT_LEN && W.HostDecode(data[1..REPORT_LEN]).Some? {
        var r, c := W.HostDecode(data[1..REPORT_LEN]).value, w.conn.value;
        StatusForgets(w.(conn := Some(c.(lastSeq := Some(r.seqNo)))), r, at, Missed(c.lastSeq, r.seqNo), io);
      }
    case _ =>
  }

  lemma {:induction false} StaysForgotten(w: Watch, inputs: seq<Input>)
    requires Forgotten(w, w.target) && AllUneventful(inputs)
    ensures Forgotten(Run(w, inputs), w.target) && WriteBacks(w, inputs) == []
  {
    if inputs != [] {
      var before, last := inputs[..|inputs| - 1], inputs[|inputs| - 1];
      StaysForgotten(w, before);
      UneventfulForgets(Run(w, before), last);
    }
  }

  /** A new target that was not taken is not "written again later" on its own: whatever timers fire and
      whatever reports arrive, as long as the connection stays and no report says CONFIG_CHANGED, no
      write-back is tried. */
  lemma FailedTargetIsNotRetried(w: Watch, config: PinConfig, io: TargetIO, inputs: seq<Input>)
    requires Inv(w) && !w.stopped && w.conn.Some? && Suits(config, w.available.value)
    requires !TargetTaken(w, config, io) && AllUneventful(inputs)
    ensures var w' := SetTarget(w, config, io);
      !Follows(w') && !Follows(Run(w', inputs)) && WriteBacks(w', inputs) == []
  {
    NewTargetFollowedIff(w, config, io);
    StepKeeps(w, NewTarget(config, io));
    StaysForgotten(SetTarget(w, config, io), inputs);
  }

  /** What does write it: the next connection. It ends with the device on the target, which it had or was
      written to it. */
  lemma NextConnectionWrites(w: Watch, now: int, io: ConnectIO)
    requires Inv(w) && !w.stopped && w.target.Some? && Due(w.scanAt, now) && PlainSnapshot(io.snapshot)
    ensures var w' := Step(w, ScanTimer(now, io));
      w'.conn.Some? ==>
        && w'.config == w.target.value && w'.target == w.target
        && io.found.Got? && (io.found.value == w.target.value || io.outcome.Applied?)
  {
    if io.scan.Entries? {
      var matching := Matching(w.serial, io.scan.serials);
      if matching != [] && !(w.serial.None? && |matching| > 1) && io.open.Got? && io.info.Got? && io.found.Got? {
        SettleWrites(w.(scanAt := None, serial := Some(matching[0]), available := Some(io.info.value)), io.found.value, io);
      }
    }
  }

  lemma SettleWrites(w: Watch, found: PinConfig, io: ConnectIO)
    requires w.conn.None? && w.target.Some? && PlainSnapshot(io.snapshot)
    ensures var w' := Settle(w, found, io);
      w'.conn.Some? ==>
        w'.config == w.target.value && w'.target == w.target && (found == w.target.value || io.outcome.Applied?)
  {
    if found == w.target.value {
      AttachFrame(w, found, false, {});
      PlainSnapshotKeeps(Attach(w, found, false, {}), io.snapshot);
      assert Settle(w, found, io) == Snapshot(Attach(w, found, false, {}), io.snapshot);
    } else {
      match io.outcome
      case Applied => AttachFrame(w, w.target.value, true, DrivenOutputs(found, w.target.value));
      case Conflict(expected, seen) => RetryFrame(w, ConflictFault(expected, seen), io.at);
      case SetFailed(error) => RetryFrame(w, error, io.at);
      case Rejected =>
    }
  }

  /** A snapshot without CONFIG_CHANGED leaves configuration and target alone, or loses the connection. */
  lemma PlainSnapshotKeeps(w: Watch, io: SnapshotIO)
    requires w.conn.Some? && PlainSnapshot(io)
    ensures var w' := Snapshot(w, io); w'.conn.Some? ==> w'.target == w.target && w'.config == w.config
  {
    if io.status.Got? {
      var r := io.status.value;
      var w1 := w.(conn := Some(w.conn.value.(snapshotSeq := ReferenceOf(r))));
      FollowPlain(Arrive(w1, r, io.at, 0), r, StaleFor(w1.conn.value, r), io.change);
    } else {
      LostFrame(w, io.at);
    }
  }

  lemma FollowPlain(w: Watch, r: Report, stale: bool, io: ChangeIO)
    requires w.conn.Some? && ConfigChanged !in r.reasons
    ensures var w' := Follow(w, r, stale, io); w'.target == w.target && w'.config == w.config
  {
  }

  lemma RestoreFollows(w: Watch, io: RestoreIO)
    ensures var w' := RestoreTarget(w, io); w'.stopped || Follows(w')
  {
    if w.target.Some? && w.conn.Some? {
      var w1 := w.(restoreAt := None, lastRestore := Some(io.at));
      if io.found.Failed? {
        LostFrame(w1, io.later);
      } else {
        RestoredFrame(SetConfig(w1, io.found.value), io.found.value, w.target.value, io);
      }
    }
  }

  lemma FollowFollows(w: Watch, r: Report, stale: bool, io: ChangeIO)
    requires w.conn.Some? && Follows(w)
    ensures var w' := Follow(w, r, stale, io); w'.stopped || Follows(w')
    ensures ConfigChanged !in r.reasons ==> Follows(Follow(w, r, stale, io))
  {
    if ConfigChanged in r.reasons && io.found.Got? {
      RestoreFollows(SetConfig(w, io.found.value), io.restore);
    }
  }

  lemma StatusFollows(w: Watch, r: Report, at: int, missed: nat, io: ChangeIO)
    requires w.conn.Some? && Follows(w)
    ensures var w' := TakeStatus(w, r, at, missed, io); w'.stopped || Follows(w')
    ensures ConfigChanged !in r.reasons ==> Follows(TakeStatus(w, r, at, missed, io))
  {
    FollowFollows(Arrive(w, r, at, missed), r, StaleFor(w.conn.value, r), io);
  }

  lemma SnapshotFollows(w: Watch, io: SnapshotIO)
    requires w.conn.Some? && Follows(w) && PlainSnapshot(io)
    ensures Follows(Snapshot(w, io))
  {
    if io.status.Got? {
      var r := io.status.value;
      StatusFollows(w.(conn := Some(w.conn.value.(snapshotSeq := ReferenceOf(r)))), r, io.at, 0, io.change);
    }
  }

  lemma SettleFollows(w: Watch, found: PinConfig, io: ConnectIO)
    requires w.conn.None? && PlainSnapshot(io.snapshot)
    ensures var w' := Settle(w, found, io); w'.stopped || Follows(w')
  {
    if w.target.None? || found == w.target.value {
      AttachFrame(w, found, false, {});
      SnapshotFollows(Attach(w, found, false, {}), io.snapshot);
    } else {
      AttachFrame(w, w.target.value, true, DrivenOutputs(found, w.target.value));
    }
  }

  lemma ConnectFollows(w: Watch, io: ConnectIO)
    requires w.conn.None? && PlainSnapshot(io.snapshot)
    ensures var w' := Connect(w, io); w'.stopped || Follows(w')
  {
    if io.info.Got? && io.found.Got? {
      SettleFollows(w.(available := Some(io.info.value)), io.found.value, io);
    }
  }

  lemma TryConnectFollows(w: Watch, io: ConnectIO)
    requires w.conn.None? && PlainSnapshot(io.snapshot)
    ensures var w' := TryConnect(w, io); w'.stopped || Follows(w')
  {
    if io.scan.Entries? && Matching(w.serial, io.scan.serials) != [] {
      ConnectFollows(w.(serial := Some(Matching(w.serial, io.scan.serials)[0])), io);
    }
  }

  /** The configuration can be read and the write arrives; the device rejects only what does not suit it. */
  ghost predicate Obeyed(w: Watch, config: PinConfig, io: TargetIO) {
    && io.found.Got? && !io.outcome.SetFailed?
    && (io.outcome.Rejected? ==> w.available.Some? && !Suits(config, w.available.value))
  }

  /** The answers come from a device that follows the protocol, and a new target does not meet a
      transport failure. */
  ghost predicate Polite(w: Watch, i: Input) {
    match i
    case ScanTimer(_, io) => PlainSnapshot(io.snapshot)
    case SettleTimer(_, io) => PlainSnapshot(io)
    case NewTarget(config, io) => Obeyed(w, config, io)
    case _ => true
  }

  lemma ObeyedTargetFollows(w: Watch, config: PinConfig, io: TargetIO)
    requires w.conn.Some? && w.available.Some? && Suits(config, w.available.value) && Obeyed(w, config, io)
    ensures Follows(SetTarget(w, config, io))
  {
    assert TargetTaken(w, config, io);
    NewTargetFollowedIff(w, config, io);
  }

  lemma StepFollows(w: Watch, i: Input)
    requires Inv(w) && (w.stopped || Follows(w)) && Polite(w, i)
    ensures var w' := Step(w, i); w'.stopped || Follows(w')
  {
    if !w.stopped {
      match i
      case ScanTimer(now, io) =>
        if Due(w.scanAt, now) {
          TryConnectFollows(w.(scanAt := None), io);
        }
      case RestoreTimer(now, io) => RestoreFollows(w.(restoreAt := None), io);
      case SettleTimer(now, io) =>
        if Due(w.settleAt, now) {
          SnapshotFollows(w.(settleAt := None, conn := Some(w.conn.value.(awaiting := false))), io);
        }
      case Incoming(data, at, io) =>
        if w.conn.Some? && |data| >= REPORT_LEN && W.HostDecode(data[1..REPORT_LEN]).Some? {
          var r, c := W.HostDecode(data[1..REPORT_LEN]).value, w.conn.value;
          StatusFollows(w.(conn := Some(c.(lastSeq := Some(r.seqNo)))), r, at, Missed(c.lastSeq, r.seqNo), io);
        }
      case ReadFailed(at) =>
      case NewTarget(config, io) =>
        if w.conn.Some? && Suits(config, w.available.value) {
          ObeyedTargetFollows(w, config, io);
        }
    }
  }

  ghost predicate AllPolite(w: Watch, inputs: seq<Input>) {
    inputs == [] ||
    (var before, last := inputs[..|inputs| - 1], inputs[|inputs| - 1];
     AllPolite(w, before) && Polite(Run(w, before), last) && Decoded(last))
  }

  /** With a device that follows the protocol, a running watcher that is connected and has a target always
      either saw the device with that target last or has a write-back armed. */
  lemma {:induction false} AlwaysFollows(
      activeLow: map<nat, bool>, interval: nat, serial: Option<string>, target: Option<PinConfig>, now: int,
      inputs: seq<Input>)
    requires AllPolite(Init(activeLow, interval, serial, target, now), inputs)
    ensures var w := Run(Init(activeLow, interval, serial, target, now), inputs); Inv(w) && (w.stopped || Follows(w))
  {
    if inputs != [] {
      var before, last := inputs[..|inputs| - 1], inputs[|inputs| - 1];
      AlwaysFollows(activeLow, interval, serial, target, now, before);
      var w := Run(Init(activeLow, interval, serial, target, now), before);
      StepKeeps(w, last);
      StepFollows(w, last);
    }
  }

  // ---- pins that are read anew ----

  /** None of these events is a change of pin n. */
  ghost predicate NoChangeOf(n: nat, out: seq<Event>) {
    forall i :: 0 <= i < |out| ==> !(out[i].OnOffChange? && out[i].gpio == n)
  }

  lemma {:induction false} UnknownStaysOut(
      a: Absorbed, events: seq<WireEvent>, timestamp: u64, low: set<nat>, clock: K.Clock, n: nat)
    requires n !in a.known && NoChangeOf(n, a.out)
    ensures var a' := AbsorbEvents(a, events, timestamp, low, clock); n !in a'.known && NoChangeOf(n, a'.out)
    decreases |events|
  {
    if events != [] {
      UnknownStaysOut(AbsorbEvent(a, events[0], timestamp, low, clock), events[1..], timestamp, low, clock, n);
    }
  }

  lemma {:induction false} LevelsKeepOut(a: Absorbed, r: Report, m: nat, low: set<nat>, n: nat)
    requires m <= GPIO_COUNT && NoChangeOf(n, a.out)
    requires n in a.known ==> a.known[n] == IsOn(n in r.levels, low, n)
    ensures NoChangeOf(n, AbsorbLevels(a, r, m, low).out)
    decreases GPIO_COUNT - m
  {
    if m < GPIO_COUNT {
      LevelsKeepOut(AbsorbLevel(a, r, m, low), r, m + 1, low, n);
    }
  }

  /** A report says of a pin whose ON/OFF is not known only what it is, and never that it changed. */
  lemma UnknownIsInitial(known: map<nat, bool>, r: Report, low: set<nat>, clock: K.Clock, n: nat)
    requires n !in known
    ensures var out := AbsorbReport(known, r, low, clock).out;
      && NoChangeOf(n, out)
      && (n in r.monitored ==>
            out != [] && var last := out[|out| - 1];
            last.InitialOnOff? && n in last.learned && last.learned[n] == IsOn(n in r.levels, low, n))
  {
    UnknownStaysOut(Absorbed(known, []), r.events, r.timestamp, low, clock, n);
    var a1 := AbsorbEvents(Absorbed(known, []), r.events, r.timestamp, low, clock);
    LevelsKeepOut(a1, r, 0, low, n);
    assert n in r.monitored ==> n in Learn(a1.known, r, low);
  }

  /** A pin whose mode a new configuration changes is announced anew: the next report absorbed tells its
      ON/OFF by its new polarity, and no change of it. A pin that stays an input with its pull keeps its. */
  lemma ChangedPinIsAnnouncedAnew(w: Watch, config: PinConfig, r: Report, n: nat)
    requires w.conn.Some? && n < GPIO_COUNT
    ensures var w1 := SetConfig(w, config);
      if IsInput(config[n].mode) && config[n].mode == w.config[n].mode
      then (n in w1.known <==> n in w.known) && (n in w.known ==> w1.known[n] == w.known[n])
      else
        && var out := Absorb(w1, r).emitted[|w.emitted|..];
        && NoChangeOf(n, out)
        && (n in r.monitored ==>
              out != [] && var last := out[|out| - 1];
              last.InitialOnOff? && n in last.learned
              && last.learned[n] == IsOn(n in r.levels, LowPinsOf(w.activeLow, config), n))
  {
    var w1 := SetConfig(w, config);
    if !(IsInput(config[n].mode) && config[n].mode == w.config[n].mode) {
      UnknownIsInitial(w1.known, r, LowPins(w1), w1.conn.value.clock, n);
      var a := AbsorbReport(w1.known, r, LowPins(w1), w1.conn.value.clock);
      assert Absorb(w1, r).emitted[|w.emitted|..] == a.out;
    }
  }

  // ---- sequence numbers ----

  /** The u16 difference read as a signed number, as the Go watcher compares it. */
  function Int16(d: u16): int {
    if d < 0x8000 then d else d - 0x1_0000
  }

  /** On unbounded true sequence numbers at most 2^15 apart, the signed test of the Go watcher and the
      distance test of the Rust watcher agree, and both tell whether the report was sent at or before
      the snapshot. */
  lemma StaleTests(sent: nat, snapshot: nat)
    requires -0x8000 <= sent - snapshot < 0x8000
    ensures var a, b := sent % 0x1_0000, snapshot % 0x1_0000;
      && (IsStale(a, b) <==> sent <= snapshot)
      && (Int16((a - b) % 0x1_0000) <= 0 <==> sent <= snapshot)
  {
    var d := sent - snapshot;
    assert (sent % 0x1_0000 - snapshot % 0x1_0000) % 0x1_0000 == d % 0x1_0000;
  }
}
