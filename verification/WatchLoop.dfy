/** The watcher's loop as the object that owns the device: fields and maps updated step by step. Every
    method is proved to take the step of the state machine WatchSpec. */
module WatchLoop {
  import opened Protocol
  import S = WatchSpec
  import I = WatchInvariants
  import K = DeviceClock
  import W = StatusCodec

  class WatchLoop {
    const activeLow: map<nat, bool>
    const interval: nat
    var serial: Option<string>
    var target: Option<PinConfig>
    var available: Option<set<nat>>
    var config: PinConfig
    var known: map<nat, bool>
    var everConnected: bool
    var conn: Option<S.Conn>
    var failure: S.Fault
    var failures: nat
    var restoreCount: nat
    var lastRestore: Option<int>
    var scanAt: Option<int>
    var restoreAt: Option<int>
    var settleAt: Option<int>
    var stopped: bool
    var pending: seq<S.Event>  // every event since the start; delivering one does not remove it here
    ghost var state: S.Watch

    ghost predicate Valid()
      reads this
    {
      state == S.Watch(
        activeLow, interval, serial, target, available, config, known, everConnected, conn,
        failure, failures, restoreCount, lastRestore, scanAt, restoreAt, settleAt, stopped, pending)
    }

    constructor (activeLow: map<nat, bool>, interval: nat, serial: Option<string>, target: Option<PinConfig>, now: int)
      ensures Valid() && state == S.Init(activeLow, interval, serial, target, now)
    {
      this.activeLow, this.interval, this.serial, this.target := activeLow, interval, serial, target;
      available, known, everConnected, conn := None, map[], false, None;
      config := seq(GPIO_COUNT, _ => PinSetting(Unused, 0));
      failure, failures, restoreCount, lastRestore := S.NoFault, 0, 0, None;
      scanAt, restoreAt, settleAt, stopped, pending := Some(now), None, None, false, [];
      state := S.Init(activeLow, interval, serial, target, now);
    }

    method Emit(e: S.Event)
      requires Valid()
      modifies this
      ensures Valid() && state == S.Emit(old(state), e)
    {
      pending := pending + [e];
      state := S.Emit(state, e);
    }

    // ---- absorbing a report ----

    /** Whether LOW means ON. A pin above GPIO29 has no setting to look at. */
    method IsActiveLow(n: nat) returns (low: bool)
      requires n < GPIO_COUNT
      ensures low <==> n in S.LowPinsOf(activeLow, config)
    {
      if n in activeLow {
        return activeLow[n];
      }
      low := config[n].mode == InputPullUp;
    }

    /** What an absorption under way stands at: a's events come after the ones in before. */
    ghost predicate At(before: seq<S.Event>, a: S.Absorbed)
      reads this
    {
      known == a.known && pending == before + a.out && I.KnownInv(known)
    }

    method AbsorbEvent(e: WireEvent, timestamp: u64, clock: K.Clock, ghost before: seq<S.Event>, ghost a: S.Absorbed)
      requires At(before, a) && clock.cur.Some?
      modifies `known, `pending
      ensures At(before, S.AbsorbEvent(a, e, timestamp, S.LowPinsOf(activeLow, config), clock))
    {
      if e.gpio !in known {
        return;
      }
      var was := known[e.gpio];
      var low := IsActiveLow(e.gpio);
      var on := e.level != low;
      if on == was {
        // The pin is where the event leads already: a change away from it never arrived.
        pending := pending + [S.OnOffChange(e.gpio, !on, !e.level, None, None, true)];
      }
      var start := StartUs(e, timestamp);
      var time: Option<int> := None;
      if start.Some? {
        time := Some(K.At(clock, start.value));
      }
      pending := pending + [S.OnOffChange(e.gpio, on, e.level, time, start, false)];
      known := known[e.gpio := on];
    }

    method AbsorbEvents(events: seq<WireEvent>, timestamp: u64, clock: K.Clock, ghost before: seq<S.Event>)
      requires At(before, S.Absorbed(known, [])) && clock.cur.Some?
      modifies `known, `pending
      ensures At(before, S.AbsorbEvents(S.Absorbed(old(known), []), events, timestamp, S.LowPinsOf(activeLow, config), clock))
    {
      ghost var low, a := S.LowPinsOf(activeLow, config), S.Absorbed(known, []);
      for i := 0 to |events|
        invariant At(before, a)
        invariant S.AbsorbEvents(a, events[i..], timestamp, low, clock) ==
          S.AbsorbEvents(S.Absorbed(old(known), []), events, timestamp, low, clock)
      {
        AbsorbEvent(events[i], timestamp, clock, before, a);
        assert events[i..][0] == events[i] && events[i..][1..] == events[i + 1..];
        a := S.AbsorbEvent(a, events[i], timestamp, low, clock);
      }
    }

    /** Compares the level of pin n with what is known, or learns it. */
    method AbsorbLevel(r: Report, n: nat, learned: map<nat, bool>, ghost before: seq<S.Event>, ghost a: S.Absorbed)
      returns (more: map<nat, bool>)
      requires At(before, a) && n < GPIO_COUNT
      modifies `known, `pending
      ensures At(before, S.AbsorbLevel(a, r, n, S.LowPinsOf(activeLow, config)))
      ensures more == if n in r.monitored && n !in a.known
        then learned[n := S.IsOn(n in r.levels, S.LowPinsOf(activeLow, config), n)] else learned
    {
      more := learned;
      if n in r.monitored {
        var level := n in r.levels;
        var isLow := IsActiveLow(n);
        var on := level != isLow;
        if n !in known {
          more := learned[n := on];
        } else if known[n] != on {
          pending := pending + [S.OnOffChange(n, on, level, None, None, true)];
        }
        known := known[n := on];
      }
    }

    /** Compares the levels of the monitored pins with what is known; the unknown ones are learned. */
    method AbsorbLevels(r: Report, ghost before: seq<S.Event>, ghost a0: S.Absorbed) returns (learned: map<nat, bool>)
      requires At(before, a0) && GpioSet(r.monitored)
      modifies `known, `pending
      ensures At(before, S.AbsorbLevels(a0, r, 0, S.LowPinsOf(activeLow, config)))
      ensures learned == S.Learn(a0.known, r, S.LowPinsOf(activeLow, config))
    {
      ghost var low, a := S.LowPinsOf(activeLow, config), a0;
      learned := map[];
      for n := 0 to GPIO_COUNT
        invariant At(before, a) && S.AbsorbLevels(a, r, n, low) == S.AbsorbLevels(a0, r, 0, low)
        invariant forall m :: m >= n ==> (m in a.known <==> m in a0.known)
        invariant learned == map m | m in r.monitored && m < n && m !in a0.known :: S.IsOn(m in r.levels, low, m)
      {
        learned := AbsorbLevel(r, n, learned, before, a);
        a := S.AbsorbLevel(a, r, n, low);
      }
    }

    /** Forgets the pins that are no longer monitored and announces the learned ones. */
    method FinishAbsorb(r: Report, learned: map<nat, bool>)
      modifies `known, `pending
      ensures known == map n | n in old(known) && n in r.monitored :: old(known)[n]
      ensures pending == if learned == map[] then old(pending) else old(pending) + [S.InitialOnOff(learned)]
    {
      known := map n | n in known && n in r.monitored :: known[n];
      if learned != map[] {
        pending := pending + [S.InitialOnOff(learned)];
      }
    }

    method Absorb(r: Report)
      requires Valid() && conn.Some? && conn.value.clock.cur.Some? && GpioSet(r.monitored) && I.KnownInv(known)
      modifies `known, `pending, `state
      ensures Valid() && state == S.Absorb(old(state), r)
    {
      ghost var before, low, clock := pending, S.LowPins(state), conn.value.clock;
      ghost var a := S.AbsorbReport(known, r, low, clock);
      AbsorbEvents(r.events, r.timestamp, conn.value.clock, before);
      ghost var a1 := S.AbsorbEvents(S.Absorbed(old(known), []), r.events, r.timestamp, low, clock);
      var learned := AbsorbLevels(r, before, a1);
      FinishAbsorb(r, learned);
      assert known == a.known && pending == before + a.out;
      state := state.(known := known, emitted := pending);
    }

    // ---- connection ----

    method SetConfig(next: PinConfig)
      requires Valid() && I.KnownInv(known)
      modifies this
      ensures Valid() && state == S.SetConfig(old(state), next)
    {
      known := map n | n in known && IsInput(next[n].mode) && next[n].mode == config[n].mode :: known[n];
      config := next;
      state := S.SetConfig(state, next);
    }

    method DropConnection()
      requires Valid()
      modifies this
      ensures Valid() && state == S.DropConnection(old(state))
    {
      if conn.Some? {
        conn := None;
        restoreAt := None;
        settleAt := None;
      }
      state := S.DropConnection(state);
    }

    method Lost(at: int)
      requires Valid()
      modifies this
      ensures Valid() && state == S.Lost(old(state), at)
    {
      if conn.None? {
        return;
      }
      DropConnection();
      Emit(S.Disconnected);
      scanAt := Some(at + interval);
      state := state.(scanAt := scanAt);
    }

    /** Only the second failure in a row is worth telling. */
    method NoteFailure(error: S.Fault)
      requires Valid()
      modifies this
      ensures Valid() && state == S.NoteFailure(old(state), error)
    {
      if error != failure {
        failure := error;
        failures := 0;
      }
      failures := failures + 1;
      if failures == 2 {
        pending := pending + [S.ConnectFailed(error)];
      }
      state := S.NoteFailure(state, error);
    }

    method Retry(error: S.Fault, at: int)
      requires Valid()
      modifies this
      ensures Valid() && state == S.Retry(old(state), error, at)
    {
      NoteFailure(error);
      scanAt := Some(at + interval);
      state := state.(scanAt := scanAt);
    }

    method DrivenOutputs(prev: PinConfig, next: PinConfig) returns (driven: set<nat>)
      ensures driven == S.DrivenOutputs(prev, next)
    {
      driven := {};
      for n := 0 to GPIO_COUNT
        invariant driven == set m: nat | m < n && next[m].mode.Output? && prev[m] != next[m]
      {
        if next[n].mode.Output? && prev[n] != next[n] {
          driven := driven + {n};
        }
      }
    }

    method Wrote(found: PinConfig, written: PinConfig, at: int)
      requires Valid() && I.KnownInv(known)
      modifies this
      ensures Valid() && state == S.Wrote(old(state), found, written, at)
    {
      SetConfig(written);
      AwaitConfig(at);
      var driven := DrivenOutputs(found, written);
      if driven != {} {
        Emit(S.OutputsReset(driven, S.Written));
      }
    }

    method AwaitConfig(at: int)
      requires Valid()
      modifies this
      ensures Valid()
      ensures state == old(state).(
        conn := if old(state).conn.Some? then Some(old(state).conn.value.(awaiting := true)) else None,
        settleAt := Some(at + S.SETTLE_TIMEOUT))
    {
      if conn.Some? {
        conn := Some(conn.value.(awaiting := true));
      }
      settleAt := Some(at + S.SETTLE_TIMEOUT);
      state := state.(conn := conn, settleAt := settleAt);
    }

    // ---- the target configuration ----

    method ArmRestore(at: Option<int>)
      requires Valid()
      modifies this
      ensures Valid() && state == old(state).(restoreAt := at)
    {
      restoreAt := at;
      state := state.(restoreAt := at);
    }

    method NoteRestore(at: int)
      requires Valid()
      modifies this
      ensures Valid() && state == old(state).(restoreAt := None, lastRestore := Some(at))
    {
      restoreAt := None;
      lastRestore := Some(at);
      state := state.(restoreAt := None, lastRestore := lastRestore);
    }

    method CountRestore(found: PinConfig)
      requires Valid()
      modifies this
      ensures Valid() && state == S.CountRestore(old(state), found)
    {
      restoreCount := restoreCount + 1;
      pending := pending + [S.PinConfigRestored(found, restoreCount)];
      state := S.CountRestore(state, found);
    }

    method Restored(found: PinConfig, wanted: PinConfig, io: S.RestoreIO)
      requires Valid() && I.KnownInv(known)
      modifies this
      ensures Valid() && state == S.Restored(old(state), found, wanted, io)
    {
      match io.outcome
      case Applied =>
        CountRestore(found);
        Wrote(found, wanted, io.later);
      case Rejected =>
        stopped := true;
        state := state.(stopped := true);
      case Conflict(expected, seen) => ArmRestore(Some(io.later + S.RESTORE_INTERVAL));
      case SetFailed(_) => Lost(io.later);
    }

    method RestoreTarget(io: S.RestoreIO)
      requires Valid() && I.KnownInv(known)
      modifies this
      ensures Valid() && state == S.RestoreTarget(old(state), io)
    {
      if target.None? || conn.None? {
        return;
      }
      NoteRestore(io.at);
      if io.found.Failed? {
        Lost(io.later);
        return;
      }
      var found := io.found.value;
      SetConfig(found);
      if found == target.value {
        return;
      }
      Restored(found, target.value, io);
    }

    /** Looks at the configuration after CONFIG_CHANGED: without a target it is announced, with one it is
        written back. */
    method ConfigChange(io: S.ChangeIO)
      requires Valid() && I.KnownInv(known)
      modifies this
      ensures Valid() && state == S.ConfigChange(old(state), io)
    {
      if io.found.Failed? {
        Lost(io.armAt);
        return;
      }
      var found := io.found.value;
      var changed := found != config;
      SetConfig(found);
      if target.None? {
        if changed {
          Emit(S.PinConfigChanged(found));
        }
        return;
      }
      if found == target.value {
        return;
      }
      if lastRestore.Some? {
        var since := io.now - lastRestore.value;
        if since < S.RESTORE_INTERVAL {
          ArmRestore(Some(io.armAt + (S.RESTORE_INTERVAL - since)));
          return;
        }
      }
      RestoreTarget(io.restore);
    }

    method TargetWritten(previous: Option<PinConfig>, found: PinConfig, next: PinConfig, io: S.TargetIO)
      requires Valid() && I.KnownInv(known)
      modifies this
      ensures Valid() && state == S.TargetWritten(old(state), previous, found, next, io)
    {
      match io.outcome
      case Applied => Wrote(found, next, io.later);
      case Rejected =>
        target := previous;
        state := state.(target := previous);
      case Conflict(expected, seen) => ArmRestore(Some(io.later + S.RESTORE_INTERVAL));
      case SetFailed(_) =>
    }

    method SetTarget(next: PinConfig, io: S.TargetIO)
      requires Valid() && I.KnownInv(known)
      modifies this
      ensures Valid() && state == S.SetTarget(old(state), next, io)
    {
      if available.Some? && !S.Suits(next, available.value) {
        return;
      }
      var previous := target;
      target := Some(next);
      state := state.(target := target);
      if conn.None? {
        return;
      }
      ArmRestore(None);
      if io.found.Failed? {
        return;
      }
      SetConfig(io.found.value);
      if io.found.value == next {
        return;
      }
      TargetWritten(previous, io.found.value, next, io);
    }

    // ---- reports ----

    method OnOff(r: Report) returns (on: map<nat, bool>)
      requires Valid() && GpioSet(r.monitored)
      ensures on == S.OnOff(r, S.LowPins(state))
    {
      on := map[];
      for n := 0 to GPIO_COUNT
        invariant on == map m | m in r.monitored && m < n :: S.IsOn(m in r.levels, S.LowPins(state), m)
      {
        if n in r.monitored {
          var low := IsActiveLow(n);
          on := on[n := (n in r.levels) != low];
        }
      }
    }

    /** The connection after a report: its clock, its snapshot and whether it still waits. */
    method UpdateConnection(r: Report, at: int) returns (stale: bool)
      requires conn.Some?
      modifies `conn, `settleAt
      ensures stale == S.StaleFor(old(conn).value, r)
      ensures conn == Some(old(conn).value.(
        clock := K.Add(old(conn).value.clock, K.Sample(at, r.timestamp)),
        snapshotSeq := if HostRequest !in r.reasons && !stale then None else old(conn).value.snapshotSeq,
        awaiting := old(conn).value.awaiting && !(ConfigChanged in r.reasons && !stale)))
      ensures settleAt == if ConfigChanged in r.reasons && !stale then None else old(settleAt)
    {
      var c := conn.value;
      c := c.(clock := K.Add(c.clock, K.Sample(at, r.timestamp)));
      stale := false;
      if HostRequest !in r.reasons && c.snapshotSeq.Some? {
        var distance := (r.seqNo - c.snapshotSeq.value) % 0x1_0000;
        if distance == 0 || distance >= 0x8000 {
          stale := true;
        } else {
          c := c.(snapshotSeq := None);
        }
      }
      if ConfigChanged in r.reasons && !stale {
        c := c.(awaiting := false);
        settleAt := None;
      }
      conn := Some(c);
    }

    method Arrive(r: Report, at: int, missed: nat) returns (stale: bool)
      requires Valid() && conn.Some? && GpioSet(r.monitored)
      modifies this
      ensures Valid() && state == S.Arrive(old(state), r, at, missed)
      ensures stale == S.StaleFor(old(state).conn.value, r)
    {
      var on := OnOff(r);
      stale := UpdateConnection(r, at);
      state := state.(conn := conn, settleAt := settleAt);
      Emit(S.StatusReceived(r, missed, on));
      if Reason.OutputReset in r.reasons && r.outputs != {} {
        Emit(S.OutputsReset(r.outputs, S.Suspend));
      }
    }

    method FollowChange(r: Report, io: S.ChangeIO)
      requires Valid() && conn.Some? && I.Core(state) && I.ScanInv(state)
      modifies this
      ensures Valid() && I.KnownInv(known) && I.SameClock(old(state), state)
      ensures state == if ConfigChanged in r.reasons then S.ConfigChange(old(state), io) else old(state)
    {
      if ConfigChanged in r.reasons {
        I.ChangeKeeps(state, io);
        I.ChangeFrame(state, io);
        ConfigChange(io);
      }
    }

    method Follow(r: Report, stale: bool, io: S.ChangeIO)
      requires Valid() && conn.Some? && conn.value.clock.cur.Some?
      requires GpioSet(r.monitored) && I.Core(state) && I.ScanInv(state)
      modifies this
      ensures Valid() && state == S.Follow(old(state), r, stale, io)
    {
      FollowChange(r, io);
      if stopped || conn.None? || stale || conn.value.awaiting || (HostRequest in r.reasons && r.more) {
        return;
      }
      Absorb(r);
    }

    method TakeStatus(r: Report, at: int, missed: nat, io: S.ChangeIO)
      requires Valid() && conn.Some? && GpioSet(r.monitored) && I.Core(state) && I.ScanInv(state)
      modifies this
      ensures Valid() && state == S.TakeStatus(old(state), r, at, missed, io)
    {
      I.ArriveKeeps(state, r, at, missed);
      var stale := Arrive(r, at, missed);
      Follow(r, stale, io);
    }

    method Received(data: seq<byte>, at: int, io: S.ChangeIO)
      requires Valid() && I.Core(state) && I.ScanInv(state)
      modifies this
      ensures Valid() && state == S.Received(old(state), data, at, io)
    {
      if conn.None? || |data| < S.REPORT_LEN || data[0] != S.REPORT_ID_STATUS {
        return;
      }
      var decoded := W.DecodeStatus(data[1..S.REPORT_LEN]);
      if decoded.None? {
        return;
      }
      var r := W.FromWire(decoded.value);
      var missed := S.Missed(conn.value.lastSeq, r.seqNo);
      conn := Some(conn.value.(lastSeq := Some(r.seqNo)));
      state := state.(conn := conn);
      TakeStatus(r, at, missed, io);
    }

    method FollowReply(r: Report, at: int, io: S.ChangeIO)
      requires Valid() && conn.Some? && I.Core(state) && I.ScanInv(state) && GpioSet(r.monitored)
      modifies this
      ensures Valid()
      ensures state == S.TakeStatus(
        old(state).(conn := Some(old(state).conn.value.(snapshotSeq := S.ReferenceOf(r)))), r, at, 0, io)
    {
      conn := Some(conn.value.(snapshotSeq := S.ReferenceOf(r)));
      state := state.(conn := conn);
      TakeStatus(r, at, 0, io);
    }

    method Snapshot(io: S.SnapshotIO)
      requires Valid() && conn.Some? && I.Core(state) && I.ScanInv(state)
      requires io.status.Got? ==> GpioSet(io.status.value.monitored)
      modifies this
      ensures Valid() && state == S.Snapshot(old(state), io)
    {
      if io.status.Failed? {
        Lost(io.at);
        return;
      }
      var running := stopped;
      FollowReply(io.status.value, io.at, io.change);
      stopped := running;
      state := state.(stopped := running);
    }

    method SettleFired(io: S.SnapshotIO)
      requires Valid() && I.Core(state) && I.ScanInv(state)
      requires io.status.Got? ==> GpioSet(io.status.value.monitored)
      modifies this
      ensures Valid() && state == S.SettleFired(old(state), io)
    {
      EndWait();
      if conn.Some? {
        Snapshot(io);
      }
    }

    method EndWait()
      requires Valid()
      modifies this
      ensures Valid()
      ensures state == old(state).(
        settleAt := None,
        conn := if old(state).conn.Some? then Some(old(state).conn.value.(awaiting := false)) else None)
    {
      settleAt := None;
      if conn.Some? {
        conn := Some(conn.value.(awaiting := false));
      }
      state := state.(settleAt := None, conn := conn);
    }

    // ---- looking for the device ----

    method Opened(awaiting: bool)
      requires Valid()
      modifies this
      ensures Valid()
      ensures state == old(state).(
        conn := Some(S.Conn(K.EMPTY, None, None, awaiting)), failure := S.NoFault, failures := 0, everConnected := true)
    {
      conn := Some(S.Conn(K.EMPTY, None, None, awaiting));
      failure, failures := S.NoFault, 0;
      everConnected := true;
      state := state.(conn := conn, failure := S.NoFault, failures := 0, everConnected := true);
    }

    method Attach(found: PinConfig, awaiting: bool, driven: set<nat>)
      requires Valid() && I.KnownInv(known)
      modifies this
      ensures Valid() && state == S.Attach(old(state), found, awaiting, driven)
    {
      var reconnected := everConnected;
      Opened(awaiting);
      SetConfig(found);
      Emit(S.Connected(found, reconnected));
      // A device that was away has reset its outputs.
      var outputs := OutputPins(found);
      if reconnected && outputs != {} {
        Emit(S.OutputsReset(outputs, S.Reconnect));
      } else if driven != {} {
        Emit(S.OutputsReset(driven, S.Written));
      }
    }

    method AttachWritten(found: PinConfig, at: int)
      requires Valid() && I.KnownInv(known) && target.Some?
      modifies this
      ensures Valid()
      ensures state == S.Attach(old(state), old(target).value, true, S.DrivenOutputs(found, old(target).value))
        .(settleAt := Some(at + S.SETTLE_TIMEOUT))
    {
      var driven := DrivenOutputs(found, target.value);
      Attach(target.value, true, driven);
      settleAt := Some(at + S.SETTLE_TIMEOUT);
      state := state.(settleAt := settleAt);
    }

    /** The device was opened and its configuration read: the target is written if it has another one. */
    method Settle(found: PinConfig, io: S.ConnectIO)
      requires Valid() && I.Core(state) && conn.None? && scanAt.None? && available.Some?
      requires io.snapshot.status.Got? ==> GpioSet(io.snapshot.status.value.monitored)
      modifies this
      ensures Valid() && state == S.Settle(old(state), found, io)
    {
      if target.None? || found == target.value {
        I.AttachKeeps(state, found, false, {});
        Attach(found, false, {});
        Snapshot(io.snapshot);
        return;
      }
      match io.outcome
      case Applied => AttachWritten(found, io.at);
      case Rejected =>
        stopped := true;
        state := state.(stopped := true);
      case Conflict(expected, seen) => Retry(S.ConflictFault(expected, seen), io.at);
      case SetFailed(error) => Retry(error, io.at);
    }

    method Connect(io: S.ConnectIO)
      requires Valid() && I.Core(state) && conn.None? && scanAt.None?
      requires io.snapshot.status.Got? ==> GpioSet(io.snapshot.status.value.monitored)
      modifies this
      ensures Valid() && state == S.Connect(old(state), io)
    {
      if io.open.Failed? {
        Retry(io.open.error, io.at);
      } else if io.info.Failed? {
        Retry(io.info.error, io.at);
      } else {
        available := Some(io.info.value);
        state := state.(available := available);
        if io.found.Failed? {
          Retry(io.found.error, io.at);
        } else {
          Settle(io.found.value, io);
        }
      }
    }

    method Choose(serials: seq<string>) returns (matching: seq<string>)
      ensures matching == S.Matching(serial, serials)
    {
      matching := [];
      for k := 0 to |serials|
        invariant matching + S.Matching(serial, serials[k..]) == S.Matching(serial, serials)
      {
        assert serials[k..][0] == serials[k] && serials[k..][1..] == serials[k + 1..];
        if serial.None? || serials[k] == serial.value {
          matching := matching + [serials[k]];
        }
      }
    }

    method NothingFound(at: int)
      requires Valid()
      modifies this
      ensures Valid() && state == old(state).(failure := S.NoFault, failures := 0, scanAt := Some(at + interval))
    {
      failure, failures := S.NoFault, 0;
      scanAt := Some(at + interval);
      state := state.(failure := S.NoFault, failures := 0, scanAt := scanAt);
    }

    method TryConnect(io: S.ConnectIO)
      requires Valid() && I.Core(state) && conn.None? && scanAt.None?
      requires io.snapshot.status.Got? ==> GpioSet(io.snapshot.status.value.monitored)
      modifies this
      ensures Valid() && state == S.TryConnect(old(state), io)
    {
      match io.scan
      case Unsupported =>
        stopped := true;
        state := state.(stopped := true);
      case ScanFailed(error) => Retry(error, io.at);
      case Entries(serials) =>
        var matching := Choose(serials);
        if matching == [] {
          NothingFound(io.at);
        } else if serial.None? && |matching| > 1 {
          stopped := true;
          state := state.(stopped := true);
        } else {
          serial := Some(matching[0]);
          state := state.(serial := serial);
          Connect(io);
        }
    }

    // ---- the loop ----

    /** One round of the main loop. */
    method Round(i: S.Input)
      requires Valid() && I.Inv(state) && I.Decoded(i)
      modifies this
      ensures Valid() && state == S.Step(old(state), i) && I.Inv(state)
    {
      I.StepKeeps(state, i);
      if stopped {
        return;
      }
      match i
      case ScanTimer(now, io) =>
        if S.Due(scanAt, now) {
          scanAt := None;
          state := state.(scanAt := None);
          TryConnect(io);
        }
      case RestoreTimer(now, io) =>
        if S.Due(restoreAt, now) {
          ArmRestore(None);
          RestoreTarget(io);
        }
      case SettleTimer(now, io) =>
        if S.Due(settleAt, now) {
          SettleFired(io);
        }
      case Incoming(data, at, io) => Received(data, at, io);
      case ReadFailed(at) => Lost(at);
      case NewTarget(config, io) => SetTarget(config, io);
    }
  }
}
