/** What the watcher keeps over any run: whatever reports arrive, whatever is lost, and however often the
    device disappears and comes back. */
module WatchInvariants {
  import opened Protocol
  import opened WatchSpec
  import K = DeviceClock
  import W = StatusCodec

  // ---- timers and connection ----

  /** A settle deadline is armed exactly while a connection waits for its configuration, so reports are
      never ignored for ever; without a connection neither a settle nor a restore is armed. */
  ghost predicate TimersInv(w: Watch) {
    && (w.conn.Some? ==> (w.conn.value.awaiting <==> w.settleAt.Some?) && w.available.Some?)
    && (w.conn.None? ==> w.restoreAt.None? && w.settleAt.None?)
  }

  /** The watcher looks for the device exactly while it has no connection. */
  ghost predicate ScanInv(w: Watch) {
    w.conn.None? <==> w.scanAt.Some?
  }

  ghost predicate KnownInv(known: map<nat, bool>) {
    forall n :: n in known ==> n < GPIO_COUNT
  }

  // ---- the grammar of events ----

  /** The ON/OFF last announced for each pin. */
  function Announced(events: seq<Event>): map<nat, bool> {
    if events == [] then map[]
    else
      var before, last := Announced(events[..|events| - 1]), events[|events| - 1];
      if last.InitialOnOff? then before + last.learned
      else if last.OnOffChange? then before[last.gpio := last.isOn]
      else before
  }

  /** No pin changes before it was announced, and a change always negates the last announcement. */
  ghost predicate Grammar(events: seq<Event>) {
    events == [] ||
    (var before, last := events[..|events| - 1], events[|events| - 1];
     && Grammar(before)
     && (last.OnOffChange? ==> last.gpio in Announced(before) && last.isOn == !Announced(before)[last.gpio]))
  }

  ghost predicate Agrees(known: map<nat, bool>, events: seq<Event>) {
    forall n :: n in known ==> n in Announced(events) && Announced(events)[n] == known[n]
  }

  ghost predicate EventsInv(w: Watch) {
    Grammar(w.emitted) && Agrees(w.known, w.emitted)
  }

  lemma Snoc(events: seq<Event>, e: Event)
    ensures (events + [e])[..|events|] == events && (events + [e])[|events|] == e
    ensures Announced(events + [e]) ==
      if e.InitialOnOff? then Announced(events) + e.learned
      else if e.OnOffChange? then Announced(events)[e.gpio := e.isOn]
      else Announced(events)
    ensures Grammar(events + [e]) <==>
      Grammar(events)
      && (e.OnOffChange? ==> e.gpio in Announced(events) && e.isOn == !Announced(events)[e.gpio])
  {
    assert (events + [e])[..|events|] == events;
  }

  /** Events other than ON/OFF announcements do not matter to the grammar. */
  lemma EmitOther(w: Watch, e: Event)
    requires EventsInv(w) && !e.InitialOnOff? && !e.OnOffChange?
    ensures EventsInv(Emit(w, e))
  {
    Snoc(w.emitted, e);
  }

  // ---- absorbing ----

  ghost predicate AbsorbInv(before: seq<Event>, a: Absorbed) {
    Grammar(before + a.out) && Agrees(a.known, before + a.out) && KnownInv(a.known)
  }

  lemma EventKeeps(before: seq<Event>, a: Absorbed, e: WireEvent, timestamp: u64, low: set<nat>, clock: K.Clock)
    requires AbsorbInv(before, a)
    ensures AbsorbInv(before, AbsorbEvent(a, e, timestamp, low, clock))
  {
    if e.gpio in a.known {
      var start := StartUs(e, timestamp);
      var last := Change(e.gpio, e.level, low, HostTime(clock, start), start, false);
      var lost := Change(e.gpio, !e.level, low, None, None, true);
      var all := before + a.out;
      if IsOn(e.level, low, e.gpio) == a.known[e.gpio] {
        Snoc(all, lost);
        Snoc(all + [lost], last);
        assert before + (a.out + [lost] + [last]) == all + [lost] + [last];
      } else {
        Snoc(all, last);
        assert before + (a.out + [] + [last]) == all + [last];
      }
    }
  }

  lemma {:induction false} EventsKeep(
      before: seq<Event>, a: Absorbed, events: seq<WireEvent>, timestamp: u64, low: set<nat>, clock: K.Clock)
    requires AbsorbInv(before, a)
    ensures AbsorbInv(before, AbsorbEvents(a, events, timestamp, low, clock))
    ensures AbsorbEvents(a, events, timestamp, low, clock).known.Keys == a.known.Keys
    decreases |events|
  {
    if events != [] {
      EventKeeps(before, a, events[0], timestamp, low, clock);
      EventsKeep(before, AbsorbEvent(a, events[0], timestamp, low, clock), events[1..], timestamp, low, clock);
    }
  }

  /** While levels are compared: pins that were known agree with the announcements, and the others are
      the ones about to be announced. */
  ghost predicate LevelsInv(before: seq<Event>, a: Absorbed, learned: map<nat, bool>, n: nat, r: Report, low: set<nat>) {
    && Grammar(before + a.out) && KnownInv(a.known)
    && (forall m :: m in a.known && m !in learned ==>
          m in Announced(before + a.out) && Announced(before + a.out)[m] == a.known[m])
    && (forall m :: m in a.known && m in learned ==> a.known[m] == learned[m] && m < n)
    && (forall m :: 0 <= m < n && m in r.monitored ==> m in a.known && a.known[m] == IsOn(m in r.levels, low, m))
  }

  lemma DifferenceKeeps(before: seq<Event>, a: Absorbed, learned: map<nat, bool>, n: nat, r: Report, low: set<nat>)
    requires n < GPIO_COUNT && LevelsInv(before, a, learned, n, r, low)
    requires n in r.monitored && n in a.known && a.known[n] != IsOn(n in r.levels, low, n)
    ensures LevelsInv(before, AbsorbLevel(a, r, n, low), learned, n + 1, r, low)
  {
    var change := Change(n, n in r.levels, low, None, None, true);
    Snoc(before + a.out, change);
    assert before + (a.out + [change]) == before + a.out + [change];
  }

  lemma LevelKeeps(before: seq<Event>, a: Absorbed, learned: map<nat, bool>, n: nat, r: Report, low: set<nat>)
    requires n < GPIO_COUNT && LevelsInv(before, a, learned, n, r, low)
    requires n in r.monitored && n !in a.known ==> n in learned
    requires n in learned ==> learned[n] == IsOn(n in r.levels, low, n)
    ensures LevelsInv(before, AbsorbLevel(a, r, n, low), learned, n + 1, r, low)
  {
    if n in r.monitored && n in a.known && a.known[n] != IsOn(n in r.levels, low, n) {
      DifferenceKeeps(before, a, learned, n, r, low);
    }
  }

  lemma {:induction false} LevelsKeep(
      before: seq<Event>, a: Absorbed, learned: map<nat, bool>, n: nat, r: Report, low: set<nat>)
    requires n <= GPIO_COUNT && LevelsInv(before, a, learned, n, r, low)
    requires forall m :: n <= m < GPIO_COUNT && m in r.monitored && m !in a.known ==> m in learned
    requires forall m :: m in learned ==> learned[m] == IsOn(m in r.levels, low, m)
    ensures LevelsInv(before, AbsorbLevels(a, r, n, low), learned, GPIO_COUNT, r, low)
    decreases GPIO_COUNT - n
  {
    if n < GPIO_COUNT {
      LevelKeeps(before, a, learned, n, r, low);
      LevelsKeep(before, AbsorbLevel(a, r, n, low), learned, n + 1, r, low);
    }
  }

  /** Absorbing a report keeps the grammar, and afterwards exactly the monitored pins are known, each with
      the ON/OFF its level in the report stands for. */
  lemma ReportKeeps(before: seq<Event>, known: map<nat, bool>, r: Report, low: set<nat>, clock: K.Clock)
    requires Grammar(before) && Agrees(known, before) && KnownInv(known) && GpioSet(r.monitored)
    ensures var a := AbsorbReport(known, r, low, clock);
      AbsorbInv(before, a) && a.known == OnOff(r, low)
  {
    var a0 := Absorbed(known, []);
    assert before + a0.out == before;
    EventsKeep(before, a0, r.events, r.timestamp, low, clock);
    var a1 := AbsorbEvents(a0, r.events, r.timestamp, low, clock);
    var learned := Learn(a1.known, r, low);
    LevelsKeep(before, a1, learned, 0, r, low);
    AnnounceLearned(before, AbsorbLevels(a1, r, 0, low), learned, r, low);
  }

  lemma AnnounceLearned(before: seq<Event>, a: Absorbed, learned: map<nat, bool>, r: Report, low: set<nat>)
    requires LevelsInv(before, a, learned, GPIO_COUNT, r, low) && GpioSet(r.monitored)
    ensures var known := map n | n in a.known && n in r.monitored :: a.known[n];
      && known == OnOff(r, low)
      && AbsorbInv(before, Absorbed(known, if learned == map[] then a.out else a.out + [InitialOnOff(learned)]))
  {
    Snoc(before + a.out, InitialOnOff(learned));
    assert before + (a.out + [InitialOnOff(learned)]) == before + a.out + [InitialOnOff(learned)];
  }

  lemma AbsorbKeeps(w: Watch, r: Report)
    requires w.conn.Some? && EventsInv(w) && KnownInv(w.known) && GpioSet(r.monitored)
    ensures var w' := Absorb(w, r);
      EventsInv(w') && w'.known == OnOff(r, LowPins(w)) && KnownInv(w'.known)
  {
    ReportKeeps(w.emitted, w.known, r, LowPins(w), w.conn.value.clock);
  }

  // ---- the whole invariant ----

  ghost predicate Core(w: Watch) {
    TimersInv(w) && EventsInv(w) && KnownInv(w.known)
  }

  ghost predicate Inv(w: Watch) {
    Core(w) && (w.stopped || ScanInv(w))
  }

  lemma LostKeeps(w: Watch, at: int)
    requires Core(w) && (ScanInv(w) || w.conn.Some?)
    ensures Core(Lost(w, at)) && ScanInv(Lost(w, at)) && Lost(w, at).stopped == w.stopped
  {
    if w.conn.Some? {
      EmitOther(DropConnection(w), Disconnected);
    }
  }

  lemma SetConfigKeeps(w: Watch, config: PinConfig)
    requires Core(w)
    ensures Core(SetConfig(w, config))
  {
  }

  lemma WroteKeeps(w: Watch, found: PinConfig, config: PinConfig, at: int)
    requires Core(w) && w.conn.Some?
    ensures var w' := Wrote(w, found, config, at); Core(w') && w'.conn.Some? && w'.scanAt == w.scanAt
  {
    SetConfigKeeps(w, config);
    var w1 := SetConfig(w, config);
    var w2 := w1.(conn := Some(w1.conn.value.(awaiting := true)), settleAt := Some(at + SETTLE_TIMEOUT));
    var driven := DrivenOutputs(found, config);
    if driven != {} {
      EmitOther(w2, OutputsReset(driven, Written));
    }
  }

  lemma RestoredKeeps(w: Watch, found: PinConfig, target: PinConfig, io: RestoreIO)
    requires Core(w) && ScanInv(w) && w.conn.Some?
    ensures Core(Restored(w, found, target, io)) && ScanInv(Restored(w, found, target, io))
  {
    match io.outcome
    case Applied =>
      CountKeeps(w, found);
      WroteKeeps(CountRestore(w, found), found, target, io.later);
    case SetFailed(_) => LostKeeps(w, io.later);
    case _ =>
  }

  lemma CountKeeps(w: Watch, found: PinConfig)
    requires Core(w)
    ensures Core(CountRestore(w, found)) && CountRestore(w, found).scanAt == w.scanAt
  {
    EmitOther(w.(restoreCount := w.restoreCount + 1), PinConfigRestored(found, w.restoreCount + 1));
  }

  lemma RestoreKeeps(w: Watch, io: RestoreIO)
    requires Core(w) && ScanInv(w)
    ensures Core(RestoreTarget(w, io)) && ScanInv(RestoreTarget(w, io))
  {
    if w.target.Some? && w.conn.Some? {
      var w1 := w.(restoreAt := None, lastRestore := Some(io.at));
      if io.found.Failed? {
        LostKeeps(w1, io.later);
      } else {
        SetConfigKeeps(w1, io.found.value);
        RestoredKeeps(SetConfig(w1, io.found.value), io.found.value, w.target.value, io);
      }
    }
  }

  lemma ChangeKeeps(w: Watch, io: ChangeIO)
    requires Core(w) && ScanInv(w) && w.conn.Some?
    ensures Core(ConfigChange(w, io)) && ScanInv(ConfigChange(w, io))
  {
    if io.found.Failed? {
      LostKeeps(w, io.armAt);
    } else {
      SetConfigKeeps(w, io.found.value);
      var w1 := SetConfig(w, io.found.value);
      if w.target.None? {
        EmitOther(w1, PinConfigChanged(io.found.value));
      } else if io.found.value != w.target.value && !TooSoon(w, io.now) {
        RestoreKeeps(w1, io.restore);
        assert ConfigChange(w, io) == RestoreTarget(w1, io.restore);
      }
    }
  }

  predicate TooSoon(w: Watch, now: int) {
    w.lastRestore.Some? && now - w.lastRestore.value < RESTORE_INTERVAL
  }

  /** A connection that survives keeps its clock estimate. */
  ghost predicate SameClock(w: Watch, w': Watch) {
    w'.conn.Some? ==> w.conn.Some? && w'.conn.value.clock == w.conn.value.clock
  }

  /** What the closing steps of a write leave alone. */
  lemma WroteFrame(w: Watch, found: PinConfig, config: PinConfig, at: int)
    ensures var w' := Wrote(w, found, config, at);
      && w'.lastRestore == w.lastRestore && w'.restoreAt == w.restoreAt && w'.target == w.target
      && w'.stopped == w.stopped && w'.config == config && SameClock(w, w')
  {
  }

  lemma LostFrame(w: Watch, at: int)
    ensures var w' := Lost(w, at);
      && w'.lastRestore == w.lastRestore && w'.target == w.target && w'.conn.None?
      && (w'.restoreAt.None? || w'.restoreAt == w.restoreAt)
  {
  }

  lemma RestoredFrame(w: Watch, found: PinConfig, target: PinConfig, io: RestoreIO)
    requires w.conn.Some?
    ensures var w' := Restored(w, found, target, io);
      && w'.lastRestore == w.lastRestore && w'.target == w.target
      && (w'.restoreAt == Some(io.later + RESTORE_INTERVAL) || w'.restoreAt == w.restoreAt || w'.restoreAt.None?)
      && (w'.stopped || w'.conn.None? || w'.config == target || w'.restoreAt.Some?) && SameClock(w, w')
  {
    match io.outcome
    case Applied => WroteFrame(CountRestore(w, found), found, target, io.later);
    case SetFailed(_) => LostFrame(w, io.later);
    case _ =>
  }

  lemma ChangeFrame(w: Watch, io: ChangeIO)
    requires w.conn.Some?
    ensures SameClock(w, ConfigChange(w, io))
  {
    if io.found.Got? && w.target.Some? && io.restore.found.Got? {
      var w1 := SetConfig(w, io.found.value).(restoreAt := None, lastRestore := Some(io.restore.at));
      RestoredFrame(SetConfig(w1, io.restore.found.value), io.restore.found.value, w.target.value, io.restore);
    }
  }

  lemma ArriveKeeps(w: Watch, r: Report, at: int, missed: nat)
    requires Core(w) && w.conn.Some?
    ensures var w' := Arrive(w, r, at, missed);
      Core(w') && w'.conn.Some? && w'.scanAt == w.scanAt && w'.stopped == w.stopped
  {
    var w' := Arrive(w, r, at, missed);
    var e := StatusReceived(r, missed, OnOff(r, LowPins(w)));
    Snoc(w.emitted, e);
    Snoc(w.emitted + [e], OutputsReset(r.outputs, Suspend));
  }

  lemma StatusKeeps(w: Watch, r: Report, at: int, missed: nat, io: ChangeIO)
    requires Core(w) && ScanInv(w) && w.conn.Some? && GpioSet(r.monitored)
    ensures var w' := TakeStatus(w, r, at, missed, io); Core(w') && ScanInv(w')
  {
    ArriveKeeps(w, r, at, missed);
    var w1 := Arrive(w, r, at, missed);
    ChangeKeeps(w1, io);
    var w2 := if ConfigChanged in r.reasons then ConfigChange(w1, io) else w1;
    if w2.conn.Some? {
      AbsorbKeeps(w2, r);
    }
  }

  lemma DecodedGpios(p: seq<byte>)
    ensures W.HostDecode(p).Some? ==> GpioSet(W.HostDecode(p).value.monitored)
  {
  }

  lemma ReceivedKeeps(w: Watch, data: seq<byte>, at: int, io: ChangeIO)
    requires Core(w) && ScanInv(w)
    ensures Core(Received(w, data, at, io)) && ScanInv(Received(w, data, at, io))
  {
    if w.conn.Some? && |data| >= REPORT_LEN && data[0] == REPORT_ID_STATUS {
      DecodedGpios(data[1..REPORT_LEN]);
      match W.HostDecode(data[1..REPORT_LEN])
      case None =>
      case Some(r) =>
        var c := w.conn.value;
        StatusKeeps(w.(conn := Some(c.(lastSeq := Some(r.seqNo)))), r, at, Missed(c.lastSeq, r.seqNo), io);
    }
  }

  lemma SnapshotKeeps(w: Watch, io: SnapshotIO)
    requires Core(w) && w.conn.Some? && w.scanAt.None?
    requires io.status.Got? ==> GpioSet(io.status.value.monitored)
    ensures Core(Snapshot(w, io)) && ScanInv(Snapshot(w, io)) && Snapshot(w, io).stopped == w.stopped
  {
    match io.status
    case Failed(_) => LostKeeps(w, io.at);
    case Got(r) =>
      StatusKeeps(w.(conn := Some(w.conn.value.(snapshotSeq := ReferenceOf(r)))), r, io.at, 0, io.change);
  }

  lemma AttachKeeps(w: Watch, found: PinConfig, awaiting: bool, driven: set<nat>)
    requires EventsInv(w) && KnownInv(w.known) && w.conn.None? && w.available.Some?
    ensures var w' := Attach(w, found, awaiting, driven);
      && EventsInv(w') && KnownInv(w'.known) && w'.available.Some? && w'.scanAt == w.scanAt && w'.settleAt == w.settleAt
      && w'.conn.Some? && w'.conn.value.awaiting == awaiting && w'.stopped == w.stopped
  {
    var w1 := SetConfig(w.(conn := Some(Conn(K.EMPTY, None, None, awaiting)), failure := NoFault, failures := 0,
                           everConnected := true), found);
    EmitOther(w1, Connected(found, w.everConnected));
    var w2 := Emit(w1, Connected(found, w.everConnected));
    EmitOther(w2, OutputsReset(OutputPins(found), Reconnect));
    EmitOther(w2, OutputsReset(driven, Written));
  }

  lemma RetryKeeps(w: Watch, error: Fault, at: int)
    requires Core(w) && w.conn.None?
    ensures Core(Retry(w, error, at)) && ScanInv(Retry(w, error, at))
  {
    var failures := if error == w.failure then w.failures + 1 else 1;
    var w1 := w.(failure := error, failures := failures);
    if failures == 2 {
      EmitOther(w1, ConnectFailed(error));
      assert NoteFailure(w, error) == Emit(w1, ConnectFailed(error));
    } else {
      assert NoteFailure(w, error) == w1;
    }
  }

  /** Every answer decoded from a device names real GPIOs only. */
  ghost predicate Decoded(i: Input) {
    var snapshot := match i
      case ScanTimer(_, io) => io.snapshot.status
      case SettleTimer(_, io) => io.status
      case _ => Failed(NoFault);
    snapshot.Got? ==> GpioSet(snapshot.value.monitored)
  }

  lemma SettleKeeps(w: Watch, found: PinConfig, io: ConnectIO)
    requires Core(w) && w.conn.None? && w.scanAt.None? && w.available.Some?
    requires io.snapshot.status.Got? ==> GpioSet(io.snapshot.status.value.monitored)
    ensures var w' := Settle(w, found, io); Core(w') && (w'.stopped || ScanInv(w'))
  {
    if w.target.None? || found == w.target.value {
      AttachKeeps(w, found, false, {});
      SnapshotKeeps(Attach(w, found, false, {}), io.snapshot);
    } else {
      match io.outcome
      case Applied => AttachKeeps(w, w.target.value, true, DrivenOutputs(found, w.target.value));
      case Rejected =>
      case Conflict(expected, seen) => RetryKeeps(w, ConflictFault(expected, seen), io.at);
      case SetFailed(error) => RetryKeeps(w, error, io.at);
    }
  }

  lemma ConnectKeeps(w: Watch, io: ConnectIO)
    requires Core(w) && w.conn.None? && w.scanAt.None?
    requires io.snapshot.status.Got? ==> GpioSet(io.snapshot.status.value.monitored)
    ensures var w' := Connect(w, io); Core(w') && (w'.stopped || ScanInv(w'))
  {
    if io.open.Failed? {
      RetryKeeps(w, io.open.error, io.at);
    } else if io.info.Failed? {
      RetryKeeps(w, io.info.error, io.at);
    } else {
      var w1 := w.(available := Some(io.info.value));
      if io.found.Failed? {
        RetryKeeps(w1, io.found.error, io.at);
      } else {
        SettleKeeps(w1, io.found.value, io);
      }
    }
  }

  lemma TryConnectKeeps(w: Watch, io: ConnectIO)
    requires Core(w) && w.conn.None? && w.scanAt.None?
    requires io.snapshot.status.Got? ==> GpioSet(io.snapshot.status.value.monitored)
    ensures var w' := TryConnect(w, io); Core(w') && (w'.stopped || ScanInv(w'))
  {
    match io.scan
    case Unsupported =>
    case ScanFailed(error) => RetryKeeps(w, error, io.at);
    case Entries(serials) =>
      var matching := Matching(w.serial, serials);
      if matching != [] {
        ConnectKeeps(w.(serial := Some(matching[0])), io);
      }
  }

  lemma TargetWrittenKeeps(w: Watch, previous: Option<PinConfig>, found: PinConfig, config: PinConfig, io: TargetIO)
    requires Core(w) && ScanInv(w) && w.conn.Some?
    ensures Core(TargetWritten(w, previous, found, config, io)) && ScanInv(TargetWritten(w, previous, found, config, io))
  {
    if io.outcome.Applied? {
      WroteKeeps(w, found, config, io.later);
    }
  }

  lemma TargetKeeps(w: Watch, config: PinConfig, io: TargetIO)
    requires Core(w) && ScanInv(w)
    ensures Core(SetTarget(w, config, io)) && ScanInv(SetTarget(w, config, io))
  {
    if w.conn.Some? && io.found.Got? {
      var w2 := w.(target := Some(config), restoreAt := None);
      SetConfigKeeps(w2, io.found.value);
      TargetWrittenKeeps(SetConfig(w2, io.found.value), w.target, io.found.value, config, io);
    }
  }

  lemma StepKeeps(w: Watch, i: Input)
    requires Inv(w) && Decoded(i)
    ensures Inv(Step(w, i))
  {
    if !w.stopped {
      match i
      case ScanTimer(now, io) =>
        if Due(w.scanAt, now) {
          TryConnectKeeps(w.(scanAt := None), io);
        }
      case RestoreTimer(now, io) => RestoreKeeps(w.(restoreAt := None), io);
      case SettleTimer(now, io) =>
        if Due(w.settleAt, now) {
          SnapshotKeeps(w.(settleAt := None, conn := Some(w.conn.value.(awaiting := false))), io);
        }
      case Incoming(data, at, io) => ReceivedKeeps(w, data, at, io);
      case ReadFailed(at) => LostKeeps(w, at);
      case NewTarget(config, io) => TargetKeeps(w, config, io);
    }
  }

  /** Whatever arrives in whatever order, the watcher keeps its timers, its knowledge and its grammar. */
  lemma {:induction false} AlwaysInv(
      activeLow: map<nat, bool>, interval: nat, serial: Option<string>, target: Option<PinConfig>, now: int,
      inputs: seq<Input>)
    requires forall k :: 0 <= k < |inputs| ==> Decoded(inputs[k])
    ensures Inv(Run(Init(activeLow, interval, serial, target, now), inputs))
  {
    if inputs != [] {
      AlwaysInv(activeLow, interval, serial, target, now, inputs[..|inputs| - 1]);
      StepKeeps(Run(Init(activeLow, interval, serial, target, now), inputs[..|inputs| - 1]), inputs[|inputs| - 1]);
    }
  }

  /** The k-th event of any run, when it is an ON/OFF change of a pin, follows an announcement of that pin
      and negates the last one. */
  lemma ChangesFollowAnnouncements(
      activeLow: map<nat, bool>, interval: nat, serial: Option<string>, target: Option<PinConfig>, now: int,
      inputs: seq<Input>, k: nat)
    requires forall j :: 0 <= j < |inputs| ==> Decoded(inputs[j])
    requires var e := Run(Init(activeLow, interval, serial, target, now), inputs).emitted;
      k < |e| && e[k].OnOffChange?
    ensures var e := Run(Init(activeLow, interval, serial, target, now), inputs).emitted;
      e[k].gpio in Announced(e[..k]) && e[k].isOn == !Announced(e[..k])[e[k].gpio]
  {
    AlwaysInv(activeLow, interval, serial, target, now, inputs);
    GrammarAt(Run(Init(activeLow, interval, serial, target, now), inputs).emitted, k);
  }

  lemma {:induction false} GrammarAt(events: seq<Event>, k: nat)
    requires Grammar(events) && k < |events|
    ensures events[k].OnOffChange? ==>
      events[k].gpio in Announced(events[..k]) && events[k].isOn == !Announced(events[..k])[events[k].gpio]
    decreases |events|
  {
    var before := events[..|events| - 1];
    if k < |before| {
      GrammarAt(before, k);
      assert before[..k] == events[..k];
    }
  }
}
