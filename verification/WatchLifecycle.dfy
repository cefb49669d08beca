/** The life of a connection in the watcher's event stream. */
module WatchLifecycle {
  import opened Protocol
  import opened WatchSpec
  import opened WatchInvariants
  import K = DeviceClock
  import W = StatusCodec

  /** What a listener knows from the events so far: whether the device is there, whether it ever was, how
      often its configuration was written back, and the outputs whose reset must be told next. */
  datatype Life = Life(up: bool, ever: bool, restores: nat, owed: set<nat>)

  function Lived(l: Life, e: Event): Life {
    match e
    case Connected(config, reconnected) => Life(true, true, l.restores, if reconnected then OutputPins(config) else {})
    case Disconnected => l.(up := false, owed := {})
    case PinConfigRestored(_, _) => l.(restores := l.restores + 1, owed := {})
    case _ => l.(owed := {})
  }

  function LifeAfter(events: seq<Event>): Life {
    if events == [] then Life(false, false, 0, {}) else Lived(LifeAfter(events[..|events| - 1]), events[|events| - 1])
  }

  /** The device connects only when it is away and disconnects only when it is there; reconnected tells the
      first connection from the others; failures to connect are told while it is away, and everything else
      while it is there; write-backs are numbered from 1. A reconnection is followed at once by the reset of
      its outputs, if it has any, and nothing else is. */
  predicate Allowed(l: Life, e: Event) {
    && (if l.owed != {} then e == OutputsReset(l.owed, Reconnect) else !(e.OutputsReset? && e.cause.Reconnect?))
    && match e
       case Connected(_, reconnected) => !l.up && reconnected == l.ever
       case ConnectFailed(_) => !l.up
       case PinConfigRestored(_, count) => l.up && count == l.restores + 1
       case _ => l.up
  }

  ghost predicate Orderly(events: seq<Event>) {
    events == [] ||
    (var before, last := events[..|events| - 1], events[|events| - 1];
     Orderly(before) && Allowed(LifeAfter(before), last))
  }

  ghost predicate LifeInv(w: Watch) {
    Orderly(w.emitted) && LifeAfter(w.emitted) == Life(w.conn.Some?, w.everConnected, w.restoreCount, {})
  }

  lemma OrderlySnoc(events: seq<Event>, e: Event)
    ensures Orderly(events + [e]) <==> Orderly(events) && Allowed(LifeAfter(events), e)
    ensures LifeAfter(events + [e]) == Lived(LifeAfter(events), e)
  {
    assert (events + [e])[..|events|] == events;
  }

  // ---- steps with a connection ----

  /** Every one of these events is an ON/OFF announcement. */
  ghost predicate AllTelling(out: seq<Event>) {
    forall i :: 0 <= i < |out| ==> out[i].InitialOnOff? || out[i].OnOffChange?
  }

  lemma {:induction false} TellingLives(events: seq<Event>, out: seq<Event>)
    requires Orderly(events) && LifeAfter(events).up && LifeAfter(events).owed == {} && AllTelling(out)
    ensures Orderly(events + out) && LifeAfter(events + out) == LifeAfter(events)
  {
    if out == [] {
      assert events + out == events;
    } else {
      var before := out[..|out| - 1];
      TellingLives(events, before);
      OrderlySnoc(events + before, out[|out| - 1]);
      assert events + out == events + before + [out[|out| - 1]];
    }
  }

  lemma {:induction false} EventsTell(
      a: Absorbed, events: seq<WireEvent>, timestamp: u64, low: set<nat>, clock: K.Clock)
    requires AllTelling(a.out)
    ensures AllTelling(AbsorbEvents(a, events, timestamp, low, clock).out)
    decreases |events|
  {
    if events != [] {
      EventsTell(AbsorbEvent(a, events[0], timestamp, low, clock), events[1..], timestamp, low, clock);
    }
  }

  lemma {:induction false} LevelsTell(a: Absorbed, r: Report, n: nat, low: set<nat>)
    requires n <= GPIO_COUNT && AllTelling(a.out)
    ensures AllTelling(AbsorbLevels(a, r, n, low).out)
    decreases GPIO_COUNT - n
  {
    if n < GPIO_COUNT {
      LevelsTell(AbsorbLevel(a, r, n, low), r, n + 1, low);
    }
  }

  lemma AbsorbLives(w: Watch, r: Report)
    requires LifeInv(w) && w.conn.Some?
    ensures LifeInv(Absorb(w, r))
  {
    var low, clock := LowPins(w), w.conn.value.clock;
    EventsTell(Absorbed(w.known, []), r.events, r.timestamp, low, clock);
    LevelsTell(AbsorbEvents(Absorbed(w.known, []), r.events, r.timestamp, low, clock), r, 0, low);
    TellingLives(w.emitted, AbsorbReport(w.known, r, low, clock).out);
  }

  lemma LostLives(w: Watch, at: int)
    requires LifeInv(w)
    ensures LifeInv(Lost(w, at))
  {
    OrderlySnoc(w.emitted, Disconnected);
  }

  lemma WroteLives(w: Watch, found: PinConfig, config: PinConfig, at: int)
    requires LifeInv(w) && w.conn.Some?
    ensures LifeInv(Wrote(w, found, config, at))
  {
    OrderlySnoc(w.emitted, OutputsReset(DrivenOutputs(found, config), Written));
  }

  lemma RestoredLives(w: Watch, found: PinConfig, target: PinConfig, io: RestoreIO)
    requires LifeInv(w) && w.conn.Some?
    ensures LifeInv(Restored(w, found, target, io))
  {
    match io.outcome
    case Applied =>
      OrderlySnoc(w.emitted, PinConfigRestored(found, w.restoreCount + 1));
      WroteLives(CountRestore(w, found), found, target, io.later);
    case SetFailed(_) => LostLives(w, io.later);
    case _ =>
  }

  lemma RestoreLives(w: Watch, io: RestoreIO)
    requires LifeInv(w)
    ensures LifeInv(RestoreTarget(w, io))
  {
    if w.target.Some? && w.conn.Some? {
      var w1 := w.(restoreAt := None, lastRestore := Some(io.at));
      if io.found.Failed? {
        LostLives(w1, io.later);
      } else {
        RestoredLives(SetConfig(w1, io.found.value), io.found.value, w.target.value, io);
      }
    }
  }

  lemma ChangeLives(w: Watch, io: ChangeIO)
    requires LifeInv(w) && w.conn.Some?
    ensures LifeInv(ConfigChange(w, io))
  {
    if io.found.Failed? {
      LostLives(w, io.armAt);
    } else {
      var w1 := SetConfig(w, io.found.value);
      OrderlySnoc(w1.emitted, PinConfigChanged(io.found.value));
      RestoreLives(w1, io.restore);
    }
  }

  lemma TargetWrittenLives(w: Watch, previous: Option<PinConfig>, found: PinConfig, config: PinConfig, io: TargetIO)
    requires LifeInv(w) && w.conn.Some?
    ensures LifeInv(TargetWritten(w, previous, found, config, io))
  {
    if io.outcome.Applied? {
      WroteLives(w, found, config, io.later);
    }
  }

  lemma TargetLives(w: Watch, config: PinConfig, io: TargetIO)
    requires LifeInv(w)
    ensures LifeInv(SetTarget(w, config, io))
  {
    if w.conn.Some? && io.found.Got? && !(w.available.Some? && !Suits(config, w.available.value)) {
      var w3 := SetConfig(w.(target := Some(config), restoreAt := None), io.found.value);
      TargetWrittenLives(w3, w.target, io.found.value, config, io);
    }
  }

  lemma ArriveLives(w: Watch, r: Report, at: int, missed: nat)
    requires LifeInv(w) && w.conn.Some?
    ensures LifeInv(Arrive(w, r, at, missed)) && Arrive(w, r, at, missed).conn.Some?
  {
    var e := StatusReceived(r, missed, OnOff(r, LowPins(w)));
    OrderlySnoc(w.emitted, e);
    OrderlySnoc(w.emitted + [e], OutputsReset(r.outputs, Suspend));
  }

  lemma StatusLives(w: Watch, r: Report, at: int, missed: nat, io: ChangeIO)
    requires LifeInv(w) && w.conn.Some?
    ensures LifeInv(TakeStatus(w, r, at, missed, io))
  {
    ArriveLives(w, r, at, missed);
    var w1 := Arrive(w, r, at, missed);
    ChangeLives(w1, io);
    var w2 := if ConfigChanged in r.reasons then ConfigChange(w1, io) else w1;
    if w2.conn.Some? {
      AbsorbLives(w2, r);
    }
  }

  lemma SnapshotLives(w: Watch, io: SnapshotIO)
    requires LifeInv(w) && w.conn.Some?
    ensures LifeInv(Snapshot(w, io))
  {
    match io.status
    case Failed(_) => LostLives(w, io.at);
    case Got(r) =>
      StatusLives(w.(conn := Some(w.conn.value.(snapshotSeq := ReferenceOf(r)))), r, io.at, 0, io.change);
  }

  lemma ReceivedLives(w: Watch, data: seq<byte>, at: int, io: ChangeIO)
    requires LifeInv(w)
    ensures LifeInv(Received(w, data, at, io))
  {
    if w.conn.Some? && |data| >= REPORT_LEN && W.HostDecode(data[1..REPORT_LEN]).Some? {
      var r, c := W.HostDecode(data[1..REPORT_LEN]).value, w.conn.value;
      StatusLives(w.(conn := Some(c.(lastSeq := Some(r.seqNo)))), r, at, Missed(c.lastSeq, r.seqNo), io);
    }
  }

  // ---- looking for the device ----

  lemma RetryLives(w: Watch, error: Fault, at: int)
    requires LifeInv(w) && w.conn.None?
    ensures LifeInv(Retry(w, error, at))
  {
    var failures := if error == w.failure then w.failures + 1 else 1;
    var w1 := w.(failure := error, failures := failures);
    if failures == 2 {
      OrderlySnoc(w1.emitted, ConnectFailed(error));
      assert NoteFailure(w, error) == Emit(w1, ConnectFailed(error));
    } else {
      assert NoteFailure(w, error) == w1;
    }
  }

  lemma AttachLives(w: Watch, found: PinConfig, awaiting: bool, driven: set<nat>)
    requires LifeInv(w) && w.conn.None?
    ensures LifeInv(Attach(w, found, awaiting, driven)) && Attach(w, found, awaiting, driven).conn.Some?
  {
    var e := Connected(found, w.everConnected);
    OrderlySnoc(w.emitted, e);
    OrderlySnoc(w.emitted + [e], OutputsReset(OutputPins(found), Reconnect));
    OrderlySnoc(w.emitted + [e], OutputsReset(driven, Written));
  }

  lemma SettleLives(w: Watch, found: PinConfig, io: ConnectIO)
    requires LifeInv(w) && w.conn.None?
    ensures LifeInv(Settle(w, found, io))
  {
    if w.target.None? || found == w.target.value {
      AttachLives(w, found, false, {});
      SnapshotLives(Attach(w, found, false, {}), io.snapshot);
    } else {
      match io.outcome
      case Applied => AttachLives(w, w.target.value, true, DrivenOutputs(found, w.target.value));
      case Rejected =>
      case Conflict(expected, seen) => RetryLives(w, ConflictFault(expected, seen), io.at);
      case SetFailed(error) => RetryLives(w, error, io.at);
    }
  }

  lemma ConnectLives(w: Watch, io: ConnectIO)
    requires LifeInv(w) && w.conn.None?
    ensures LifeInv(Connect(w, io))
  {
    if io.open.Failed? {
      RetryLives(w, io.open.error, io.at);
    } else if io.info.Failed? {
      RetryLives(w, io.info.error, io.at);
    } else {
      var w1 := w.(available := Some(io.info.value));
      if io.found.Failed? {
        RetryLives(w1, io.found.error, io.at);
      } else {
        SettleLives(w1, io.found.value, io);
      }
    }
  }

  lemma TryConnectLives(w: Watch, io: ConnectIO)
    requires LifeInv(w) && w.conn.None?
    ensures LifeInv(TryConnect(w, io))
  {
    match io.scan
    case Unsupported =>
    case ScanFailed(error) => RetryLives(w, error, io.at);
    case Entries(serials) =>
      var matching := Matching(w.serial, serials);
      if matching != [] && !(w.serial.None? && |matching| > 1) {
        ConnectLives(w.(serial := Some(matching[0])), io);
      }
  }

  // ---- runs ----

  lemma StepLives(w: Watch, i: Input)
    requires Inv(w) && LifeInv(w)
    ensures LifeInv(Step(w, i))
  {
    if !w.stopped {
      match i
      case ScanTimer(now, io) =>
        if Due(w.scanAt, now) {
          TryConnectLives(w.(scanAt := None), io);
        }
      case RestoreTimer(now, io) => RestoreLives(w.(restoreAt := None), io);
      case SettleTimer(now, io) =>
        if Due(w.settleAt, now) {
          SnapshotLives(w.(settleAt := None, conn := Some(w.conn.value.(awaiting := false))), io);
        }
      case Incoming(data, at, io) => ReceivedLives(w, data, at, io);
      case ReadFailed(at) => LostLives(w, at);
      case NewTarget(config, io) => TargetLives(w, config, io);
    }
  }

  /** Over any run, whatever the outside world answers, the event stream is orderly, and the watcher is
      connected exactly when the stream says so. */
  lemma {:induction false} AlwaysOrderly(
      activeLow: map<nat, bool>, interval: nat, serial: Option<string>, target: Option<PinConfig>, now: int,
      inputs: seq<Input>)
    requires forall k :: 0 <= k < |inputs| ==> Decoded(inputs[k])
    ensures LifeInv(Run(Init(activeLow, interval, serial, target, now), inputs))
  {
    if inputs != [] {
      var before := inputs[..|inputs| - 1];
      AlwaysOrderly(activeLow, interval, serial, target, now, before);
      AlwaysInv(activeLow, interval, serial, target, now, before);
      StepLives(Run(Init(activeLow, interval, serial, target, now), before), inputs[|inputs| - 1]);
    }
  }
}
