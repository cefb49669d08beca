/** The counts in the watcher's event stream: reports that were missed, and failures that repeat. */
module WatchCounts {
  import opened Protocol
  import opened WatchSpec
  import opened WatchInvariants
  import L = WatchLifecycle
  import W = StatusCodec

  // ---- missed reports ----

  function MissedOf(e: Event): nat {
    if e.StatusReceived? then e.missed else 0
  }

  /** The missed counts of all events added up. */
  function MissedTold(events: seq<Event>): nat {
    if events == [] then 0 else MissedTold(events[..|events| - 1]) + MissedOf(events[|events| - 1])
  }

  lemma MissedSnoc(events: seq<Event>, e: Event)
    ensures MissedTold(events + [e]) == MissedTold(events) + MissedOf(e)
  {
    assert (events + [e])[..|events|] == events;
  }

  lemma {:induction false} TellingMissesNone(events: seq<Event>, out: seq<Event>)
    requires L.AllTelling(out)
    ensures MissedTold(events + out) == MissedTold(events)
  {
    if out == [] {
      assert events + out == events;
    } else {
      TellingMissesNone(events, out[..|out| - 1]);
      MissedSnoc(events + out[..|out| - 1], out[|out| - 1]);
      assert events + out == events + out[..|out| - 1] + [out[|out| - 1]];
    }
  }

  /** The step counts no report, and a connection that stays keeps its last number. */
  ghost predicate CountsNone(w: Watch, w': Watch) {
    && MissedTold(w'.emitted) == MissedTold(w.emitted)
    && (w'.conn.Some? ==> w.conn.Some? && w'.conn.value.lastSeq == w.conn.value.lastSeq)
  }

  lemma EmitCounts(w: Watch, e: Event)
    requires !e.StatusReceived?
    ensures CountsNone(w, Emit(w, e))
  {
    MissedSnoc(w.emitted, e);
  }

  lemma AbsorbCounts(w: Watch, r: Report)
    requires w.conn.Some?
    ensures CountsNone(w, Absorb(w, r))
  {
    var low, clock, a0 := LowPins(w), w.conn.value.clock, Absorbed(w.known, []);
    L.EventsTell(a0, r.events, r.timestamp, low, clock);
    L.LevelsTell(AbsorbEvents(a0, r.events, r.timestamp, low, clock), r, 0, low);
    TellingMissesNone(w.emitted, AbsorbReport(w.known, r, low, clock).out);
  }

  lemma LostCounts(w: Watch, at: int)
    ensures CountsNone(w, Lost(w, at))
  {
    if w.conn.Some? {
      EmitCounts(DropConnection(w), Disconnected);
    }
  }

  lemma WroteCounts(w: Watch, found: PinConfig, config: PinConfig, at: int)
    requires w.conn.Some?
    ensures CountsNone(w, Wrote(w, found, config, at))
  {
    MissedSnoc(w.emitted, OutputsReset(DrivenOutputs(found, config), Written));
  }

  lemma RestoredCounts(w: Watch, found: PinConfig, target: PinConfig, io: RestoreIO)
    requires w.conn.Some?
    ensures CountsNone(w, Restored(w, found, target, io))
  {
    match io.outcome
    case Applied =>
      MissedSnoc(w.emitted, PinConfigRestored(found, w.restoreCount + 1));
      WroteCounts(CountRestore(w, found), found, target, io.later);
    case SetFailed(_) => LostCounts(w, io.later);
    case _ =>
  }

  lemma RestoreCounts(w: Watch, io: RestoreIO)
    ensures CountsNone(w, RestoreTarget(w, io))
  {
    if w.target.Some? && w.conn.Some? {
      var w1 := w.(restoreAt := None, lastRestore := Some(io.at));
      if io.found.Failed? {
        LostCounts(w1, io.later);
      } else {
        RestoredCounts(SetConfig(w1, io.found.value), io.found.value, w.target.value, io);
      }
    }
  }

  lemma ChangeCounts(w: Watch, io: ChangeIO)
    requires w.conn.Some?
    ensures CountsNone(w, ConfigChange(w, io))
  {
    if io.found.Failed? {
      LostCounts(w, io.armAt);
    } else {
      var w1 := SetConfig(w, io.found.value);
      EmitCounts(w1, PinConfigChanged(io.found.value));
      RestoreCounts(w1, io.restore);
    }
  }

  lemma FollowCounts(w: Watch, r: Report, stale: bool, io: ChangeIO)
    requires w.conn.Some?
    ensures CountsNone(w, Follow(w, r, stale, io))
  {
    ChangeCounts(w, io);
    var w1 := if ConfigChanged in r.reasons then ConfigChange(w, io) else w;
    if w1.conn.Some? {
      AbsorbCounts(w1, r);
    }
  }

  lemma ArriveCounts(w: Watch, r: Report, at: int, missed: nat)
    requires w.conn.Some?
    ensures var w' := Arrive(w, r, at, missed);
      && MissedTold(w'.emitted) == MissedTold(w.emitted) + missed
      && w'.conn.Some? && w'.conn.value.lastSeq == w.conn.value.lastSeq
  {
    var e := StatusReceived(r, missed, OnOff(r, LowPins(w)));
    MissedSnoc(w.emitted, e);
    MissedSnoc(w.emitted + [e], OutputsReset(r.outputs, Suspend));
  }

  /** The bytes are a status report with this number. */
  predicate Carries(data: seq<byte>, seqNo: u16) {
    && |data| >= REPORT_LEN && data[0] == REPORT_ID_STATUS
    && W.HostDecode(data[1..REPORT_LEN]).Some? && W.HostDecode(data[1..REPORT_LEN]).value.seqNo == seqNo
  }

  lemma ReceivedCounts(w: Watch, data: seq<byte>, at: int, io: ChangeIO, seqNo: u16)
    requires w.conn.Some? && Carries(data, seqNo)
    ensures var w' := Received(w, data, at, io);
      && MissedTold(w'.emitted) == MissedTold(w.emitted) + Missed(w.conn.value.lastSeq, seqNo)
      && (w'.conn.Some? ==> w'.conn.value.lastSeq == Some(seqNo))
  {
    var r, c := W.HostDecode(data[1..REPORT_LEN]).value, w.conn.value;
    var w1 := w.(conn := Some(c.(lastSeq := Some(seqNo))));
    var missed := Missed(c.lastSeq, seqNo);
    ArriveCounts(w1, r, at, missed);
    FollowCounts(Arrive(w1, r, at, missed), r, StaleFor(w1.conn.value, r), io);
  }

  /** True report numbers, each at most 2^16 after the one before it. */
  ghost predicate Increasing(sent: seq<nat>) {
    forall i :: 0 < i < |sent| ==> sent[i - 1] < sent[i] <= sent[i - 1] + 0x1_0000
  }

  lemma MissedIsGap(a: nat, b: nat)
    requires a < b <= a + 0x1_0000
    ensures Missed(Some(a % 0x1_0000), b % 0x1_0000) == b - a - 1
  {
    var d: int := b - a - 1;
    assert d % 0x1_0000 == d;
  }

  /** The inputs bring the reports with the true numbers in sent after the first, to a watcher that is connected
      when each arrives. */
  ghost predicate AllBrought(w: Watch, inputs: seq<Input>, sent: seq<nat>)
    requires |sent| == |inputs| + 1
  {
    inputs == [] ||
    (var n := |inputs| - 1; var w1, i := Run(w, inputs[..n]), inputs[n];
     && AllBrought(w, inputs[..n], sent[..n + 1]) && w1.conn.Some? && !w1.stopped
     && i.Incoming? && Carries(i.data, sent[n + 1] % 0x1_0000))
  }

  lemma OneMoreReceived(w: Watch, i: Input, last: nat, next: nat)
    requires w.conn.Some? && !w.stopped && w.conn.value.lastSeq == Some(last % 0x1_0000)
    requires i.Incoming? && Carries(i.data, next % 0x1_0000) && last < next <= last + 0x1_0000
    ensures var w' := Step(w, i);
      && MissedTold(w'.emitted) == MissedTold(w.emitted) + (next - last - 1)
      && (w'.conn.Some? ==> w'.conn.value.lastSeq == Some(next % 0x1_0000))
  {
    ReceivedCounts(w, i.data, i.at, i.change, next % 0x1_0000);
    MissedIsGap(last, next);
  }

  /** However reports are lost, the missed counts that a run of the watcher tells while it is connected add up to
      the reports that were sent and not received, as long as no more than 2^16 - 1 are lost in a row. */
  lemma {:induction false} MissedCountsSkipped(w: Watch, inputs: seq<Input>, sent: seq<nat>)
    requires |sent| == |inputs| + 1 && Increasing(sent)
    requires w.conn.Some? && !w.stopped && w.conn.value.lastSeq == Some(sent[0] % 0x1_0000)
    requires AllBrought(w, inputs, sent)
    ensures var w' := Run(w, inputs); var last := sent[|sent| - 1];
      && MissedTold(w'.emitted) == MissedTold(w.emitted) + (last - sent[0] - |inputs|)
      && (w'.conn.Some? ==> w'.conn.value.lastSeq == Some(last % 0x1_0000))
  {
    if inputs != [] {
      var n, shorter := |inputs| - 1, sent[..|inputs|];
      assert Increasing(shorter) && shorter[0] == sent[0] && shorter[n] == sent[n];
      MissedCountsSkipped(w, inputs[..n], shorter);
      OneMoreReceived(Run(w, inputs[..n]), inputs[n], sent[n], sent[n + 1]);
    }
  }

  // ---- repeated failures ----

  /** Why an attempt to connect fails, if it does. */
  function CauseOf(w: Watch, io: ConnectIO): Option<Fault> {
    match io.scan
    case Unsupported => None
    case ScanFailed(error) => Some(error)
    case Entries(serials) =>
      var matching := Matching(w.serial, serials);
      if matching == [] || (w.serial.None? && |matching| > 1) then None
      else if io.open.Failed? then Some(io.open.error)
      else if io.info.Failed? then Some(io.info.error)
      else if io.found.Failed? then Some(io.found.error)
      else if w.target.None? || io.found.value == w.target.value then None
      else
        match io.outcome
        case Conflict(expected, seen) => Some(ConflictFault(expected, seen))
        case SetFailed(error) => Some(error)
        case _ => None
  }

  /** From w to w' one failure was noted: counted with those before it if the cause is the same, and told if it
      is the second in a row. */
  ghost predicate Noted(w: Watch, w': Watch, error: Fault) {
    && w'.failure == error
    && w'.failures == (if error == w.failure then w.failures + 1 else 1)
    && w'.emitted == w.emitted + (if w'.failures == 2 then [ConnectFailed(error)] else [])
    && w'.conn.None? && w'.stopped == w.stopped
  }

  lemma RetryNotes(w: Watch, error: Fault, at: int)
    requires w.conn.None?
    ensures Noted(w, Retry(w, error, at), error)
  {
  }

  lemma SettleNotes(w: Watch, found: PinConfig, io: ConnectIO)
    requires w.conn.None? && w.target.Some? && found != w.target.value
    requires io.outcome.Conflict? || io.outcome.SetFailed?
    ensures Noted(w, Settle(w, found, io),
      if io.outcome.Conflict? then ConflictFault(io.outcome.expected, io.outcome.seen) else io.outcome.error)
  {
    match io.outcome
    case Conflict(expected, seen) => RetryNotes(w, ConflictFault(expected, seen), io.at);
    case SetFailed(error) => RetryNotes(w, error, io.at);
  }

  /** An attempt that fails notes its cause. */
  lemma AttemptFails(w: Watch, io: ConnectIO)
    requires w.conn.None? && CauseOf(w, io).Some?
    ensures Noted(w, TryConnect(w, io), CauseOf(w, io).value)
  {
    if io.scan.ScanFailed? {
      RetryNotes(w, io.scan.error, io.at);
    } else {
      var w1 := w.(serial := Some(Matching(w.serial, io.scan.serials)[0]));
      if io.open.Failed? {
        RetryNotes(w1, io.open.error, io.at);
      } else if io.info.Failed? {
        RetryNotes(w1, io.info.error, io.at);
      } else {
        OpenedFails(w, w1.(available := Some(io.info.value)), io);
      }
    }
  }

  lemma OpenedFails(w: Watch, w2: Watch, io: ConnectIO)
    requires w.conn.None? && CauseOf(w, io).Some? && io.scan.Entries? && io.open.Got? && io.info.Got?
    requires w2 == w.(serial := Some(Matching(w.serial, io.scan.serials)[0]), available := Some(io.info.value))
    ensures Noted(w, TryConnect(w, io), CauseOf(w, io).value)
  {
    if io.found.Failed? {
      RetryNotes(w2, io.found.error, io.at);
    } else {
      SettleNotes(w2, io.found.value, io);
    }
  }

  /** The inputs are attempts that are due, and each fails with this cause. */
  ghost predicate AllFail(w: Watch, inputs: seq<Input>, error: Fault) {
    inputs == [] ||
    (var n := |inputs| - 1; var w1, i := Run(w, inputs[..n]), inputs[n];
     && AllFail(w, inputs[..n], error)
     && i.ScanTimer? && Due(w1.scanAt, i.now) && CauseOf(w1.(scanAt := None), i.connect) == Some(error))
  }

  /** After n failures in a row with one cause: the second was told. */
  ghost predicate Tallied(w: Watch, w': Watch, error: Fault, n: nat) {
    && w'.emitted == w.emitted + (if n >= 2 then [ConnectFailed(error)] else [])
    && (if n == 0 then w' == w else w'.failure == error && w'.failures == n)
    && w'.conn.None? && !w'.stopped
  }

  lemma TallyOneMore(w: Watch, w1: Watch, w2: Watch, error: Fault, n: nat)
    requires w.failure != error && Tallied(w, w1, error, n) && Noted(w1, w2, error)
    ensures Tallied(w, w2, error, n + 1)
  {
  }

  /** In a run of attempts that fail with the same cause, the second tells it and no other. Two conflicts are
      the same cause only if they name the same request ids. */
  lemma CauseIsToldOnce(w: Watch, inputs: seq<Input>, error: Fault)
    requires !w.stopped && w.conn.None? && w.failure != error
    requires AllFail(w, inputs, error)
    ensures Run(w, inputs).emitted == w.emitted + (if |inputs| >= 2 then [ConnectFailed(error)] else [])
  {
    FailuresTallied(w, inputs, error);
  }

  lemma {:induction false} FailuresTallied(w: Watch, inputs: seq<Input>, error: Fault)
    requires !w.stopped && w.conn.None? && w.failure != error
    requires AllFail(w, inputs, error)
    ensures Tallied(w, Run(w, inputs), error, |inputs|)
  {
    if inputs == [] {
      NothingTallied(w, error);
    } else {
      FailuresTallied(w, inputs[..|inputs| - 1], error);
      LastFails(w, inputs, error);
      TallyOneMore(w, Run(w, inputs[..|inputs| - 1]), Run(w, inputs), error, |inputs| - 1);
    }
  }

  lemma NothingTallied(w: Watch, error: Fault)
    requires !w.stopped && w.conn.None?
    ensures Tallied(w, w, error, 0)
  {
    assert w.emitted + [] == w.emitted;
  }

  lemma LastFails(w: Watch, inputs: seq<Input>, error: Fault)
    requires inputs != [] && AllFail(w, inputs, error)
    requires var w1 := Run(w, inputs[..|inputs| - 1]); w1.conn.None? && !w1.stopped
    ensures Noted(Run(w, inputs[..|inputs| - 1]), Run(w, inputs), error)
  {
    var n := |inputs| - 1;
    var w1 := Run(w, inputs[..n]);
    assert Run(w, inputs) == TryConnect(w1.(scanAt := None), inputs[n].connect);
    AttemptFails(w1.(scanAt := None), inputs[n].connect);
  }
}
