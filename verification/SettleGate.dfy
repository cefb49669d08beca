/** After a watcher wrote a configuration it uses no report until one says CONFIG_CHANGED. With the engine as
    the device: which report that is, and when it is one from before the write. */
module SettleGate {
  import opened Protocol
  import opened EndToEnd
  import E = EngineSpec
  import ET = EngineTheorems
  import EI = EngineInvariants
  import C = PinConfigCodec
  import H = HostDevice
  import S = WatchSpec
  import I = WatchInvariants

  // ---- the watcher ----

  /** The watcher has the target and takes it to be in force. */
  ghost predicate Aims(w: S.Watch, target: PinConfig) {
    I.Core(w) && w.conn.Some? && !w.stopped && w.config == target && w.target == Some(target)
  }

  /** It has written the target, remembers inputs of it only, and uses no report yet. */
  ghost predicate Waits(w: S.Watch, target: PinConfig) {
    Aims(w, target) && w.conn.value.awaiting && forall n :: n in w.known ==> n in InputPins(target)
  }

  /** A write to a connected device makes the watcher wait. */
  lemma WroteWaits(w: S.Watch, found: PinConfig, target: PinConfig, at: int)
    requires I.Core(w) && w.conn.Some? && !w.stopped && w.target == Some(target)
    ensures Waits(S.Wrote(w, found, target, at), target)
  {
    I.WroteKeeps(w, found, target, at);
  }

  /** So does a write while connecting. */
  lemma ConnectWaits(w: S.Watch, found: PinConfig, target: PinConfig, io: S.ConnectIO)
    requires I.Core(w) && w.conn.None? && w.scanAt.None? && !w.stopped && w.available.Some?
    requires w.target == Some(target) && found != target && io.outcome.Applied?
    ensures Waits(S.Settle(w, found, io), target) && S.Settle(w, found, io).conn.value.snapshotSeq.None?
  {
    I.AttachKeeps(w, target, true, S.DrivenOutputs(found, target));
  }

  /** The report counts as sent at or before the snapshot. */
  predicate IsOld(snapshot: Option<u16>, r: E.Record) {
    snapshot.Some? && S.IsStale(r.report.seqNo, snapshot.value)
  }

  /** Report i is not taken for one from before the snapshot, because it or one before it was sent later. */
  ghost predicate Heard(snapshot: Option<u16>, recs: seq<E.Record>, i: nat)
    requires i < |recs|
  {
    exists k :: 0 <= k <= i && !IsOld(snapshot, recs[k])
  }

  ghost predicate Opens(snapshot: Option<u16>, recs: seq<E.Record>, i: nat)
    requires i < |recs|
  {
    ConfigChanged in recs[i].report.reasons && Heard(snapshot, recs, i)
  }

  /** What the comparison number has become after some reports. */
  ghost function Compared(snapshot: Option<u16>, recs: seq<E.Record>): Option<u16> {
    if exists k :: 0 <= k < |recs| && !IsOld(snapshot, recs[k]) then None else snapshot
  }

  /** Reading the configuration that is in force forgets at most what is not an input of it. */
  lemma SameConfigRead(w: S.Watch, target: PinConfig, io: S.ChangeIO)
    requires Aims(w, target) && io.found == S.Got(target)
    ensures Aims(S.ConfigChange(w, io), target) && S.ConfigChange(w, io) == w.(known := S.ConfigChange(w, io).known)
    ensures Waits(w, target) ==> S.ConfigChange(w, io) == w
  {
    I.SetConfigKeeps(w, target);
    assert Waits(w, target) ==> S.SetConfig(w, target).known == w.known;
  }

  lemma ArriveAims(w: S.Watch, target: PinConfig, r: Report, at: int, missed: nat)
    requires Aims(w, target) && HostRequest !in r.reasons
    ensures var w' := S.Arrive(w, r, at, missed);
      && Aims(w', target) && w'.known == w.known && w'.activeLow == w.activeLow
      && Announcements(w'.emitted) == Announcements(w.emitted)
      && w'.conn.value.awaiting ==
           (w.conn.value.awaiting && !(ConfigChanged in r.reasons && !S.StaleFor(w.conn.value, r)))
      && w'.conn.value.snapshotSeq == (if S.StaleFor(w.conn.value, r) then w.conn.value.snapshotSeq else None)
  {
    I.ArriveKeeps(w, r, at, missed);
    ArriveAnnounces(w, r, at, missed);
    ArriveSettles(w, r, at, missed);
  }

  lemma ArriveSettles(w: S.Watch, r: Report, at: int, missed: nat)
    requires w.conn.Some? && HostRequest !in r.reasons
    ensures var w', stale := S.Arrive(w, r, at, missed), S.StaleFor(w.conn.value, r);
      && w'.known == w.known && w'.activeLow == w.activeLow && w'.config == w.config && w'.target == w.target
      && w'.conn.value.awaiting == (w.conn.value.awaiting && !(ConfigChanged in r.reasons && !stale))
      && w'.conn.value.snapshotSeq == (if stale then w.conn.value.snapshotSeq else None)
  {
  }

  /** What one report does to a watcher that has its target: while it waits nothing, and the report that ends
      the wait is used. */
  ghost predicate Passed(w: S.Watch, w': S.Watch, target: PinConfig, r: E.Record)
    requires w.conn.Some?
  {
    var stale := IsOld(w.conn.value.snapshotSeq, r);
    && Aims(w', target) && w'.activeLow == w.activeLow
    && w'.conn.value.awaiting == (w.conn.value.awaiting && (ConfigChanged !in r.report.reasons || stale))
    && w'.conn.value.snapshotSeq == (if stale then w.conn.value.snapshotSeq else None)
    && (w'.conn.value.awaiting ==> w'.known == w.known && Announcements(w'.emitted) == Announcements(w.emitted))
    && (w.conn.value.awaiting && !w'.conn.value.awaiting ==> w'.known == S.OnOff(r.report, S.LowPins(w)))
  }

  lemma TakenPasses(w: S.Watch, target: PinConfig, r: E.Record, at: int, missed: nat, io: S.ChangeIO)
    requires Aims(w, target) && (w.conn.value.awaiting ==> Waits(w, target))
    requires EI.RecordOk(r) && io.found == S.Got(target)
    ensures Passed(w, S.TakeStatus(w, r.report, at, missed, io), target, r)
  {
    ArriveAims(w, target, r.report, at, missed);
    var w1 := S.Arrive(w, r.report, at, missed);
    SameConfigRead(w1, target, io);
    var w2 := if ConfigChanged in r.report.reasons then S.ConfigChange(w1, io) else w1;
    I.AbsorbKeeps(w2, r.report);
  }

  lemma ReportPasses(w: S.Watch, target: PinConfig, r: E.Record, reading: Reading)
    requires Aims(w, target) && (w.conn.value.awaiting ==> Waits(w, target))
    requires EI.RecordOk(r) && reading.change.found == S.Got(target)
    ensures Passed(w, S.Received(w, Packet(r.report), reading.at, reading.change), target, r)
  {
    PacketReceived(w, r.report, reading);
    var c := w.conn.value;
    TakenPasses(w.(conn := Some(c.(lastSeq := Some(r.report.seqNo)))), target, r, reading.at,
                S.Missed(c.lastSeq, r.report.seqNo), reading.change);
  }

  /** The watcher after some reports: it waits until one of them opened the gate, and while it waits it has
      learned and announced nothing. */
  ghost predicate Held(w: S.Watch, w': S.Watch, target: PinConfig, recs: seq<E.Record>)
    requires w.conn.Some?
  {
    var snapshot := w.conn.value.snapshotSeq;
    && Aims(w', target) && w'.activeLow == w.activeLow
    && (w'.conn.value.awaiting <==> !Opened(snapshot, recs))
    && w'.conn.value.snapshotSeq == Compared(snapshot, recs)
    && (w'.conn.value.awaiting ==> w'.known == w.known && Announcements(w'.emitted) == Announcements(w.emitted))
  }

  lemma OpensPrefix(snapshot: Option<u16>, recs: seq<E.Record>, r: E.Record, i: nat)
    requires i < |recs|
    ensures Opens(snapshot, recs + [r], i) <==> Opens(snapshot, recs, i)
  {
    var all := recs + [r];
    assert forall k :: 0 <= k <= i ==> all[k] == recs[k];
    if k :| 0 <= k <= i && !IsOld(snapshot, recs[k]) {
      assert !IsOld(snapshot, all[k]);
    }
  }

  /** The last report is heard unless it and all before it are old. */
  lemma LastHeard(snapshot: Option<u16>, recs: seq<E.Record>, r: E.Record)
    ensures Heard(snapshot, recs + [r], |recs|) <==> !IsOld(Compared(snapshot, recs), r)
    ensures Compared(snapshot, recs + [r]) ==
      if IsOld(Compared(snapshot, recs), r) then Compared(snapshot, recs) else None
  {
    var all := recs + [r];
    assert all[|recs|] == r && forall k :: 0 <= k < |recs| ==> all[k] == recs[k];
    if k :| 0 <= k < |recs| && !IsOld(snapshot, recs[k]) {
      assert !IsOld(snapshot, all[k]);
    }
  }

  /** Some report opened the gate. */
  ghost predicate Opened(snapshot: Option<u16>, recs: seq<E.Record>) {
    exists i :: 0 <= i < |recs| && Opens(snapshot, recs, i)
  }

  lemma OpenedSnoc(snapshot: Option<u16>, recs: seq<E.Record>, r: E.Record)
    ensures Opened(snapshot, recs + [r]) <==>
      Opened(snapshot, recs) || (ConfigChanged in r.report.reasons && !IsOld(Compared(snapshot, recs), r))
  {
    var all := recs + [r];
    LastHeard(snapshot, recs, r);
    assert all[|recs|] == r;
    forall i | 0 <= i < |recs| ensures Opens(snapshot, all, i) <==> Opens(snapshot, recs, i) {
      OpensPrefix(snapshot, recs, r, i);
    }
    if i :| 0 <= i < |recs| && Opens(snapshot, recs, i) {
      assert Opens(snapshot, all, i);
    }
    if ConfigChanged in r.report.reasons && !IsOld(Compared(snapshot, recs), r) {
      assert Opens(snapshot, all, |recs|);
    }
  }

  lemma ReceivedHolds(
      w: S.Watch, w1: S.Watch, target: PinConfig, recs: seq<E.Record>, r: E.Record, reading: Reading)
    requires Waits(w, target) && Held(w, w1, target, recs)
    requires EI.RecordOk(r) && reading.change.found == S.Got(target)
    ensures Held(w, S.Received(w1, Packet(r.report), reading.at, reading.change), target, recs + [r])
  {
    ReportPasses(w1, target, r, reading);
    HeldLonger(w, w1, S.Received(w1, Packet(r.report), reading.at, reading.change), target, recs, r);
  }

  lemma HeldLonger(w: S.Watch, w1: S.Watch, w2: S.Watch, target: PinConfig, recs: seq<E.Record>, r: E.Record)
    requires w.conn.Some? && Held(w, w1, target, recs) && Passed(w1, w2, target, r)
    ensures Held(w, w2, target, recs + [r])
  {
    var snapshot := w.conn.value.snapshotSeq;
    OpenedSnoc(snapshot, recs, r);
    LastHeard(snapshot, recs, r);
  }

  lemma FirstAreOk(recs: seq<E.Record>, readings: seq<Reading>, target: PinConfig, n: nat)
    requires n <= |recs| == |readings| && Answers(readings, target) && AllOk(recs)
    ensures AllOk(recs[..n]) && Answers(readings[..n], target)
  {
  }

  lemma HeldAtFirst(w: S.Watch, target: PinConfig)
    requires Waits(w, target)
    ensures Held(w, w, target, [])
  {
  }

  lemma {:induction false} WaitsForNotice(
      w: S.Watch, target: PinConfig, recs: seq<E.Record>, readings: seq<Reading>)
    requires Waits(w, target) && |readings| == |recs| && Answers(readings, target) && AllOk(recs)
    ensures Held(w, ReceiveAll(w, recs, readings), target, recs)
  {
    if recs == [] {
      HeldAtFirst(w, target);
    } else {
      var n := |recs| - 1;
      FirstAreOk(recs, readings, target, n);
      WaitsForNotice(w, target, recs[..n], readings[..n]);
      HeldOnceMore(w, target, recs, readings);
    }
  }

  lemma HeldOnceMore(w: S.Watch, target: PinConfig, recs: seq<E.Record>, readings: seq<Reading>)
    requires Waits(w, target) && recs != [] && |readings| == |recs| && Answers(readings, target) && AllOk(recs)
    requires var n := |recs| - 1; Held(w, ReceiveAll(w, recs[..n], readings[..n]), target, recs[..n])
    ensures Held(w, ReceiveAll(w, recs, readings), target, recs)
  {
    var n := |recs| - 1;
    SplitLast(recs);
    ReceivedHolds(w, ReceiveAll(w, recs[..n], readings[..n]), target, recs[..n], recs[n], readings[n]);
  }

  lemma SplitLast(recs: seq<E.Record>)
    requires recs != []
    ensures recs == recs[..|recs| - 1] + [recs[|recs| - 1]]
  {
  }

  // ---- the device ----

  /** The settle of the write that led to s1 had ended when the report numbered g (from 0) was committed. */
  ghost predicate MadeAfter(s1: E.State, later: seq<E.Action>, g: nat)
    requires E.Sized(s1)
  {
    exists m :: 0 <= m <= |later| && SettledBy(E.Run(s1, later[..m]), g)
  }

  predicate SettledBy(s: E.State, g: nat) {
    !s.cfg.settleActive && |s.log.sent| <= g
  }

  ghost predicate ShowsMasks(r: Report, config: PinConfig) {
    r.monitored == InputPins(config) && r.outputs == OutputPins(config)
  }

  /** A CONFIG_CHANGED report committed after the write was made after its settle and shows the written masks,
      or it is the next one and was due already. */
  ghost predicate Noticed(s1: E.State, later: seq<E.Action>, sent: seq<E.Record>, target: PinConfig, g: nat)
    requires E.Sized(s1) && g < |sent|
  {
    ConfigChanged in sent[g].report.reasons ==>
      || (MadeAfter(s1, later, g) && ShowsMasks(sent[g].report, target))
      || (g == |s1.log.sent| && ConfigChanged in s1.tx.reasons)
  }

  ghost predicate AfterWrite(s1: E.State, s: E.State, later: seq<E.Action>, target: PinConfig)
    requires E.Sized(s1)
  {
    var first, sent := s1.log.sent, s.log.sent;
    && EI.Inv(s) && s.cfg.config == target && s.cfg.available == s1.cfg.available
    && first <= sent && (forall g :: |first| <= g < |sent| ==> Noticed(s1, later, sent, target, g))
    && (s.cfg.settleActive && ConfigChanged in s.tx.reasons ==>
          |sent| == |first| && ConfigChanged in s1.tx.reasons)
  }

  lemma MadeAfterLonger(s1: E.State, later: seq<E.Action>, a: E.Action, g: nat)
    requires E.Sized(s1) && MadeAfter(s1, later, g)
    ensures MadeAfter(s1, later + [a], g)
  {
    var m :| 0 <= m <= |later| && SettledBy(E.Run(s1, later[..m]), g);
    assert (later + [a])[..m] == later[..m];
  }

  lemma SettledNow(s1: E.State, later: seq<E.Action>, a: E.Action)
    requires E.Sized(s1) && !E.Run(s1, later).cfg.settleActive
    ensures MadeAfter(s1, later + [a], |E.Run(s1, later).log.sent|)
  {
    assert later[..|later|] == later;
    assert SettledBy(E.Run(s1, later[..|later|]), |E.Run(s1, later).log.sent|);
    MadeAfterLonger(s1, later, a, |E.Run(s1, later).log.sent|);
  }

  /** The configuration stays, no settle begins, and CONFIG_CHANGED becomes due only when one ends. */
  ghost predicate Calmly(s: E.State, s': E.State) {
    && s'.cfg.config == s.cfg.config && s'.cfg.available == s.cfg.available
    && (s'.cfg.settleActive ==> s.cfg.settleActive)
    && (s'.cfg.settleActive && ConfigChanged in s'.tx.reasons ==> ConfigChanged in s.tx.reasons)
    && (s'.log.sent != s.log.sent ==> ConfigChanged !in s'.tx.reasons)
  }

  lemma CalmTick(s: E.State, raw: set<nat>, at: u64)
    requires E.Sized(s)
    ensures Calmly(s, E.Task(s, raw, at))
  {
    ET.PollFrame(E.SettleIfDue(s, raw, at), at, 0);
  }

  lemma CalmWrite(s: E.State, p: seq<byte>, at: u64)
    requires E.Sized(s) && Calm(s, E.Configure(p, at))
    ensures Calmly(s, E.SetPinConfig(s, p, at))
  {
  }

  lemma CalmStep(s: E.State, a: E.Action)
    requires E.Sized(s) && Calm(s, a)
    ensures Calmly(s, E.Step(s, a))
  {
    match a
    case Resync(raw, at) => ET.ResyncFrame(s, raw, at, 0);
    case Tick(raw, at) => CalmTick(s, raw, at);
    case Configure(p, at) => CalmWrite(s, p, at);
    case SendReport(at, handedOver) => EI.SendEffect(s, at, handedOver);
    case _ =>
  }

  lemma StepAfterWrite(s1: E.State, later: seq<E.Action>, target: PinConfig, a: E.Action)
    requires E.Sized(s1) && AfterWrite(s1, E.Run(s1, later), later, target) && Calm(E.Run(s1, later), a)
    ensures AfterWrite(s1, E.Step(E.Run(s1, later), a), later + [a], target)
  {
    var s := E.Run(s1, later);
    var s' := E.Step(s, a);
    EI.StepKeeps(s, a);
    CalmStep(s, a);
    ET.SentGrows(s, a);
    forall g | |s1.log.sent| <= g < |s'.log.sent| ensures Noticed(s1, later + [a], s'.log.sent, target, g) {
      if g < |s.log.sent| {
        assert Noticed(s1, later, s.log.sent, target, g);
        if MadeAfter(s1, later, g) {
          MadeAfterLonger(s1, later, a, g);
        }
      } else if !s.cfg.settleActive {
        SettledNow(s1, later, a);
      }
    }
  }

  lemma {:induction false} RunAfterWrite(s1: E.State, later: seq<E.Action>, target: PinConfig)
    requires EI.Inv(s1) && s1.cfg.config == target && s1.cfg.settleActive && CalmRun(s1, later)
    ensures AfterWrite(s1, E.Run(s1, later), later, target)
  {
    if later != [] {
      var n := |later| - 1;
      RunAfterWrite(s1, later[..n], target);
      StepAfterWrite(s1, later[..n], target, later[n]);
      assert later == later[..n] + [later[n]];
    }
  }

  // ---- both ----

  /** The device when it has processed the write. */
  function Written(s0: E.State, target: PinConfig, id: byte, at: u64): (s1: E.State)
    requires E.Sized(s0)
    ensures E.Sized(s1) && s1.log.sent == s0.log.sent
  {
    E.SetPinConfig(s0, H.Request(target, id), at)
  }

  /** The reports from number b on that were sent and not read when the write was processed, and the next one
      if it will say CONFIG_CHANGED for an earlier change. */
  function OnTheirWay(s1: E.State, b: nat): seq<E.Record>
    requires E.Sized(s1) && b <= |s1.log.sent| && s1.log.sent <= E.Send(s1, 0, true).log.sent
  {
    if ConfigChanged in s1.tx.reasons then E.Send(s1, 0, true).log.sent[b..] else s1.log.sent[b..]
  }

  lemma SendExtends(s: E.State)
    requires E.Sized(s)
    ensures s.log.sent <= E.Send(s, 0, true).log.sent
    ensures ConfigChanged in s.tx.reasons ==>
      var sent := E.Send(s, 0, true).log.sent;
      |sent| == |s.log.sent| + 1 && ConfigChanged in sent[|s.log.sent|].report.reasons
  {
  }

  /** A CONFIG_CHANGED report from before the write is on its way or due, and will not be taken for one from
      before the snapshot. */
  ghost predicate EarlyNotice(s1: E.State, b: nat, snapshot: Option<u16>)
    requires E.Sized(s1) && b <= |s1.log.sent|
  {
    SendExtends(s1);
    Opened(snapshot, OnTheirWay(s1, b))
  }

  /** What the watcher is after n of the reports. */
  function After(w: S.Watch, recs: seq<E.Record>, readings: seq<Reading>, n: nat): S.Watch
    requires n <= |recs| == |readings|
  {
    ReceiveAll(w, recs[..n], readings[..n])
  }

  /** Report i ends the wait: it is the first one used. */
  ghost predicate EndsWait(w: S.Watch, recs: seq<E.Record>, readings: seq<Reading>, i: nat)
    requires i < |recs| == |readings|
  {
    var before, after := After(w, recs, readings, i), After(w, recs, readings, i + 1);
    before.conn.Some? && before.conn.value.awaiting && after.conn.Some? && !after.conn.value.awaiting
  }

  /** The reports from number b on reach the watcher, whose questions are answered with the target. */
  ghost predicate Delivered(s: E.State, b: nat, readings: seq<Reading>, target: PinConfig) {
    b <= |s.log.sent| && |readings| == |s.log.sent| - b && Answers(readings, target)
  }

  /** However the device goes on without another change of its configuration, the first report the watcher uses
      was made after the settle of its write. */
  ghost predicate WaitsForItsWrite(s1: E.State, b: nat, w: S.Watch, target: PinConfig)
    requires E.Sized(s1)
  {
    forall later: seq<E.Action>, readings: seq<Reading>, i: nat ::
      CalmRun(s1, later) && Delivered(E.Run(s1, later), b, readings, target)
      && i < |readings| && EndsWait(w, E.Run(s1, later).log.sent[b..], readings, i) ==>
        MadeAfter(s1, later, b + i)
  }

  lemma WrittenSettles(s0: E.State, target: PinConfig, id: byte, at: u64)
    requires EI.Inv(s0) && C.Acceptable(target, s0.cfg.available) && target != s0.cfg.config
    ensures var s1 := Written(s0, target, id, at);
      && EI.Inv(s1) && s1.cfg.config == target && s1.cfg.settleActive
      && s1.log.sent == s0.log.sent && s1.tx == s0.tx
  {
    EI.ConfigureKeeps(s0, H.Request(target, id), at);
    H.WriteStarts(s0, target, id, at);
  }

  lemma AfterOneMore(w: S.Watch, target: PinConfig, recs: seq<E.Record>, readings: seq<Reading>, i: nat)
    requires Waits(w, target) && i < |recs| == |readings| && Answers(readings, target) && AllOk(recs)
    ensures Held(w, After(w, recs, readings, i), target, recs[..i])
    ensures Passed(After(w, recs, readings, i), After(w, recs, readings, i + 1), target, recs[i])
  {
    WaitsForNotice(w, target, recs[..i], readings[..i]);
    assert recs[..i + 1][..i] == recs[..i] && readings[..i + 1][..i] == readings[..i];
    ReportPasses(After(w, recs, readings, i), target, recs[i], readings[i]);
  }

  /** What the watcher is before and after the report that ends its wait. */
  ghost predicate Used(w: S.Watch, before: S.Watch, after: S.Watch, target: PinConfig, r: E.Record) {
    && before.known == w.known && Announcements(before.emitted) == Announcements(w.emitted)
    && Aims(after, target) && after.known == S.OnOff(r.report, S.LowPins(after))
  }

  lemma WaitEnds(w: S.Watch, w1: S.Watch, w2: S.Watch, target: PinConfig, recs: seq<E.Record>, r: E.Record)
    requires w.conn.Some? && w.config == target && Held(w, w1, target, recs) && Passed(w1, w2, target, r)
    ensures w1.conn.value.awaiting && !w2.conn.value.awaiting <==>
      && !Opened(w.conn.value.snapshotSeq, recs)
      && ConfigChanged in r.report.reasons && !IsOld(Compared(w.conn.value.snapshotSeq, recs), r)
    ensures w1.conn.value.awaiting && !w2.conn.value.awaiting ==> Used(w, w1, w2, target, r)
  {
    assert S.LowPins(w1) == S.LowPins(w2);
  }

  /** The report that ends the wait is the first that opens the gate. Before it nothing is announced, and with it
      the watcher takes over its levels. */
  lemma FirstOpens(w: S.Watch, target: PinConfig, recs: seq<E.Record>, readings: seq<Reading>, i: nat)
    requires Waits(w, target) && i < |recs| == |readings| && Answers(readings, target) && AllOk(recs)
    ensures EndsWait(w, recs, readings, i) <==>
      Opens(w.conn.value.snapshotSeq, recs, i) && !Opened(w.conn.value.snapshotSeq, recs[..i])
    ensures EndsWait(w, recs, readings, i) ==>
      Used(w, After(w, recs, readings, i), After(w, recs, readings, i + 1), target, recs[i])
  {
    AfterOneMore(w, target, recs, readings, i);
    WaitEnds(w, After(w, recs, readings, i), After(w, recs, readings, i + 1), target, recs[..i], recs[i]);
    LastHeard(w.conn.value.snapshotSeq, recs[..i], recs[i]);
    OpensAt(w.conn.value.snapshotSeq, recs, i);
  }

  lemma OpensAt(snapshot: Option<u16>, recs: seq<E.Record>, i: nat)
    requires i < |recs|
    ensures Opens(snapshot, recs, i) <==>
      ConfigChanged in recs[i].report.reasons && Heard(snapshot, recs[..i] + [recs[i]], |recs[..i]|)
  {
    var all := recs[..i] + [recs[i]];
    assert forall k :: 0 <= k <= i ==> all[k] == recs[k];
    if k :| 0 <= k <= i && !IsOld(snapshot, recs[k]) {
      assert !IsOld(snapshot, all[k]);
    }
  }

  lemma SameNumbers(s: E.State, s': E.State, b: nat, i: nat, snapshot: Option<u16>)
    requires EI.Inv(s) && EI.Inv(s') && b + i < |s.log.sent| && b + i < |s'.log.sent|
    requires ConfigChanged in s'.log.sent[b + i].report.reasons && Opens(snapshot, s.log.sent[b..], i)
    ensures Opened(snapshot, s'.log.sent[b..])
  {
    var recs, recs' := s.log.sent[b..], s'.log.sent[b..];
    var k :| 0 <= k <= i && !IsOld(snapshot, recs[k]);
    assert recs[k].report.seqNo == (b + k) % 0x1_0000 == recs'[k].report.seqNo;
    assert !IsOld(snapshot, recs'[k]);
    assert Opens(snapshot, recs', i);
  }

  /** Without an early notice, the report that opens the gate was made after the settle, and shows the written
      masks. */
  lemma LateOpens(s1: E.State, later: seq<E.Action>, target: PinConfig, b: nat, i: nat, snapshot: Option<u16>)
    requires EI.Inv(s1) && s1.cfg.config == target && s1.cfg.settleActive && CalmRun(s1, later)
    requires b <= |s1.log.sent| && b + i < |E.Run(s1, later).log.sent| && !EarlyNotice(s1, b, snapshot)
    requires Opens(snapshot, E.Run(s1, later).log.sent[b..], i)
    ensures MadeAfter(s1, later, b + i) && ShowsMasks(E.Run(s1, later).log.sent[b + i].report, target)
  {
    var s, next := E.Run(s1, later), E.Send(s1, 0, true);
    RunAfterWrite(s1, later, target);
    SendExtends(s1);
    EI.SendKeeps(s1, 0, true);
    assert s.log.sent[b..][i] == s.log.sent[b + i];
    if b + i < |s1.log.sent| {
      assert s1.log.sent[b + i] == s.log.sent[b + i] == next.log.sent[b + i];
      SameNumbers(s, s1, b, i, snapshot);
      SameNumbers(s, next, b, i, snapshot);
    } else {
      assert Noticed(s1, later, s.log.sent, target, b + i);
      if b + i == |s1.log.sent| && ConfigChanged in s1.tx.reasons {
        SameNumbers(s, next, b, i, snapshot);
      }
    }
  }

  lemma FirstOf(snapshot: Option<u16>, recs: seq<E.Record>) returns (i: nat)
    requires Opened(snapshot, recs)
    ensures i < |recs| && Opens(snapshot, recs, i) && !Opened(snapshot, recs[..i])
  {
    var n := |recs| - 1;
    var before := recs[..n];
    assert recs == before + [recs[n]];
    OpenedSnoc(snapshot, before, recs[n]);
    if Opened(snapshot, before) {
      i := FirstOf(snapshot, before);
      OpensPrefix(snapshot, before, recs[n], i);
      assert recs[..i] == before[..i];
    } else {
      i := n;
      LastHeard(snapshot, before, recs[n]);
      OpensAt(snapshot, recs, n);
    }
  }

  /** What the device goes on to do when a notice is early: it sends it, if it is due. */
  function Hasty(s1: E.State): seq<E.Action> {
    if ConfigChanged in s1.tx.reasons then [E.SendReport(0, true)] else []
  }

  lemma OneReport(s1: E.State)
    requires E.Sized(s1)
    ensures var acts := [E.SendReport(0, true)];
      && E.Run(s1, acts[..0]) == s1 && E.Run(s1, acts) == E.Send(s1, 0, true) && CalmRun(s1, acts)
      && E.Send(s1, 0, true).cfg == s1.cfg
  {
    var acts := [E.SendReport(0, true)];
    assert acts[..0] == [] && CalmRun(s1, []);
    assert E.Run(s1, acts) == E.Step(s1, acts[0]);
  }

  lemma HastyIsEarly(s1: E.State, g: nat)
    requires E.Sized(s1) && s1.cfg.settleActive
    ensures CalmRun(s1, Hasty(s1)) && !MadeAfter(s1, Hasty(s1), g)
  {
    var acts := Hasty(s1);
    OneReport(s1);
    forall m | 0 <= m <= |acts| ensures E.Run(s1, acts[..m]).cfg.settleActive {
      assert acts[..m] == if m == 0 then [] else acts;
    }
  }

  lemma HastySends(s1: E.State, b: nat)
    requires E.Sized(s1) && b <= |s1.log.sent|
    ensures s1.log.sent <= E.Send(s1, 0, true).log.sent
    ensures var s := E.Run(s1, Hasty(s1)); b <= |s.log.sent| && s.log.sent[b..] == OnTheirWay(s1, b)
  {
    SendExtends(s1);
    OneReport(s1);
  }

  /** Readings that answer with the target. */
  function Answering(target: PinConfig, n: nat): (readings: seq<Reading>)
    ensures |readings| == n && Answers(readings, target)
  {
    var io := S.ChangeIO(S.Got(target), 0, 0, S.RestoreIO(0, S.Got(target), S.Applied, 0));
    seq(n, _ => Reading(0, io))
  }

  /** With an early notice, there is a run in which it is used. */
  lemma EarlyIsUsed(s1: E.State, b: nat, w: S.Watch, target: PinConfig)
    requires EI.Inv(s1) && s1.cfg.settleActive && b <= |s1.log.sent| && Waits(w, target)
    requires EarlyNotice(s1, b, w.conn.value.snapshotSeq)
    ensures !WaitsForItsWrite(s1, b, w, target)
  {
    HastySends(s1, b);
    EI.RunKeeps(s1, Hasty(s1));
    var later := Hasty(s1);
    var s := E.Run(s1, later);
    var recs := s.log.sent[b..];
    var i := FirstOf(w.conn.value.snapshotSeq, recs);
    var readings := Answering(target, |recs|);
    SentAreOk(s, b);
    FirstOpens(w, target, recs, readings, i);
    HastyIsEarly(s1, b + i);
    assert Delivered(s, b, readings, target) && EndsWait(w, s.log.sent[b..], readings, i);
  }

  /** The first report that a watcher uses after its write was made after the settle of the write, however the
      device goes on without another change of its configuration, if and only if no CONFIG_CHANGED report of an
      earlier change was on its way or due when the device processed the write. */
  lemma WaitsForItsWriteIff(s0: E.State, target: PinConfig, id: byte, at: u64, b: nat, w: S.Watch)
    requires EI.Inv(s0) && C.Acceptable(target, s0.cfg.available) && target != s0.cfg.config
    requires b <= |s0.log.sent| && Waits(w, target)
    ensures var s1 := Written(s0, target, id, at);
      WaitsForItsWrite(s1, b, w, target) <==> !EarlyNotice(s1, b, w.conn.value.snapshotSeq)
  {
    var s1 := Written(s0, target, id, at);
    WrittenSettles(s0, target, id, at);
    if EarlyNotice(s1, b, w.conn.value.snapshotSeq) {
      EarlyIsUsed(s1, b, w, target);
    } else {
      NeverTooEarly(s1, b, w, target);
    }
  }

  lemma NeverTooEarly(s1: E.State, b: nat, w: S.Watch, target: PinConfig)
    requires EI.Inv(s1) && s1.cfg.config == target && s1.cfg.settleActive && b <= |s1.log.sent| && Waits(w, target)
    requires !EarlyNotice(s1, b, w.conn.value.snapshotSeq)
    ensures WaitsForItsWrite(s1, b, w, target)
  {
    forall later: seq<E.Action>, readings: seq<Reading>, i: nat |
      CalmRun(s1, later) && Delivered(E.Run(s1, later), b, readings, target)
      && i < |readings| && EndsWait(w, E.Run(s1, later).log.sent[b..], readings, i)
      ensures MadeAfter(s1, later, b + i)
    {
      LateIsUsed(s1, later, target, b, w, readings, i);
    }
  }

  lemma LateIsUsed(
      s1: E.State, later: seq<E.Action>, target: PinConfig, b: nat, w: S.Watch, readings: seq<Reading>, i: nat)
    requires EI.Inv(s1) && s1.cfg.config == target && s1.cfg.settleActive && CalmRun(s1, later)
    requires b <= |s1.log.sent| && Waits(w, target) && !EarlyNotice(s1, b, w.conn.value.snapshotSeq)
    requires Delivered(E.Run(s1, later), b, readings, target) && i < |readings|
    requires EndsWait(w, E.Run(s1, later).log.sent[b..], readings, i)
    ensures var recs := E.Run(s1, later).log.sent[b..];
      && MadeAfter(s1, later, b + i) && ShowsMasks(recs[i].report, target)
      && Used(w, After(w, recs, readings, i), After(w, recs, readings, i + 1), target, recs[i])
  {
    var s := E.Run(s1, later);
    EI.RunKeeps(s1, later);
    SentAreOk(s, b);
    FirstOpens(w, target, s.log.sent[b..], readings, i);
    LateOpens(s1, later, target, b, i, w.conn.value.snapshotSeq);
  }

  /** Without an early notice: until the write is published the watcher announces nothing, and then it knows the
      ON/OFF of exactly the pins it has set up as inputs, with the levels of a report made after the settle. */
  lemma LearnsWhatItWrote(
      s0: E.State, target: PinConfig, id: byte, at: u64, b: nat, w: S.Watch,
      later: seq<E.Action>, readings: seq<Reading>, i: nat)
    requires EI.Inv(s0) && C.Acceptable(target, s0.cfg.available) && target != s0.cfg.config
    requires b <= |s0.log.sent| && Waits(w, target)
    requires var s1 := Written(s0, target, id, at); var s := E.Run(s1, later);
      && !EarlyNotice(s1, b, w.conn.value.snapshotSeq)
      && CalmRun(s1, later) && Delivered(s, b, readings, target) && i < |readings| && EndsWait(w, s.log.sent[b..], readings, i)
    ensures var s1 := Written(s0, target, id, at); var s := E.Run(s1, later);
      var recs := s.log.sent[b..];
      var before, after := After(w, recs, readings, i), After(w, recs, readings, i + 1);
      && MadeAfter(s1, later, b + i)
      && before.known == w.known && Announcements(before.emitted) == Announcements(w.emitted)
      && after.known == OnOffOf(InputPins(target), recs[i].report.levels, S.LowPins(after))
  {
    WrittenSettles(s0, target, id, at);
    LateIsUsed(Written(s0, target, id, at), later, target, b, w, readings, i);
  }
}
