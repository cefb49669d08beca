/** Snapshots and the reports around them: when a report that was on its way before a snapshot is announced
    again, and how the watcher catches up when events are queued. */
module Snapshots {
  import opened Protocol
  import opened EventQueue
  import opened EndToEnd
  import E = EngineSpec
  import R = Replay
  import EI = EngineInvariants
  import S = WatchSpec
  import I = WatchInvariants
  import L = WatchLifecycle
  import K = DeviceClock

  // ---- a snapshot ahead of queued events ----

  /** A snapshot with events still queued teaches nothing, so that none of them counts twice. */
  lemma BusySnapshotIgnored(w: S.Watch, io: S.SnapshotIO, config: PinConfig)
    requires Ready(w, config) && io.status.Got?
    requires io.status.value.reasons == {HostRequest} && io.status.value.more
    ensures var w' := S.Snapshot(w, io);
      && Ready(w', config) && w'.known == w.known && w'.activeLow == w.activeLow && w'.conn.value.snapshotSeq.None?
      && Announcements(w'.emitted) == Announcements(w.emitted)
  {
    var r := io.status.value;
    var w0 := w.(conn := Some(w.conn.value.(snapshotSeq := None)));
    I.ArriveKeeps(w0, r, io.at, 0);
    ArriveAnnounces(w0, r, io.at, 0);
  }

  /** Any report that is not stale brings the watcher in step with its levels. */
  lemma ReportTeaches(w: S.Watch, config: PinConfig, r: E.Record, at: int, missed: nat, io: S.ChangeIO)
    requires Ready(w, config) && w.conn.value.snapshotSeq.None? && io.found == S.Got(config)
    requires EI.RecordOk(r) && r.report.monitored == InputPins(config)
    ensures var w' := S.TakeStatus(w, r.report, at, missed, io);
      InStep(w', config, r.report.levels) && w'.activeLow == w.activeLow && w'.conn.value.snapshotSeq.None?
  {
    I.ArriveKeeps(w, r.report, at, missed);
    var w1 := S.Arrive(w, r.report, at, missed);
    var w2 := if ConfigChanged in r.report.reasons then S.ConfigChange(w1, io) else w1;
    ReadySettles(w1, config, io);
    ReportFollowed(w1, r.report, io);
    I.AbsorbKeeps(w2, r.report);
  }

  lemma ReadySettles(w: S.Watch, config: PinConfig, io: S.ChangeIO)
    requires Ready(w, config) && io.found == S.Got(config)
    ensures var w' := S.ConfigChange(w, io); Ready(w', config) && w' == w.(known := w'.known)
  {
    I.SetConfigKeeps(w, config);
  }

  lemma FirstReceived(w: S.Watch, config: PinConfig, r: E.Record, reading: Reading)
    requires Ready(w, config) && w.conn.value.snapshotSeq.None? && reading.change.found == S.Got(config)
    requires EI.RecordOk(r) && r.report.monitored == InputPins(config)
    ensures var w' := S.Received(w, Packet(r.report), reading.at, reading.change);
      InStep(w', config, r.report.levels) && w'.activeLow == w.activeLow && w'.conn.value.snapshotSeq.None?
  {
    PacketReceived(w, r.report, reading);
    var c := w.conn.value;
    ReportTeaches(w.(conn := Some(c.(lastSeq := Some(r.report.seqNo)))), config, r, reading.at,
                  S.Missed(c.lastSeq, r.report.seqNo), reading.change);
  }

  lemma {:induction false} ChainTail(pins: set<nat>, base: set<nat>, recs: seq<E.Record>)
    requires Chain(pins, base, recs) && recs != []
    ensures Link(pins, base, recs[0]) && Chain(pins, recs[0].report.levels, recs[1..])
    ensures LastLevels(recs[0].report.levels, recs[1..]) == LastLevels(base, recs)
  {
    if |recs| > 1 {
      var before := recs[..|recs| - 1];
      ChainTail(pins, base, before);
      assert recs[1..][..|recs| - 2] == before[1..];
    }
  }

  /** A watcher that takes its snapshot while events are queued learns from the first report after it
      instead; from the second on every edge is announced exactly once. With nothing queued in the end, it
      knows the confirmed levels. */
  lemma CatchesUp(
      available: set<nat>, started: nat, earlier: seq<E.Action>, later: seq<E.Action>, at: u64,
      w: S.Watch, io: S.SnapshotIO, first: Reading, readings: seq<Reading>)
    requires var s0 := E.Run(E.Init(available, started), earlier); var s := E.Run(s0, later);
      && s0.fifo.queue != [] && Steady(s0) && CalmRun(s0, later) && s.fifo.lost <= s0.fifo.lost
      && |s.log.sent| > |s0.log.sent| && |readings| == |s.log.sent| - |s0.log.sent| - 1
      && first.change.found == S.Got(s0.cfg.config) && Answers(readings, s0.cfg.config)
      && Ready(w, s0.cfg.config) && io.status == S.Got(E.StatusReply(s0, at))
    ensures var s0 := E.Run(E.Init(available, started), earlier); var s := E.Run(s0, later);
      var recs := s.log.sent[|s0.log.sent|..];
      var w1 := S.Snapshot(w, io);
      var w2 := S.Received(w1, Packet(recs[0].report), first.at, first.change);
      var w3 := ReceiveAll(w2, recs[1..], readings);
      && Announcements(w1.emitted) == Announcements(w.emitted)
      && Announcements(w3.emitted) == Announcements(w2.emitted) + ToldRecords(recs[1..], S.LowPins(w2))
      && (s.fifo.queue == [] ==>
            w3.known == OnOffOf(s.pub.monitored, E.ConfirmedLevels(s.pub.monitored, s.deb), S.LowPins(w3)))
  {
    var s0 := E.Run(E.Init(available, started), earlier);
    var s := E.Run(s0, later);
    var config, recs := s0.cfg.config, s.log.sent[|s0.log.sent|..];
    RunSince(s0, later);
    BusySnapshotIgnored(w, io, config);
    var w1 := S.Snapshot(w, io);
    ChainTail(s.pub.monitored, s0.pub.reported, recs);
    FirstReceived(w1, config, recs[0], first);
    var w2 := S.Received(w1, Packet(recs[0].report), first.at, first.change);
    LiveReceived(w2, config, recs[0].report.levels, recs[1..], readings);
    var w3 := ReceiveAll(w2, recs[1..], readings);
    if s.fifo.queue == [] {
      QuietLevels(s0, s, S.LowPins(w3));
    }
  }

  // ---- a snapshot numbered 0 ----

  lemma {:induction false} TellingCount(out: seq<S.Event>)
    requires L.AllTelling(out)
    ensures |Announcements(out)| == |out|
  {
    if out != [] {
      TellingCount(out[..|out| - 1]);
    }
  }

  /** Events on known pins are announced at least once each, whatever is known of their pins. */
  lemma {:induction false} EventsAnnounced(
      a: S.Absorbed, edges: seq<EdgeEvent>, timestamp: u64, low: set<nat>, clock: K.Clock)
    requires L.AllTelling(a.out) && EdgesOn(a.known.Keys, edges)
    ensures var a' := S.AbsorbEvents(a, E.ToWireEvents(edges, timestamp), timestamp, low, clock);
      L.AllTelling(a'.out) && |a'.out| >= |a.out| + |edges|
    decreases |edges|
  {
    if edges != [] {
      var events := E.ToWireEvents(edges, timestamp);
      assert events[1..] == E.ToWireEvents(edges[1..], timestamp);
      EventsAnnounced(S.AbsorbEvent(a, events[0], timestamp, low, clock), edges[1..], timestamp, low, clock);
    }
  }

  lemma {:induction false} LevelsAnnounced(a: S.Absorbed, r: Report, n: nat, low: set<nat>)
    requires n <= GPIO_COUNT && L.AllTelling(a.out)
    ensures var a' := S.AbsorbLevels(a, r, n, low); L.AllTelling(a'.out) && |a'.out| >= |a.out|
    decreases GPIO_COUNT - n
  {
    if n < GPIO_COUNT {
      LevelsAnnounced(S.AbsorbLevel(a, r, n, low), r, n + 1, low);
    }
  }

  lemma ReportAnnounced(known: map<nat, bool>, r: E.Record, low: set<nat>, clock: K.Clock)
    requires EI.RecordOk(r) && EdgesOn(known.Keys, r.edges)
    ensures |Announcements(S.AbsorbReport(known, r.report, low, clock).out)| >= |r.edges|
  {
    var a0 := S.Absorbed(known, []);
    EventsAnnounced(a0, r.edges, r.report.timestamp, low, clock);
    LevelsAnnounced(S.AbsorbEvents(a0, r.report.events, r.report.timestamp, low, clock), r.report, 0, low);
    TellingCount(S.AbsorbReport(known, r.report, low, clock).out);
  }

  lemma AbsorbAnnounces(w: S.Watch, config: PinConfig, levels: set<nat>, r: E.Record)
    requires InStep(w, config, levels) && EI.RecordOk(r) && EdgesOn(InputPins(config), r.edges)
    ensures |Announcements(S.Absorb(w, r.report).emitted)| >= |Announcements(w.emitted)| + |r.edges|
  {
    var low, clock := S.LowPins(w), w.conn.value.clock;
    ReportAnnounced(w.known, r, low, clock);
    AnnouncementsAppend(w.emitted, S.AbsorbReport(w.known, r.report, low, clock).out);
  }

  /** A report that is not stale announces its edges on the known pins, whatever is known of them. */
  lemma NotStaleRepeats(
      w: S.Watch, config: PinConfig, levels: set<nat>, r: E.Record, at: int, missed: nat, io: S.ChangeIO)
    requires InStep(w, config, levels) && io.found == S.Got(config) && !S.StaleFor(w.conn.value, r.report)
    requires EI.RecordOk(r) && EdgesOn(InputPins(config), r.edges)
    ensures |Announcements(S.TakeStatus(w, r.report, at, missed, io).emitted)| >= |Announcements(w.emitted)| + |r.edges|
  {
    ArriveInStep(w, config, levels, r.report, at, missed);
    var w1 := S.Arrive(w, r.report, at, missed);
    SameConfigKept(w1, config, levels, io);
    AbsorbAnnounces(w1, config, levels, r);
  }

  /** Why the number matters: after a snapshot numbered 0, a report from before the snapshot is not told
      apart from a later one, and each of its edges, reflected in the snapshot already, is announced again. */
  lemma ZeroSnapshotRepeats(s0: E.State, w: S.Watch, io: S.SnapshotIO, at: u64, reading: Reading)
    requires Quiet(s0) && s0.tx.hasSent && s0.tx.lastSeq == 0 && Ready(w, s0.cfg.config)
    requires io.status == S.Got(E.StatusReply(s0, at)) && reading.change.found == S.Got(s0.cfg.config)
    requires EdgesOn(s0.pub.monitored, s0.log.sent[|s0.log.sent| - 1].edges)
    ensures var last, w1 := s0.log.sent[|s0.log.sent| - 1], S.Snapshot(w, io);
      var w2 := S.Received(w1, Packet(last.report), reading.at, reading.change);
      |Announcements(w2.emitted)| >= |Announcements(w1.emitted)| + |last.edges|
  {
    var last, w1 := s0.log.sent[|s0.log.sent| - 1], S.Snapshot(w, io);
    ReplyLevels(s0, at, S.LowPins(w));
    SnapshotTaken(w, io, s0.cfg.config, s0.pub.reported);
    PacketReceived(w1, last.report, reading);
    var c := w1.conn.value;
    NotStaleRepeats(w1.(conn := Some(c.(lastSeq := Some(last.report.seqNo)))), s0.cfg.config, s0.pub.reported, last,
                    reading.at, S.Missed(c.lastSeq, last.report.seqNo), reading.change);
  }

  // ---- exactly when the reports before a snapshot add nothing ----

  /** A connected watcher that follows the configuration in force and compares reports with no number. */
  ghost predicate Listening(w: S.Watch, config: PinConfig) {
    && w.conn.Some? && !w.conn.value.awaiting && w.conn.value.snapshotSeq.None? && !w.stopped
    && w.config == config && (w.target.Some? ==> w.target.value == config) && I.KnownInv(w.known)
  }

  ghost predicate Within(a: map<nat, bool>, b: map<nat, bool>) {
    forall n :: n in a ==> n in b && a[n] == b[n]
  }

  /** Between two states of the watcher no announcement was taken back, and if none was made nothing became
      known. */
  ghost predicate NothingLearned(w: S.Watch, w': S.Watch) {
    && |Announcements(w'.emitted)| >= |Announcements(w.emitted)|
    && (|Announcements(w'.emitted)| == |Announcements(w.emitted)| ==> Within(w'.known, w.known))
  }

  /** The same announcements and the same knowledge. */
  ghost predicate NothingAdded(w: S.Watch, w': S.Watch) {
    |Announcements(w'.emitted)| == |Announcements(w.emitted)| && w'.known == w.known
  }

  /** What was added or forgotten once stays so. */
  lemma AddedStays(w: S.Watch, w1: S.Watch, w2: S.Watch)
    requires NothingLearned(w, w1) && NothingLearned(w1, w2)
    ensures NothingLearned(w, w2) && (NothingAdded(w, w2) ==> NothingAdded(w, w1))
  {
    if NothingAdded(w, w2) {
      assert forall n :: n in w.known <==> n in w1.known;
    }
  }

  lemma {:induction false} EventsGrow(a: S.Absorbed, edges: seq<EdgeEvent>, timestamp: u64, low: set<nat>, clock: K.Clock)
    ensures var a' := S.AbsorbEvents(a, E.ToWireEvents(edges, timestamp), timestamp, low, clock);
      && a'.known.Keys == a.known.Keys && |a'.out| >= |a.out|
      && ((exists i :: 0 <= i < |edges| && edges[i].gpio in a.known) ==> |a'.out| > |a.out|)
    decreases |edges|
  {
    if edges != [] {
      var a1 := S.AbsorbEvent(a, E.ToWireEvents(edges, timestamp)[0], timestamp, low, clock);
      assert E.ToWireEvents(edges, timestamp)[1..] == E.ToWireEvents(edges[1..], timestamp);
      EventsGrow(a1, edges[1..], timestamp, low, clock);
      if i :| 0 <= i < |edges| && edges[i].gpio in a.known && i > 0 {
        assert edges[1..][i - 1] == edges[i];
      }
    }
  }

  /** What absorbing any report can do: it knows the report's monitored pins afterwards, and if it announces
      nothing they were known before, with the same ON/OFF, and no event was of a known pin. */
  lemma AbsorbWeighed(known: map<nat, bool>, r: E.Record, low: set<nat>, clock: K.Clock)
    requires EI.RecordOk(r) && I.KnownInv(known)
    ensures var a := S.AbsorbReport(known, r.report, low, clock);
      && L.AllTelling(a.out) && a.known == S.OnOff(r.report, low) && I.KnownInv(a.known)
      && (a.out == [] ==>
            && Within(a.known, known)
            && forall i :: 0 <= i < |r.edges| ==> r.edges[i].gpio !in known)
  {
    var before, a0 := [S.InitialOnOff(known)], S.Absorbed(known, []);
    assert I.Announced(before) == known by {
      assert before[..0] == [] && map[] + known == known;
    }
    I.ReportKeeps(before, known, r.report, low, clock);
    EventsGrow(a0, r.edges, r.report.timestamp, low, clock);
    var a1 := S.AbsorbEvents(a0, r.report.events, r.report.timestamp, low, clock);
    L.EventsTell(a0, r.report.events, r.report.timestamp, low, clock);
    L.LevelsTell(a1, r.report, 0, low);
    LevelsGrow(a1, r.report, 0, low);
    var a := S.AbsorbReport(known, r.report, low, clock);
    if a.out == [] {
      assert before + a.out == before;
    }
  }

  lemma {:induction false} LevelsGrow(a: S.Absorbed, r: Report, n: nat, low: set<nat>)
    requires n <= GPIO_COUNT
    ensures |S.AbsorbLevels(a, r, n, low).out| >= |a.out|
    decreases GPIO_COUNT - n
  {
    if n < GPIO_COUNT {
      LevelsGrow(S.AbsorbLevel(a, r, n, low), r, n + 1, low);
    }
  }

  /** A report taken by a listening watcher is absorbed, after the configuration was looked at. */
  lemma TakenByListener(w: S.Watch, config: PinConfig, r: E.Record, at: int, missed: nat, io: S.ChangeIO)
    requires Listening(w, config) && io.found == S.Got(config) && EI.RecordOk(r)
    ensures var w' := S.TakeStatus(w, r.report, at, missed, io);
      && Listening(w', config) && NothingLearned(w, w')
  {
    ArriveAnnounces(w, r.report, at, missed);
    var w1 := S.Arrive(w, r.report, at, missed);
    var w2 := if ConfigChanged in r.report.reasons then S.ConfigChange(w1, io) else w1;
    ConfigForgets(w1, config, io);
    ReportFollowed(w1, r.report, io);
    AbsorbAnnouncesOrShrinks(w2, r);
  }

  lemma ConfigForgets(w: S.Watch, config: PinConfig, io: S.ChangeIO)
    requires Listening(w, config) && io.found == S.Got(config)
    ensures var w' := S.ConfigChange(w, io); w' == w.(known := w'.known) && Within(w'.known, w.known)
  {
  }

  lemma AbsorbAnnouncesOrShrinks(w: S.Watch, r: E.Record)
    requires w.conn.Some? && I.KnownInv(w.known) && EI.RecordOk(r)
    ensures var w' := S.Absorb(w, r.report); NothingLearned(w, w') && I.KnownInv(w'.known)
  {
    var low, clock := S.LowPins(w), w.conn.value.clock;
    AbsorbWeighed(w.known, r, low, clock);
    var out := S.AbsorbReport(w.known, r.report, low, clock).out;
    AnnouncementsAppend(w.emitted, out);
    TellingCount(out);
  }

  lemma ListenerReceives(w: S.Watch, config: PinConfig, r: E.Record, reading: Reading)
    requires Listening(w, config) && reading.change.found == S.Got(config) && EI.RecordOk(r)
    ensures var w' := S.Received(w, Packet(r.report), reading.at, reading.change);
      Listening(w', config) && NothingLearned(w, w')
  {
    PacketReceived(w, r.report, reading);
    var c := w.conn.value;
    TakenByListener(w.(conn := Some(c.(lastSeq := Some(r.report.seqNo)))), config, r, reading.at,
                    S.Missed(c.lastSeq, r.report.seqNo), reading.change);
  }

  lemma {:induction false} ListenerReceivesAll(
      w: S.Watch, config: PinConfig, recs: seq<E.Record>, readings: seq<Reading>)
    requires Listening(w, config) && |readings| == |recs| && Answers(readings, config) && AllOk(recs)
    ensures var w' := ReceiveAll(w, recs, readings); Listening(w', config) && NothingLearned(w, w')
  {
    if recs != [] {
      var n := |recs| - 1;
      ListenerReceivesAll(w, config, recs[..n], readings[..n]);
      ListenerReceives(ReceiveAll(w, recs[..n], readings[..n]), config, recs[n], readings[n]);
    }
  }

  /** A report that shows anything else announces something or forgets a pin. */
  lemma HarmTaken(w: S.Watch, config: PinConfig, levels: set<nat>, r: E.Record, at: int, missed: nat, io: S.ChangeIO)
    requires InStep(w, config, levels) && w.conn.value.snapshotSeq.None? && io.found == S.Got(config)
    requires EI.RecordOk(r) && !Harmless(r, InputPins(config), levels)
    ensures var w' := S.TakeStatus(w, r.report, at, missed, io);
      |Announcements(w'.emitted)| > |Announcements(w.emitted)| || w'.known != w.known
  {
    ArriveInStep(w, config, levels, r.report, at, missed);
    var w1 := S.Arrive(w, r.report, at, missed);
    SameConfigKept(w1, config, levels, io);
    ReportFollowed(w1, r.report, io);
    HarmAbsorbed(w1, config, levels, r);
  }

  lemma HarmAbsorbed(w: S.Watch, config: PinConfig, levels: set<nat>, r: E.Record)
    requires InStep(w, config, levels) && EI.RecordOk(r) && !Harmless(r, InputPins(config), levels)
    ensures var w' := S.Absorb(w, r.report);
      |Announcements(w'.emitted)| > |Announcements(w.emitted)| || w'.known != w.known
  {
    var low, clock, pins := S.LowPins(w), w.conn.value.clock, InputPins(config);
    AbsorbWeighed(w.known, r, low, clock);
    var a := S.AbsorbReport(w.known, r.report, low, clock);
    AnnouncementsAppend(w.emitted, a.out);
    TellingCount(a.out);
    if a.out == [] && a.known == w.known {
      assert r.report.monitored == a.known.Keys == pins;
      forall n | n in pins ensures n in r.report.levels <==> n in levels {
        assert a.known[n] == w.known[n];
      }
    }
  }

  lemma HarmReceived(w: S.Watch, config: PinConfig, levels: set<nat>, r: E.Record, reading: Reading)
    requires InStep(w, config, levels) && w.conn.value.snapshotSeq.None? && reading.change.found == S.Got(config)
    requires EI.RecordOk(r) && !Harmless(r, InputPins(config), levels)
    ensures var w' := S.Received(w, Packet(r.report), reading.at, reading.change);
      |Announcements(w'.emitted)| > |Announcements(w.emitted)| || w'.known != w.known
  {
    PacketReceived(w, r.report, reading);
    var c := w.conn.value;
    HarmTaken(w.(conn := Some(c.(lastSeq := Some(r.report.seqNo)))), config, levels, r, reading.at,
              S.Missed(c.lastSeq, r.report.seqNo), reading.change);
  }

  lemma OneReceivedIff(w: S.Watch, config: PinConfig, levels: set<nat>, r: E.Record, reading: Reading)
    requires InStep(w, config, levels) && w.conn.value.snapshotSeq.None? && reading.change.found == S.Got(config)
    requires EI.RecordOk(r)
    ensures NothingAdded(w, S.Received(w, Packet(r.report), reading.at, reading.change)) <==>
      Harmless(r, InputPins(config), levels)
  {
    if Harmless(r, InputPins(config), levels) {
      HarmlessReceived(w, config, levels, r, reading);
    } else {
      HarmReceived(w, config, levels, r, reading);
    }
  }

  lemma InStepListens(w: S.Watch, config: PinConfig, levels: set<nat>)
    requires InStep(w, config, levels) && w.conn.value.snapshotSeq.None?
    ensures Listening(w, config)
  {
  }

  lemma HarmlessSplit(recs: seq<E.Record>, pins: set<nat>, levels: set<nat>)
    requires recs != []
    ensures AllHarmless(recs, pins, levels) <==>
      AllHarmless(recs[..|recs| - 1], pins, levels) && Harmless(recs[|recs| - 1], pins, levels)
  {
  }

  /** Reports compared with no number add nothing, and leave what is known, exactly when each of them shows the
      known pins at the known levels and no event of them. */
  lemma {:induction false} AddNothingIff(
      w: S.Watch, config: PinConfig, levels: set<nat>, recs: seq<E.Record>, readings: seq<Reading>)
    requires InStep(w, config, levels) && w.conn.value.snapshotSeq.None?
    requires |readings| == |recs| && Answers(readings, config) && AllOk(recs)
    ensures NothingAdded(w, ReceiveAll(w, recs, readings)) <==> AllHarmless(recs, InputPins(config), levels)
  {
    if recs == [] {
      assert ReceiveAll(w, recs, readings) == w;
    } else {
      var n := |recs| - 1;
      AddNothingIff(w, config, levels, recs[..n], readings[..n]);
      AddedOnceMore(w, config, levels, recs, readings);
      HarmlessSplit(recs, InputPins(config), levels);
      assert NothingAdded(w, ReceiveAll(w, recs, readings)) <==> AllHarmless(recs, InputPins(config), levels);
    }
  }

  lemma AddedOnceMore(w: S.Watch, config: PinConfig, levels: set<nat>, recs: seq<E.Record>, readings: seq<Reading>)
    requires InStep(w, config, levels) && w.conn.value.snapshotSeq.None?
    requires recs != [] && |readings| == |recs| && Answers(readings, config) && AllOk(recs)
    requires var n := |recs| - 1;
      NothingAdded(w, ReceiveAll(w, recs[..n], readings[..n])) <==> AllHarmless(recs[..n], InputPins(config), levels)
    ensures NothingAdded(w, ReceiveAll(w, recs, readings)) <==>
      AllHarmless(recs[..|recs| - 1], InputPins(config), levels) && Harmless(recs[|recs| - 1], InputPins(config), levels)
  {
    var n := |recs| - 1;
    var w1 := ReceiveAll(w, recs[..n], readings[..n]);
    InStepListens(w, config, levels);
    ListenerReceivesAll(w, config, recs[..n], readings[..n]);
    ListenerReceives(w1, config, recs[n], readings[n]);
    AddedStays(w, w1, ReceiveAll(w, recs, readings));
    if AllHarmless(recs[..n], InputPins(config), levels) {
      AllHarmlessReceived(w, config, levels, recs[..n], readings[..n]);
      OneReceivedIff(w1, config, levels, recs[n], readings[n]);
    }
  }

  /** Exactly when the reports that were on their way add nothing to a snapshot of a quiet device: they can be
      told from later ones by the snapshot's number, which is then not 0, or each of them shows what the
      snapshot shows. */
  lemma BufferedAddNothingIff(
      s0: E.State, w: S.Watch, io: S.SnapshotIO, at: u64, b: nat, buffered: seq<Reading>)
    requires Quiet(s0) && Ready(w, s0.cfg.config) && io.status == S.Got(E.StatusReply(s0, at))
    requires b <= |s0.log.sent| <= b + 0x8000 && |buffered| == |s0.log.sent| - b && Answers(buffered, s0.cfg.config)
    ensures var w1 := S.Snapshot(w, io); var w2 := ReceiveAll(w1, s0.log.sent[b..], buffered);
      NothingAdded(w1, w2) <==> BufferedHarmless(s0, b)
  {
    ReplyLevels(s0, at, S.LowPins(w));
    SnapshotTaken(w, io, s0.cfg.config, s0.pub.reported);
    var w1 := S.Snapshot(w, io);
    if Reference(s0).Some? {
      BufferedAddNothing(s0, w1, b, buffered);
    } else {
      SentAreOk(s0, b);
      AddNothingIff(w1, s0.cfg.config, s0.pub.reported, s0.log.sent[b..], buffered);
    }
  }
}
