/** Runs from power-on in which a promise is not kept: that the cases described elsewhere do occur. All are
    of a device with GPIO 0 alone. */
module Scenarios {
  import opened Protocol
  import opened EngineSpec
  import opened EngineTheorems
  import opened EventOrder
  import EventQueue
  import EI = EngineInvariants
  import D = Debounce
  import C = PinConfigCodec
  import H = HostDevice
  import End = EndToEnd
  import Snapshots
  import Gate = SettleGate
  import S = WatchSpec
  import I = WatchInvariants
  import T = WatchTheorems

  function OnePin(mode: PinMode, param: byte): PinConfig {
    seq(GPIO_COUNT, n => if n == 0 then PinSetting(mode, param) else PinSetting(Unused, 0))
  }

  lemma OnePinAcceptable(mode: PinMode, param: byte)
    requires !mode.Unused? && (mode.Output? ==> param <= 1)
    ensures C.Acceptable(OnePin(mode, param), {0})
  {
  }

  // ---- a device set up with a configuration ----

  /** A write at power-on, and a tick when the settle is over. */
  function SetUpRun(c: PinConfig): seq<Action> {
    [Configure(H.Request(c, 1), 0), Tick({}, SETTLE_US)]
  }

  function SetUp(c: PinConfig): (s: State)
    ensures Sized(s)
  {
    Run(Init({0}, 0), SetUpRun(c))
  }

  lemma SetUpSteps(c: PinConfig)
    ensures SetUp(c) == Task(SetPinConfig(Init({0}, 0), H.Request(c, 1), 0), {}, SETTLE_US)
  {
    WriteThenTick(Init({0}, 0), H.Request(c, 1), 0, SETTLE_US);
  }

  lemma WriteThenTick(s: State, p: seq<byte>, at: u64, later: u64)
    requires Sized(s)
    ensures Run(s, [Configure(p, at), Tick({}, later)]) == Task(SetPinConfig(s, p, at), {}, later)
  {
    RunOfTwo(s, Configure(p, at), Tick({}, later));
    ConfigureStep(s, p, at);
    TickStep(SetPinConfig(s, p, at), later);
  }

  lemma ConfigureStep(s: State, p: seq<byte>, at: u64)
    requires Sized(s)
    ensures Step(s, Configure(p, at)) == SetPinConfig(s, p, at)
  {
  }

  lemma TickStep(s: State, at: u64)
    requires Sized(s)
    ensures Step(s, Tick({}, at)) == Task(s, {}, at)
  {
  }

  lemma RunOfTwo(s: State, a: Action, b: Action)
    requires Sized(s)
    ensures Run(s, [a, b]) == Step(Step(s, a), b)
  {
    assert [a, b] == [] + [a] + [b];
    RunSnoc(s, 0, [], a);
    RunSnoc(s, 0, [] + [a], b);
  }

  /** Nothing has been confirmed or sent yet. */
  ghost predicate Silent(s: State) {
    && Sized(s) && s.fifo.queue == [] && s.fifo.accepted == [] && s.log.sent == []
    && !s.tx.hasSent && s.tx.nextSeq == 0 && s.tx.reasons <= {ConfigChanged}
    && s.pub.reported == {} && forall n :: 0 <= n < GPIO_COUNT ==> !s.deb[n].pending
  }

  /** All inputs of the configuration wait for their first level, until the deadline. */
  ghost predicate Settling(s: State, c: PinConfig, deadline: nat) {
    && Silent(s) && s.cfg.config == c && s.cfg.settling == InputPins(c)
    && s.cfg.settleActive && s.cfg.settleDeadline == deadline
  }

  /** The configuration is in force and published, and every pin reads LOW. */
  ghost predicate Fresh(s: State, c: PinConfig) {
    && Silent(s) && Quiet(s) && s.cfg.config == c && s.pub.outputs == OutputPins(c)
    && forall n :: n in InputPins(c) ==> !s.deb[n].confirmed && !s.deb[n].raw
  }

  lemma PowerOnSettles()
    ensures Settling(Init({0}, 0), DefaultConfig({0}), SETTLE_US) && EI.HwInv(Init({0}, 0).cfg)
  {
    EI.InitInv({0}, 0);
  }

  lemma AcceptedWrite(s: State, c: PinConfig, id: byte, at: nat)
    requires Sized(s) && C.Acceptable(c, s.cfg.available)
    ensures SetPinConfig(s, H.Request(c, id), at) ==
      Adopt(s.(cfg := s.cfg.(result := C.RESULT_OK, resultGpio := C.GPIO_NONE, requestId := id)), c, at)
  {
    var r := C.PinConfigReport(C.RESULT_OK, C.GPIO_NONE, id, c);
    C.AcceptedIffAcceptable(r, s.cfg.available);
    C.ConfigRoundTrip(r);
  }

  lemma AdoptSettles(s: State, was: PinConfig, c: PinConfig)
    requires Settling(s, was, SETTLE_US) && EI.HwInv(s.cfg) && C.Acceptable(c, s.cfg.available)
    ensures Settling(Adopt(s, c, 0), c, SETTLE_US)
  {
    if c != was {
      var cfg' := ApplyFrom(s.cfg, c, 0, 0);
      EI.ApplyPins(s.cfg, c, 0, 0);
      forall n: nat ensures n in cfg'.settling <==> n in InputPins(c) {
        if n < GPIO_COUNT {
          assert EI.PinApplied(s.cfg, cfg', c, n, 0);
        } else {
          assert EI.PinUntouched(s.cfg, cfg', n);
        }
      }
      assert cfg'.settling == InputPins(c);
    }
  }

  lemma TickPublishes(s: State, c: PinConfig)
    requires Settling(s, c, SETTLE_US)
    ensures var s', settled := Task(s, {}, SETTLE_US), FinishSettle(s, {}, SETTLE_US);
      && Quiet(s') && s'.cfg == settled.cfg && s'.pub == settled.pub && s'.fifo == settled.fifo
      && s'.deb == settled.deb && s'.log.sent == []
  {
    QuietAfterSettle(s, SETTLE_US);
    PollUntil(FinishSettle(s, {}, SETTLE_US), SETTLE_US, 0, GPIO_COUNT);
  }

  lemma TickIsFresh(s: State, c: PinConfig)
    requires Settling(s, c, SETTLE_US) && s.tx.lastSent == 0
    ensures Fresh(Task(s, {}, SETTLE_US), c)
  {
    TickPublishes(s, c);
    PollFrame(FinishSettle(s, {}, SETTLE_US), SETTLE_US, 0);
  }

  lemma SetUpIsFresh(c: PinConfig)
    requires C.Acceptable(c, {0})
    ensures Fresh(SetUp(c), c)
    ensures var s := Adopt(Init({0}, 0).(cfg := Init({0}, 0).cfg.(requestId := 1)), c, 0);
      SetUp(c).cfg == s.cfg.(settling := {}, settleActive := false, configChanged := false)
  {
    SetUpSteps(c);
    PowerOnSettles();
    AcceptedWrite(Init({0}, 0), c, 1, 0);
    var s := Init({0}, 0).(cfg := Init({0}, 0).cfg.(requestId := 1));
    AdoptSettles(s, DefaultConfig({0}), c);
    TickPublishes(Adopt(s, c, 0), c);
    TickIsFresh(Adopt(s, c, 0), c);
  }

  // ---- an edge processed after a resynchronisation that was stamped later ----

  /** GPIO 0 alone is monitored, without a debounce time. */
  ghost predicate OneQuickPin(s: State) {
    Fresh(s, OnePin(InputPullUp, 0))
  }

  lemma QuickPinTracked(s: State)
    requires OneQuickPin(s)
    ensures Tracking(s.cfg, s.pub, 0) && forall n :: 0 < n < GPIO_COUNT ==> !Tracking(s.cfg, s.pub, n)
    ensures s.deb[0] == D.Deb(false, false, false, s.deb[0].lastChange, 0)
  {
    assert 0 in InputPins(OnePin(InputPullUp, 0));
  }

  /** With GPIO 0 alone monitored, a resynchronisation is one edge of it. */
  lemma OnlyPinResynced(s: State, raw: set<nat>, at: nat)
    requires Sized(s) && Tracking(s.cfg, s.pub, 0) && (0 in raw) != s.deb[0].raw
    requires forall n :: 0 < n < GPIO_COUNT ==> !Tracking(s.cfg, s.pub, n)
    ensures ResyncFrom(s, raw, at, 0) == OnEdge(s, 0, 0 in raw, at)
  {
    NoneResynced(OnEdge(s, 0, 0 in raw, at), raw, at, 1);
  }

  lemma {:induction false} NoneResynced(s: State, raw: set<nat>, at: nat, n: nat)
    requires Sized(s) && n <= GPIO_COUNT && forall m :: n <= m < GPIO_COUNT ==> !Tracking(s.cfg, s.pub, m)
    ensures ResyncFrom(s, raw, at, n) == s
    decreases GPIO_COUNT - n
  {
    if n < GPIO_COUNT {
      NoneResynced(s, raw, at, n + 1);
    }
  }

  lemma LateEdge(s: State, late: nat, at: nat)
    requires OneQuickPin(s)
    ensures OnEdge(ResyncFrom(s, {0}, at, 0), 0, false, late).fifo.accepted ==
      [EventQueue.EdgeEvent(0, true, at), EventQueue.EdgeEvent(0, false, late)]
  {
    QuickPinTracked(s);
    OnlyPinResynced(s, {0}, at);
    ChangeOf(s, 0, at);
    ChangeOf(OnEdge(s, 0, true, at), 0, late);
  }

  /** The interrupt handler stamps a falling edge at 2000 us. Before the main loop takes it from the ring, it
      resynchronises at 3000 us, because the ring overflowed, and reads the pin HIGH. */
  lemma LateEdgeBreaksPinOrder()
    ensures var s := Run(SetUp(OnePin(InputPullUp, 0)), [Resync({0}, 3000), Edge(0, false, 2000)]);
      && s.fifo.accepted == [EventQueue.EdgeEvent(0, true, 3000), EventQueue.EdgeEvent(0, false, 2000)]
      && !PinOrdered(s.fifo.accepted, 0)
  {
    var s := SetUp(OnePin(InputPullUp, 0));
    SetUpIsFresh(OnePin(InputPullUp, 0));
    LateEdge(s, 2000, 3000);
    RunOfTwo(s, Resync({0}, 3000), Edge(0, false, 2000));
    OutOfOrder(Run(s, [Resync({0}, 3000), Edge(0, false, 2000)]).fifo.accepted);
  }

  lemma OutOfOrder(q: seq<EventQueue.EdgeEvent>)
    requires |q| == 2 && q[0].gpio == q[1].gpio && q[0].start > q[1].start
    ensures !PinOrdered(q, 0)
  {
  }

  // ---- a first report with an edge ----

  /** One edge, and the report that carries it, which is the first and has the number 0. */
  function FirstReported(): (s: State)
    ensures Sized(s)
  {
    Run(SetUp(OnePin(InputPullUp, 0)), [Edge(0, true, 2000), SendReport(3000, true)])
  }

  lemma FirstIsSent(s: State)
    requires OneQuickPin(s)
    ensures var s' := Send(OnEdge(s, 0, true, 2000), 3000, true);
      && s'.fifo.queue == [] && !s'.cfg.settleActive && s'.cfg == s.cfg && s'.pub.monitored == s.pub.monitored
      && s'.tx.hasSent && s'.tx.lastSeq == 0
      && |s'.log.sent| == 1 && s'.log.sent[0].edges == [EventQueue.EdgeEvent(0, true, 2000)]
  {
    QuickPinTracked(s);
    ChangeOf(s, 0, 2000);
    SentGrows(OnEdge(s, 0, true, 2000), SendReport(3000, true));
  }

  lemma FirstReportOf(s: State)
    requires OneQuickPin(s) && EI.Inv(s)
    ensures var s' := Run(s, [Edge(0, true, 2000), SendReport(3000, true)]);
      && End.Quiet(s') && s'.tx.hasSent && s'.tx.lastSeq == 0 && s'.cfg.config == OnePin(InputPullUp, 0)
      && |s'.log.sent| == 1 && s'.log.sent[0].edges == [EventQueue.EdgeEvent(0, true, 2000)]
      && s'.pub.monitored == InputPins(OnePin(InputPullUp, 0)) == {0}
  {
    RunOfTwo(s, Edge(0, true, 2000), SendReport(3000, true));
    FirstIsSent(s);
    EI.RunKeeps(s, [Edge(0, true, 2000), SendReport(3000, true)]);
  }

  lemma SetUpInv(c: PinConfig)
    ensures EI.Inv(SetUp(c))
  {
    EI.AlwaysInv({0}, 0, SetUpRun(c));
  }

  lemma FirstReportHasEdge()
    ensures var s := FirstReported();
      && End.Quiet(s) && s.tx.hasSent && s.tx.lastSeq == 0 && s.cfg.config == OnePin(InputPullUp, 0)
      && |s.log.sent| == 1 && s.log.sent[0].edges == [EventQueue.EdgeEvent(0, true, 2000)]
      && s.pub.monitored == InputPins(OnePin(InputPullUp, 0)) == {0}
  {
    var s := SetUp(OnePin(InputPullUp, 0));
    assert OneQuickPin(s) && EI.Inv(s) by {
      SetUpIsFresh(OnePin(InputPullUp, 0));
      SetUpInv(OnePin(InputPullUp, 0));
    }
    FirstReportOf(s);
  }

  /** A watcher that takes its snapshot then, and afterwards reads that report, announces the edge although the
      snapshot had it. */
  lemma FirstReportRepeats(w: S.Watch, io: S.SnapshotIO, at: u64, reading: End.Reading)
    requires End.Ready(w, OnePin(InputPullUp, 0)) && io.status == S.Got(StatusReply(FirstReported(), at))
    requires reading.change.found == S.Got(OnePin(InputPullUp, 0))
    ensures |FirstReported().log.sent| == 1 && !End.BufferedHarmless(FirstReported(), 0)
    ensures var w1 := S.Snapshot(w, io);
      var w2 := S.Received(w1, End.Packet(FirstReported().log.sent[0].report), reading.at, reading.change);
      |End.Announcements(w2.emitted)| > |End.Announcements(w1.emitted)|
  {
    FirstReportHasEdge();
    var s := FirstReported();
    Snapshots.ZeroSnapshotRepeats(s, w, io, at, reading);
    assert s.log.sent[0..][0] == s.log.sent[0];
    assert s.log.sent[0].edges[0].gpio in InputPins(s.cfg.config);
  }

  // ---- a notice of an earlier change ----

  /** The configuration with the pull-up was announced; the report has not been read yet. */
  function AnnouncedPullUp(): (s: State)
    ensures Sized(s)
  {
    Send(SetUp(OnePin(InputPullUp, 0)), 2000, true)
  }

  lemma SetUpIsAnnounced(c: PinConfig)
    requires C.Acceptable(c, {0}) && c != DefaultConfig({0})
    ensures ConfigChanged in SetUp(c).tx.reasons
  {
    var s, tick := Init({0}, 0), [Tick({}, SETTLE_US)];
    assert H.Writes(tick) == [] && tick[0] == Tick({}, SETTLE_US);
    H.WriteIsPublished(s, c, 1, 0, tick);
    assert H.TickedAt(tick, SETTLE_US);
    SetUpSteps(c);
    SetUpIsFresh(c);
    assert Run(SetPinConfig(s, H.Request(c, 1), 0), tick) == SetUp(c) by {
      assert tick[..0] == [];
      TickStep(SetPinConfig(s, H.Request(c, 1), 0), SETTLE_US);
    }
  }

  lemma PullUpShown(s: State)
    requires OneQuickPin(s) && ConfigChanged in s.tx.reasons
    ensures var s' := Send(s, 2000, true);
      && s'.cfg == s.cfg && |s'.log.sent| == 1 && ConfigChanged in s'.log.sent[0].report.reasons
      && s'.log.sent[0].report.monitored == {0} && 0 !in s'.log.sent[0].report.levels
  {
    assert InputPins(OnePin(InputPullUp, 0)) == {0} && OutputPins(OnePin(InputPullUp, 0)) == {};
  }

  lemma PullUpAnnounced()
    ensures var s := AnnouncedPullUp();
      && EI.Inv(s) && s.cfg.config == OnePin(InputPullUp, 0) && s.cfg.available == {0}
      && |s.log.sent| == 1 && ConfigChanged in s.log.sent[0].report.reasons
      && s.log.sent[0].report.monitored == {0} && 0 !in s.log.sent[0].report.levels
  {
    var c := OnePin(InputPullUp, 0);
    assert DefaultConfig({0})[0] != c[0];
    SetUpIsFresh(c);
    SetUpIsAnnounced(c);
    SetUpInv(c);
    PullUpShown(SetUp(c));
    EI.SendKeeps(SetUp(c), 2000, true);
    AvailableIsFixed({0}, 0, SetUpRun(c));
  }

  /** The watcher connects, finds the pull-up and writes the pull-down. */
  const WRITTEN := S.ConnectIO(
    S.Entries(["a"]), S.Got(()), S.Got({0}), S.Got(OnePin(InputPullUp, 0)), S.Applied, 0,
    S.SnapshotIO(S.Got(REPLY), 0, NO_CHANGE))

  function WritingWatcher(): S.Watch {
    S.Step(S.Init(map[], 10, None, Some(OnePin(InputPullDown, 0)), 0), S.ScanTimer(0, WRITTEN))
  }

  lemma WriterWaits()
    ensures var w := WritingWatcher();
      && Gate.Waits(w, OnePin(InputPullDown, 0)) && w.conn.value.snapshotSeq.None? && w.activeLow == map[]
  {
    var target := OnePin(InputPullDown, 0);
    var w0 := S.Init(map[], 10, None, Some(target), 0);
    var w := w0.(scanAt := None, serial := Some("a"), available := Some({0}));
    assert S.Matching(None, ["a"]) == ["a"];
    assert OnePin(InputPullUp, 0)[0] != target[0];
    Gate.ConnectWaits(w, OnePin(InputPullUp, 0), target, WRITTEN);
    assert WritingWatcher() == S.Settle(w, OnePin(InputPullUp, 0), WRITTEN);
  }

  /** The watcher takes the level LOW, which was read with the pull-up and means ON with it, for the level of the
      pin with the pull-down, OFF, while the device is still waiting for the pin to settle. */
  lemma OldLevelIsUsed(at: u64, reading: End.Reading)
    requires reading.change.found == S.Got(OnePin(InputPullDown, 0))
    ensures var s0, w := AnnouncedPullUp(), WritingWatcher();
      var s1 := Gate.Written(s0, OnePin(InputPullDown, 0), 2, at);
      && s1.cfg.settleActive && |s0.log.sent| == 1 && Gate.EarlyNotice(s1, 0, None)
      && var r := s0.log.sent[0].report; var w' := S.Received(w, End.Packet(r), reading.at, reading.change);
      && S.OnOff(r, S.LowPinsOf(map[], OnePin(InputPullUp, 0))) == map[0 := true]
      && w.conn.Some? && w.conn.value.awaiting && w'.conn.Some? && !w'.conn.value.awaiting
      && w'.known == map[0 := false]
  {
    var s0, w := AnnouncedPullUp(), WritingWatcher();
    PullUpAnnounced();
    WriterWaits();
    OldNoticeIsEarly(s0, at);
    OldNoticeEnds(w, s0.log.sent[0], reading);
  }

  lemma OldNoticeIsEarly(s0: State, at: u64)
    requires EI.Inv(s0) && s0.cfg.config == OnePin(InputPullUp, 0) && s0.cfg.available == {0}
    requires |s0.log.sent| == 1 && ConfigChanged in s0.log.sent[0].report.reasons
    ensures var s1 := Gate.Written(s0, OnePin(InputPullDown, 0), 2, at);
      s1.cfg.settleActive && Gate.EarlyNotice(s1, 0, None)
  {
    var target := OnePin(InputPullDown, 0);
    assert s0.cfg.config[0] != target[0];
    OnePinAcceptable(InputPullDown, 0);
    Gate.WrittenSettles(s0, target, 2, at);
    FirstOnItsWay(Gate.Written(s0, target, 2, at));
  }

  lemma FirstOnItsWay(s1: State)
    requires Sized(s1) && |s1.log.sent| == 1 && ConfigChanged in s1.log.sent[0].report.reasons
    ensures Gate.EarlyNotice(s1, 0, None)
  {
    Gate.SendExtends(s1);
    var recs := Gate.OnTheirWay(s1, 0);
    assert recs[0] == s1.log.sent[0];
    assert !Gate.IsOld(None, recs[0]) && Gate.Heard(None, recs, 0);
    assert Gate.Opens(None, recs, 0);
  }

  lemma OldNoticeEnds(w: S.Watch, r: Record, reading: End.Reading)
    requires EI.RecordOk(r) && ConfigChanged in r.report.reasons
    requires r.report.monitored == {0} && 0 !in r.report.levels
    requires Gate.Waits(w, OnePin(InputPullDown, 0)) && w.conn.value.snapshotSeq.None? && w.activeLow == map[]
    requires reading.change.found == S.Got(OnePin(InputPullDown, 0))
    ensures var w' := S.Received(w, End.Packet(r.report), reading.at, reading.change);
      && S.OnOff(r.report, S.LowPinsOf(map[], OnePin(InputPullUp, 0))) == map[0 := true]
      && w'.conn.Some? && !w'.conn.value.awaiting && w'.known == map[0 := false]
  {
    Gate.ReportPasses(w, OnePin(InputPullDown, 0), r, reading);
    LowMeans(r.report, InputPullUp);
    NoticeUsed(w, S.Received(w, End.Packet(r.report), reading.at, reading.change), r);
  }

  lemma NoticeUsed(w: S.Watch, w': S.Watch, r: Record)
    requires ConfigChanged in r.report.reasons && r.report.monitored == {0} && 0 !in r.report.levels
    requires w.conn.Some? && w.conn.value.awaiting && w.conn.value.snapshotSeq.None? && w.activeLow == map[]
    requires w.config == OnePin(InputPullDown, 0) && Gate.Passed(w, w', OnePin(InputPullDown, 0), r)
    ensures w'.conn.Some? && !w'.conn.value.awaiting && w'.known == map[0 := false]
  {
    LowMeans(r.report, InputPullDown);
  }

  /** A pin that reads LOW is ON with the pull-up only. */
  lemma LowMeans(r: Report, mode: PinMode)
    requires r.monitored == {0} && 0 !in r.levels
    ensures S.OnOff(r, S.LowPinsOf(map[], OnePin(mode, 0))) == map[0 := mode.InputPullUp?]
  {
    assert 0 in S.LowPinsOf(map[], OnePin(mode, 0)) <==> mode.InputPullUp?;
  }

  // ---- an output whose level moves before the masks ----

  lemma HighWritten(s: State, at: u64)
    requires Fresh(s, OnePin(PinMode.Output, 0)) && s.cfg.available == {0} && s.cfg.outputLevels == {}
    ensures var s' := SetPinConfig(s, H.Request(OnePin(PinMode.Output, 1), 2), at);
      s'.cfg.outputLevels == {0} && s'.cfg.settleActive && s'.pub == s.pub
  {
    OnePinAcceptable(PinMode.Output, 1);
    AcceptedWrite(s, OnePin(PinMode.Output, 1), 2, at);
    FreshOutput(s.(cfg := s.cfg.(result := C.RESULT_OK, resultGpio := C.GPIO_NONE, requestId := 2)),
                PinMode.Output, 0, 1, at);
  }

  lemma OutputShown(s: State, now: u64)
    requires Sized(s) && s.pub.monitored == InputPins(OnePin(PinMode.Output, 0))
    requires s.pub.outputs == OutputPins(OnePin(PinMode.Output, 0)) && s.cfg.outputLevels <= {0}
    ensures StatusReply(s, now).levels == s.cfg.outputLevels
  {
    var c := OnePin(PinMode.Output, 0);
    assert InputPins(c) == {} && OutputPins(c) == {0};
  }

  lemma HighShowsAtOnce(s: State, at: u64, now: u64)
    requires Fresh(s, OnePin(PinMode.Output, 0)) && s.cfg.available == {0} && s.cfg.outputLevels == {}
    ensures var s' := SetPinConfig(s, H.Request(OnePin(PinMode.Output, 1), 2), at);
      && StatusReply(s, now).levels == {} && StatusReply(s', now).levels == {0}
      && s'.cfg.settleActive && s'.pub == s.pub
  {
    HighWritten(s, at);
    OutputShown(s, now);
    OutputShown(SetPinConfig(s, H.Request(OnePin(PinMode.Output, 1), 2), at), now);
  }

  lemma DefaultIsOnePin()
    ensures DefaultConfig({0}) == OnePin(InputPullUp, 20)
  {
  }

  lemma LowOutputLevels()
    ensures SetUp(OnePin(PinMode.Output, 0)).cfg.outputLevels == {}
    ensures Fresh(SetUp(OnePin(PinMode.Output, 0)), OnePin(PinMode.Output, 0))
  {
    DefaultIsOnePin();
    FreshOutput(Init({0}, 0).(cfg := Init({0}, 0).cfg.(requestId := 1)), InputPullUp, 20, 0, 0);
    OnePinAcceptable(PinMode.Output, 0);
    SetUpIsFresh(OnePin(PinMode.Output, 0));
  }

  lemma LowOutputSetUp()
    ensures var s := SetUp(OnePin(PinMode.Output, 0));
      Fresh(s, OnePin(PinMode.Output, 0)) && s.cfg.available == {0} && s.cfg.outputLevels == {}
  {
    LowOutputLevels();
    AvailableIsFixed({0}, 0, SetUpRun(OnePin(PinMode.Output, 0)));
  }

  /** GPIO 0 drives LOW. A write that asks for HIGH shows in the reply at once, with the old masks. */
  lemma OutputMovesEarly(at: u64, now: u64)
    ensures var s := SetUp(OnePin(PinMode.Output, 0));
      var s' := SetPinConfig(s, H.Request(OnePin(PinMode.Output, 1), 2), at);
      && StatusReply(s, now).levels == {} && StatusReply(s', now).levels == {0}
      && s'.cfg.settleActive && s'.pub == s.pub
  {
    LowOutputSetUp();
    HighShowsAtOnce(SetUp(OnePin(PinMode.Output, 0)), at, now);
  }

  /** After a write that makes GPIO 0, the only pin in use, an output of another level than before. */
  lemma FreshOutput(s: State, mode: PinMode, param: byte, level: byte, at: nat)
    requires Sized(s) && s.cfg.config == OnePin(mode, param) && s.cfg.outputLevels == {}
    requires level <= 1 && PinSetting(mode, param) != PinSetting(PinMode.Output, level)
    ensures var s' := Adopt(s, OnePin(PinMode.Output, level), at);
      s'.cfg.outputLevels == (if level == 1 then {0} else {}) && s'.cfg.settleActive && s'.pub == s.pub
  {
    var c := OnePin(PinMode.Output, level);
    var cfg' := ApplyFrom(s.cfg, c, at, 0);
    EI.ApplyPins(s.cfg, c, at, 0);
    assert s.cfg.config[0] != c[0];
    forall n: nat ensures n in cfg'.outputLevels <==> n == 0 && level == 1 {
      if n < GPIO_COUNT {
        assert EI.PinApplied(s.cfg, cfg', c, n, at);
      } else {
        assert EI.PinUntouched(s.cfg, cfg', n);
      }
    }
  }

  // ---- a new target that is not written ----

  const NO_CHANGE := S.ChangeIO(S.Failed(S.NoFault), 0, 0, S.RestoreIO(0, S.Failed(S.NoFault), S.Applied, 0))
  const REPLY := Report(0, {HostRequest}, false, false, {}, {}, {}, 0, [])

  /** The watcher finds one device with its default configuration, and takes a snapshot. */
  const FOUND := S.ConnectIO(
    S.Entries(["a"]), S.Got(()), S.Got({0}), S.Got(DefaultConfig({0})), S.Applied, 0,
    S.SnapshotIO(S.Got(REPLY), 0, NO_CHANGE))

  function ConnectedWatcher(): S.Watch {
    S.Run(S.Init(map[], 10, None, None, 0), [S.ScanTimer(0, FOUND)])
  }

  lemma WatcherConnects()
    ensures var w := ConnectedWatcher();
      && I.Inv(w) && w.conn.Some? && !w.stopped && w.config == DefaultConfig({0})
      && w.available == Some({0}) && w.target.None? && w.restoreAt.None?
  {
    var w0 := S.Init(map[], 10, None, None, 0);
    var inputs := [S.ScanTimer(0, FOUND)];
    assert inputs[..0] == [] && S.Run(w0, inputs[..0]) == w0;
    assert ConnectedWatcher() == S.Step(w0, S.ScanTimer(0, FOUND));
    I.AlwaysInv(map[], 10, None, None, 0, [S.ScanTimer(0, FOUND)]);
    assert S.Matching(None, ["a"]) == ["a"];
    DefaultAttached(w0.(scanAt := None, serial := Some("a"), available := Some({0})));
  }

  lemma DefaultAttached(w: S.Watch)
    requires w.target.None? && w.conn.None? && !w.stopped && w.restoreAt.None? && w.available == Some({0})
    ensures var w' := S.Settle(w, DefaultConfig({0}), FOUND);
      && w'.conn.Some? && !w'.stopped && w'.config == DefaultConfig({0}) && w'.target.None?
      && w'.available == Some({0}) && w'.restoreAt.None?
  {
    var w1 := S.Attach(w, DefaultConfig({0}), false, {});
    T.AttachFrame(w, DefaultConfig({0}), false, {});
    T.StatusForgets(w1.(conn := Some(w1.conn.value.(snapshotSeq := None))), REPLY, 0, 0, NO_CHANGE);
  }

  /** The configuration is read, and its write does not arrive. */
  const LOST_WRITE := S.TargetIO(S.Got(DefaultConfig({0})), S.SetFailed(S.Fault.Fault("write")), 1)

  lemma LostWrite(w: S.Watch, target: PinConfig)
    requires w.conn.Some? && !w.stopped && w.available == Some({0}) && w.target.None?
    requires S.Suits(target, {0}) && DefaultConfig({0}) != target
    ensures var w' := S.SetTarget(w, target, LOST_WRITE);
      w'.conn.Some? && w'.target == Some(target) && !T.TargetTaken(w, target, LOST_WRITE) && !T.Follows(w')
  {
    T.NewTargetFollowedIff(w, target, LOST_WRITE);
    TargetKept(w, target);
  }

  lemma TargetKept(w: S.Watch, target: PinConfig)
    requires w.conn.Some? && !w.stopped && w.available == Some({0}) && S.Suits(target, {0})
    requires DefaultConfig({0}) != target
    ensures var w' := S.SetTarget(w, target, LOST_WRITE); w'.conn.Some? && w'.target == Some(target)
  {
  }

  /** The watcher keeps a target that it does not follow. */
  lemma TargetIsNotWritten()
    ensures var w, target := ConnectedWatcher(), OnePin(PinMode.Output, 0);
      var w' := S.Step(w, S.NewTarget(target, LOST_WRITE));
      w'.conn.Some? && w'.target == Some(target) && !T.TargetTaken(w, target, LOST_WRITE) && !T.Follows(w')
  {
    WatcherConnects();
    TargetSuits();
    LostWrite(ConnectedWatcher(), OnePin(PinMode.Output, 0));
  }

  lemma TargetSuits()
    ensures S.Suits(OnePin(PinMode.Output, 0), {0}) && DefaultConfig({0}) != OnePin(PinMode.Output, 0)
  {
    OnePinAcceptable(PinMode.Output, 0);
    C.AcceptedIffAcceptable(C.PinConfigReport(0, 0, 0, OnePin(PinMode.Output, 0)), {0});
    assert DefaultConfig({0})[0] != OnePin(PinMode.Output, 0)[0];
  }
}
