/** The engine and the watcher together: every level the device confirms after a snapshot is announced by
    the host exactly once, in order, and nothing else is. */
module EndToEnd {
  import opened Protocol
  import opened EventQueue
  import E = EngineSpec
  import R = Replay
  import EI = EngineInvariants
  import S = WatchSpec
  import I = WatchInvariants
  import T = WatchTheorems
  import L = WatchLifecycle
  import K = DeviceClock
  import C = PinConfigCodec
  import W = StatusCodec

  // ---- the device after a snapshot ----

  /** The action leaves the configuration alone: a write is rejected or repeats what is in force. */
  predicate Calm(s: E.State, a: E.Action) {
    a.Configure? ==>
      var v := C.VerdictOf(a.payload, s.cfg.available);
      v.result == C.RESULT_OK ==> (C.AcceptedModes(a.payload, s.cfg.available); C.ConfigIn(a.payload) == s.cfg.config)
  }

  ghost predicate CalmRun(s: E.State, acts: seq<E.Action>)
    requires E.Sized(s)
  {
    acts == [] || (CalmRun(s, acts[..|acts| - 1]) && Calm(E.Run(s, acts[..|acts| - 1]), acts[|acts| - 1]))
  }

  ghost predicate EdgesOn(pins: set<nat>, q: seq<EdgeEvent>) {
    forall i :: 0 <= i < |q| ==> q[i].gpio in pins
  }

  /** A report's events lead every monitored pin from the old levels to the report's levels. */
  ghost predicate Link(pins: set<nat>, levels: set<nat>, r: E.Record) {
    && r.report.monitored == pins && EI.RecordOk(r) && EdgesOn(pins, r.edges)
    && forall n :: n in pins ==> R.Alternates(n in levels, r.edges, n, n in r.report.levels)
  }

  function LastLevels(base: set<nat>, recs: seq<E.Record>): set<nat> {
    if recs == [] then base else recs[|recs| - 1].report.levels
  }

  ghost predicate Chain(pins: set<nat>, base: set<nat>, recs: seq<E.Record>) {
    recs == [] ||
    (var before := recs[..|recs| - 1];
     Chain(pins, base, before) && Link(pins, LastLevels(base, before), recs[|recs| - 1]))
  }

  /** How a state s stands to the state s0 in which the snapshot was taken, while nothing was reconfigured
      and no event was dropped. */
  ghost predicate Since(s0: E.State, s: E.State) {
    var first, sent := s0.log.sent, s.log.sent;
    && EI.Inv(s) && s.cfg.config == s0.cfg.config && s.cfg.available == s0.cfg.available && !s.cfg.settleActive
    && s.pub.monitored == s0.pub.monitored && s.fifo.dirty == {}
    && EdgesOn(s.pub.monitored, s.fifo.queue)
    && |first| <= |sent| && sent[..|first|] == first
    && Chain(s.pub.monitored, s0.pub.reported, sent[|first|..])
    && forall n :: n in s.pub.monitored ==>
         (n in s.pub.reported <==> n in LastLevels(s0.pub.reported, sent[|first|..]))
  }

  /** Confirmed events go to the queue or are counted as lost. */
  ghost predicate Grown(pins: set<nat>, f: E.Fifo, f': E.Fifo) {
    && f.lost <= f'.lost
    && (f'.lost == f.lost ==> f'.dirty == f.dirty)
    && (EdgesOn(pins, f.queue) ==> EdgesOn(pins, f'.queue))
  }

  lemma EdgeGrows(s: E.State, n: nat, level: bool, at: nat)
    requires E.Sized(s)
    ensures var s' := E.OnEdge(s, n, level, at);
      Grown(s.pub.monitored, s.fifo, s'.fifo) && s' == s.(deb := s'.deb, fifo := s'.fifo)
  {
  }

  lemma {:induction false} ResyncGrows(s: E.State, raw: set<nat>, at: nat, n: nat)
    requires E.Sized(s) && n <= GPIO_COUNT
    ensures var s' := E.ResyncFrom(s, raw, at, n);
      Grown(s.pub.monitored, s.fifo, s'.fifo) && s' == s.(deb := s'.deb, fifo := s'.fifo)
    decreases GPIO_COUNT - n
  {
    if n < GPIO_COUNT {
      if E.Tracking(s.cfg, s.pub, n) && (n in raw) != s.deb[n].raw {
        EdgeGrows(s, n, n in raw, at);
        ResyncGrows(E.OnEdge(s, n, n in raw, at), raw, at, n + 1);
      } else {
        ResyncGrows(s, raw, at, n + 1);
      }
    }
  }

  lemma {:induction false} PollGrows(s: E.State, at: nat, n: nat)
    requires E.Sized(s) && n <= GPIO_COUNT
    ensures var s' := E.PollFrom(s, at, n);
      Grown(s.pub.monitored, s.fifo, s'.fifo) && s' == s.(deb := s'.deb, fifo := s'.fifo)
    decreases GPIO_COUNT - n
  {
    if n < GPIO_COUNT {
      PollGrows(E.PollPin(s, n, at), at, n + 1);
    }
  }

  lemma LostGrows(s: E.State, a: E.Action)
    requires E.Sized(s)
    ensures s.fifo.lost <= E.Step(s, a).fifo.lost
  {
    match a
    case Resync(raw, at) => ResyncGrows(s, raw, at, 0);
    case Tick(raw, at) => PollGrows(E.SettleIfDue(s, raw, at), at, 0);
    case _ =>
  }

  lemma ChainExtends(pins: set<nat>, base: set<nat>, recs: seq<E.Record>, r: E.Record)
    requires Chain(pins, base, recs) && Link(pins, LastLevels(base, recs), r)
    ensures Chain(pins, base, recs + [r]) && LastLevels(base, recs + [r]) == r.report.levels
  {
    assert (recs + [r])[..|recs|] == recs;
  }

  /** The next report continues the chain, and its levels are the reported ones afterwards. */
  lemma CommitLinks(s0: E.State, s: E.State, at: u64)
    requires Since(s0, s) && !E.NothingToSend(s)
    ensures var s', record := EI.Committed(s, at), E.RecordOf(s, E.BatchSize(s.fifo.queue), E.ReportOf(s, at));
      && Link(s.pub.monitored, LastLevels(s0.pub.reported, s.log.sent[|s0.log.sent|..]), record)
      && forall n :: n in s.pub.monitored ==> (n in s'.pub.reported <==> n in record.report.levels)
  {
    EI.ReportOk(s, at);
    forall n | n in s.pub.monitored
      ensures var record := E.RecordOf(s, E.BatchSize(s.fifo.queue), E.ReportOf(s, at));
        && R.Alternates(n in s.pub.reported, record.edges, n, n in record.report.levels)
        && (n in EI.Committed(s, at).pub.reported <==> n in record.report.levels)
    {
      EI.BatchFollows(s, n);
      EI.ReportLevel(s, at, n);
    }
  }

  lemma CommitSince(s0: E.State, s: E.State, at: u64)
    requires Since(s0, s) && !E.NothingToSend(s)
    ensures Since(s0, EI.Committed(s, at))
  {
    var s', first := EI.Committed(s, at), s0.log.sent;
    var record := E.RecordOf(s, E.BatchSize(s.fifo.queue), E.ReportOf(s, at));
    EI.CommitKeeps(s, at);
    CommitLinks(s0, s, at);
    ChainExtends(s.pub.monitored, s0.pub.reported, s.log.sent[|first|..], record);
    assert s'.log.sent[|first|..] == s.log.sent[|first|..] + [record];
  }

  lemma SendSince(s0: E.State, s: E.State, at: u64, handedOver: bool)
    requires Since(s0, s)
    ensures Since(s0, E.Send(s, at, handedOver))
  {
    var s' := E.Send(s, at, handedOver);
    EI.SendKeeps(s, at, handedOver);
    EI.SendEffect(s, at, handedOver);
    if handedOver && !E.NothingToSend(s) {
      CommitSince(s0, s, at);
    }
  }

  lemma ConfigureSince(s0: E.State, s: E.State, p: seq<byte>, at: u64)
    requires Since(s0, s) && Calm(s, E.Configure(p, at))
    ensures Since(s0, E.SetPinConfig(s, p, at))
  {
    EI.ConfigureKeeps(s, p, at);
  }

  lemma StepSince(s0: E.State, s: E.State, a: E.Action)
    requires Since(s0, s) && Calm(s, a) && E.Step(s, a).fifo.lost == s.fifo.lost
    ensures Since(s0, E.Step(s, a))
  {
    EI.StepKeeps(s, a);
    match a
    case Edge(n, level, at) => EdgeGrows(s, n, level, at);
    case Resync(raw, at) => ResyncGrows(s, raw, at, 0);
    case Tick(raw, at) => PollGrows(s, at, 0);
    case Configure(p, at) => ConfigureSince(s0, s, p, at);
    case Command(command) =>
    case Reset =>
    case SendReport(at, handedOver) => SendSince(s0, s, at, handedOver);
  }

  /** A state in which a snapshot is a reference: nothing queued and no configuration pending. */
  ghost predicate Quiet(s: E.State) {
    EI.Inv(s) && s.fifo.queue == [] && !s.cfg.settleActive
  }

  /** No configuration is pending and the queued events, if any, lead to the confirmed levels. */
  ghost predicate Steady(s: E.State) {
    EI.Inv(s) && !s.cfg.settleActive && s.fifo.dirty == {} && EdgesOn(s.pub.monitored, s.fifo.queue)
  }

  lemma {:induction false} RunSince(s0: E.State, acts: seq<E.Action>)
    requires Steady(s0) && CalmRun(s0, acts) && E.Run(s0, acts).fifo.lost <= s0.fifo.lost
    ensures Since(s0, E.Run(s0, acts)) && E.Run(s0, acts).fifo.lost == s0.fifo.lost
  {
    if acts == [] {
      assert s0.log.sent[|s0.log.sent|..] == [];
    } else {
      var before := E.Run(s0, acts[..|acts| - 1]);
      LostGrows(before, acts[|acts| - 1]);
      RunSince(s0, acts[..|acts| - 1]);
      StepSince(s0, before, acts[|acts| - 1]);
    }
  }

  lemma {:induction false} SentEdgesAppend(a: seq<E.Record>, b: seq<E.Record>)
    ensures EI.SentEdges(a + b) == EI.SentEdges(a) + EI.SentEdges(b)
  {
    if b == [] {
      assert a + b == a;
    } else {
      var c, last := b[..|b| - 1], b[|b| - 1];
      SentEdgesAppend(a, c);
      assert a + b == (a + c) + [last];
      SentEdgesSnoc(a + c, last);
    }
  }

  lemma SentEdgesSnoc(a: seq<E.Record>, r: E.Record)
    ensures EI.SentEdges(a + [r]) == EI.SentEdges(a) + r.edges
  {
    assert (a + [r])[..|a|] == a;
  }

  // ---- the watcher absorbing such a report ----

  /** Pins of a mask with the ON/OFF their levels stand for. */
  function OnOffOf(pins: set<nat>, levels: set<nat>, low: set<nat>): map<nat, bool> {
    map n | n in pins :: S.IsOn(n in levels, low, n)
  }

  /** The announcement of one confirmed edge that a report with this timestamp carries. */
  function Announce(e: EdgeEvent, timestamp: u64, low: set<nat>, clock: K.Clock): S.Event {
    var start := StartUs(E.ToWireEvent(e, timestamp), timestamp);
    S.Change(e.gpio, e.level, low, S.HostTime(clock, start), start, false)
  }

  function AnnounceAll(edges: seq<EdgeEvent>, timestamp: u64, low: set<nat>, clock: K.Clock): (r: seq<S.Event>)
    ensures |r| == |edges|
  {
    seq(|edges|, i requires 0 <= i < |edges| => Announce(edges[i], timestamp, low, clock))
  }

  /** Edges that alternate from what is known are announced one by one, and none is inferred. */
  lemma {:induction false} EdgesAnnounced(
      a: S.Absorbed, edges: seq<EdgeEvent>, pins: set<nat>, base: set<nat>, levels: set<nat>,
      timestamp: u64, low: set<nat>, clock: K.Clock)
    requires a.known == OnOffOf(pins, base, low) && EdgesOn(pins, edges)
    requires forall n :: n in pins ==> R.Alternates(n in base, edges, n, n in levels)
    ensures S.AbsorbEvents(a, E.ToWireEvents(edges, timestamp), timestamp, low, clock) ==
      S.Absorbed(OnOffOf(pins, levels, low), a.out + AnnounceAll(edges, timestamp, low, clock))
    decreases |edges|
  {
    if edges == [] {
      assert OnOffOf(pins, base, low) == OnOffOf(pins, levels, low);
      assert a.out + AnnounceAll(edges, timestamp, low, clock) == a.out;
    } else {
      var e, rest := edges[0], edges[1..];
      var event := E.ToWireEvent(e, timestamp);
      var base' := E.WithBit(base, e.gpio, e.level);
      EdgeAnnounced(a, e, pins, base, timestamp, low, clock);
      assert E.ToWireEvents(edges, timestamp)[1..] == E.ToWireEvents(rest, timestamp);
      EdgesAnnounced(S.AbsorbEvent(a, event, timestamp, low, clock), rest, pins, base', levels, timestamp, low, clock);
      assert AnnounceAll(edges, timestamp, low, clock) ==
        [Announce(e, timestamp, low, clock)] + AnnounceAll(rest, timestamp, low, clock);
      Regroup(a.out, [Announce(e, timestamp, low, clock)], AnnounceAll(rest, timestamp, low, clock));
    }
  }

  /** An edge that leaves the known level is announced alone. */
  lemma EdgeAnnounced(
      a: S.Absorbed, e: EdgeEvent, pins: set<nat>, base: set<nat>, timestamp: u64, low: set<nat>, clock: K.Clock)
    requires a.known == OnOffOf(pins, base, low) && e.gpio in pins && e.level != (e.gpio in base)
    ensures S.AbsorbEvent(a, E.ToWireEvent(e, timestamp), timestamp, low, clock) ==
      S.Absorbed(OnOffOf(pins, E.WithBit(base, e.gpio, e.level), low), a.out + [Announce(e, timestamp, low, clock)])
  {
    assert a.out + [] + [Announce(e, timestamp, low, clock)] == a.out + [Announce(e, timestamp, low, clock)];
    assert a.known[e.gpio := S.IsOn(e.level, low, e.gpio)] == OnOffOf(pins, E.WithBit(base, e.gpio, e.level), low);
  }

  lemma {:induction false} LevelsSilent(a: S.Absorbed, r: Report, n: nat, low: set<nat>)
    requires n <= GPIO_COUNT && a.known == OnOffOf(r.monitored, r.levels, low)
    ensures S.AbsorbLevels(a, r, n, low) == a
    decreases GPIO_COUNT - n
  {
    if n < GPIO_COUNT {
      assert S.AbsorbLevel(a, r, n, low).known == a.known;
      LevelsSilent(a, r, n + 1, low);
    }
  }

  /** A linked report is absorbed by announcing exactly its edges. */
  lemma LinkAbsorbed(base: set<nat>, r: E.Record, low: set<nat>, clock: K.Clock)
    requires Link(r.report.monitored, base, r)
    ensures S.AbsorbReport(OnOffOf(r.report.monitored, base, low), r.report, low, clock) ==
      S.Absorbed(OnOffOf(r.report.monitored, r.report.levels, low), AnnounceAll(r.edges, r.report.timestamp, low, clock))
  {
    var pins, report := r.report.monitored, r.report;
    var a0 := S.Absorbed(OnOffOf(pins, base, low), []);
    EdgesAnnounced(a0, r.edges, pins, base, report.levels, report.timestamp, low, clock);
    var a1 := S.AbsorbEvents(a0, report.events, report.timestamp, low, clock);
    assert a1.out == AnnounceAll(r.edges, report.timestamp, low, clock);
    assert S.Learn(a1.known, report, low) == map[];
    LevelsSilent(a1, report, 0, low);
    assert (map n | n in a1.known && n in report.monitored :: a1.known[n]) == a1.known;
  }

  // ---- what the application is told ----

  /** An ON/OFF announcement, leaving out the estimate of the host time. */
  datatype Told =
    | Initial(on: map<nat, bool>)
    | Told(gpio: nat, isOn: bool, level: bool, deviceUs: Option<nat>, inferred: bool)

  function ToldBy(e: S.Event): seq<Told> {
    if e.InitialOnOff? then [Initial(e.learned)]
    else if e.OnOffChange? then [Told.Told(e.gpio, e.isOn, e.level, e.deviceUs, e.inferred)]
    else []
  }

  /** All ON/OFF announcements among some events. */
  function Announcements(events: seq<S.Event>): seq<Told> {
    if events == [] then [] else Announcements(events[..|events| - 1]) + ToldBy(events[|events| - 1])
  }

  lemma Regroup<T>(a: seq<T>, b: seq<T>, c: seq<T>)
    ensures (a + b) + c == a + (b + c)
  {
  }

  lemma {:induction false} AnnouncementsAppend(a: seq<S.Event>, b: seq<S.Event>)
    ensures Announcements(a + b) == Announcements(a) + Announcements(b)
  {
    if b == [] {
      assert a + b == a;
    } else {
      var c, last := b[..|b| - 1], b[|b| - 1];
      AnnouncementsAppend(a, c);
      Regroup(a, c, [last]);
      assert c + [last] == b;
      AnnouncementsSnoc(a + c, last);
      AnnouncementsSnoc(c, last);
      Regroup(Announcements(a), Announcements(c), ToldBy(last));
    }
  }

  lemma AnnouncementsSnoc(a: seq<S.Event>, e: S.Event)
    ensures Announcements(a + [e]) == Announcements(a) + ToldBy(e)
  {
    assert (a + [e])[..|a|] == a;
  }

  /** The start time the host computes for an edge from a report with this timestamp. */
  function StartOf(e: EdgeEvent, timestamp: u64): Option<nat> {
    StartUs(E.ToWireEvent(e, timestamp), timestamp)
  }

  /** The host gets the device's own start time back exactly when the start is not in the future and the age
      is below the saturation value; an older start is unknown, and a later one becomes the timestamp. */
  lemma StartIsExact(e: EdgeEvent, timestamp: u64)
    ensures StartOf(e, timestamp) ==
      if e.start > timestamp then Some(timestamp)
      else if timestamp - e.start < SATURATED_AGE then Some(e.start)
      else None
  {
  }

  function ToldOf(e: EdgeEvent, timestamp: u64, low: set<nat>): Told {
    Told.Told(e.gpio, S.IsOn(e.level, low, e.gpio), e.level, StartOf(e, timestamp), false)
  }

  function ToldAll(edges: seq<EdgeEvent>, timestamp: u64, low: set<nat>): (r: seq<Told>) {
    seq(|edges|, i requires 0 <= i < |edges| => ToldOf(edges[i], timestamp, low))
  }

  /** One announcement per edge of every record. */
  function ToldRecords(recs: seq<E.Record>, low: set<nat>): seq<Told> {
    if recs == [] then []
    else
      var last := recs[|recs| - 1];
      ToldRecords(recs[..|recs| - 1], low) + ToldAll(last.edges, last.report.timestamp, low)
  }

  lemma {:induction false} AnnounceAllTold(edges: seq<EdgeEvent>, timestamp: u64, low: set<nat>, clock: K.Clock)
    ensures Announcements(AnnounceAll(edges, timestamp, low, clock)) == ToldAll(edges, timestamp, low)
  {
    if edges != [] {
      var before, last := edges[..|edges| - 1], edges[|edges| - 1];
      AnnounceAllTold(before, timestamp, low, clock);
      AnnouncementsSnoc(AnnounceAll(before, timestamp, low, clock), Announce(last, timestamp, low, clock));
      assert AnnounceAll(edges, timestamp, low, clock) ==
        AnnounceAll(before, timestamp, low, clock) + [Announce(last, timestamp, low, clock)];
      assert ToldAll(edges, timestamp, low) == ToldAll(before, timestamp, low) + [ToldOf(last, timestamp, low)];
    }
  }

  /** The announcement matches an edge: its pin, its level, the ON/OFF it stands for, and not inferred. */
  predicate Matches(t: Told, e: EdgeEvent, low: set<nat>) {
    t.Told? && t.gpio == e.gpio && t.level == e.level && t.isOn == S.IsOn(e.level, low, e.gpio) && !t.inferred
  }

  lemma {:induction false} ToldMatchesEdges(recs: seq<E.Record>, low: set<nat>)
    ensures |ToldRecords(recs, low)| == |EI.SentEdges(recs)|
    ensures forall i :: 0 <= i < |EI.SentEdges(recs)| ==> Matches(ToldRecords(recs, low)[i], EI.SentEdges(recs)[i], low)
  {
    if recs != [] {
      ToldMatchesEdges(recs[..|recs| - 1], low);
    }
  }

  // ---- the watcher receiving reports ----

  /** The watcher is connected, agrees with the device on the configuration, and knows the levels. */
  ghost predicate InStep(w: S.Watch, config: PinConfig, levels: set<nat>) {
    && w.conn.Some? && !w.conn.value.awaiting && !w.stopped
    && w.config == config && (w.target.Some? ==> w.target.value == config)
    && w.known == OnOffOf(InputPins(config), levels, S.LowPins(w))
  }

  /** When a report arrived and what the device answers if it says CONFIG_CHANGED. */
  datatype Reading = Reading(at: int, change: S.ChangeIO)

  lemma SameConfigKept(w: S.Watch, config: PinConfig, levels: set<nat>, io: S.ChangeIO)
    requires InStep(w, config, levels) && io.found == S.Got(config)
    ensures S.ConfigChange(w, io) == w
  {
    assert S.SetConfig(w, config).known == w.known;
  }

  lemma ArriveAnnounces(w: S.Watch, r: Report, at: int, missed: nat)
    requires w.conn.Some?
    ensures Announcements(S.Arrive(w, r, at, missed).emitted) == Announcements(w.emitted)
  {
    var e := S.StatusReceived(r, missed, S.OnOff(r, S.LowPins(w)));
    SilentSnoc(w.emitted, e);
    SilentSnoc(w.emitted + [e], S.OutputsReset(r.outputs, S.Suspend));
  }

  lemma SilentSnoc(a: seq<S.Event>, e: S.Event)
    requires !e.InitialOnOff? && !e.OnOffChange?
    ensures Announcements(a + [e]) == Announcements(a)
  {
    AnnouncementsSnoc(a, e);
    assert Announcements(a) + [] == Announcements(a);
  }

  lemma ArriveInStep(w: S.Watch, config: PinConfig, levels: set<nat>, r: Report, at: int, missed: nat)
    requires InStep(w, config, levels)
    ensures var w' := S.Arrive(w, r, at, missed);
      && InStep(w', config, levels) && w'.activeLow == w.activeLow
      && Announcements(w'.emitted) == Announcements(w.emitted)
      && w'.conn.value.snapshotSeq ==
           if HostRequest !in r.reasons && !S.StaleFor(w.conn.value, r) then None else w.conn.value.snapshotSeq
  {
    ArriveAnnounces(w, r, at, missed);
  }

  /** A report sent at or before the snapshot adds nothing. */
  lemma StaleTaken(w: S.Watch, config: PinConfig, levels: set<nat>, r: Report, at: int, missed: nat, io: S.ChangeIO)
    requires InStep(w, config, levels) && io.found == S.Got(config) && S.StaleFor(w.conn.value, r)
    ensures var w' := S.TakeStatus(w, r, at, missed, io);
      && InStep(w', config, levels) && w'.activeLow == w.activeLow
      && Announcements(w'.emitted) == Announcements(w.emitted)
      && w'.conn.value.snapshotSeq == w.conn.value.snapshotSeq
  {
    ArriveInStep(w, config, levels, r, at, missed);
    SameConfigKept(S.Arrive(w, r, at, missed), config, levels, io);
  }

  /** A report that is not stale is absorbed once the configuration is settled. */
  lemma ReportFollowed(w: S.Watch, r: Report, io: S.ChangeIO)
    requires w.conn.Some? && HostRequest !in r.reasons
    requires var w1 := if ConfigChanged in r.reasons then S.ConfigChange(w, io) else w;
      w1.conn.Some? && !w1.stopped && !w1.conn.value.awaiting
    ensures S.Follow(w, r, false, io) == S.Absorb(if ConfigChanged in r.reasons then S.ConfigChange(w, io) else w, r)
  {
  }

  /** A later report adds exactly its edges. */
  lemma LiveTaken(w: S.Watch, config: PinConfig, base: set<nat>, r: E.Record, at: int, missed: nat, io: S.ChangeIO)
    requires InStep(w, config, base) && io.found == S.Got(config) && !S.StaleFor(w.conn.value, r.report)
    requires Link(InputPins(config), base, r)
    ensures var w' := S.TakeStatus(w, r.report, at, missed, io);
      && InStep(w', config, r.report.levels) && w'.activeLow == w.activeLow && w'.conn.value.snapshotSeq.None?
      && Announcements(w'.emitted) ==
           Announcements(w.emitted) + ToldAll(r.edges, r.report.timestamp, S.LowPins(w))
  {
    ArriveInStep(w, config, base, r.report, at, missed);
    var w1 := S.Arrive(w, r.report, at, missed);
    SameConfigKept(w1, config, base, io);
    ReportFollowed(w1, r.report, io);
    var low, clock := S.LowPins(w1), w1.conn.value.clock;
    LinkAbsorbed(base, r, low, clock);
    AnnouncementsAppend(w1.emitted, AnnounceAll(r.edges, r.report.timestamp, low, clock));
    AnnounceAllTold(r.edges, r.report.timestamp, low, clock);
  }

  /** A report as it travels: the report id and the payload the device encoded. */
  function Packet(r: Report): seq<byte> {
    [S.REPORT_ID_STATUS] + W.DeviceEncode(r)
  }

  lemma PacketReceived(w: S.Watch, r: Report, reading: Reading)
    requires w.conn.Some? && WellFormed(r)
    ensures var c := w.conn.value;
      S.Received(w, Packet(r), reading.at, reading.change) ==
      S.TakeStatus(w.(conn := Some(c.(lastSeq := Some(r.seqNo)))), r, reading.at, S.Missed(c.lastSeq, r.seqNo), reading.change)
  {
    W.ReportRoundTrip(r);
    assert Packet(r)[1..S.REPORT_LEN] == W.DeviceEncode(r);
  }

  function ReceiveAll(w: S.Watch, recs: seq<E.Record>, readings: seq<Reading>): S.Watch
    requires |readings| == |recs|
  {
    if recs == [] then w
    else
      var n := |recs| - 1;
      S.Received(ReceiveAll(w, recs[..n], readings[..n]), Packet(recs[n].report), readings[n].at, readings[n].change)
  }

  /** The device answers every question about its configuration with the one in force. */
  ghost predicate Answers(readings: seq<Reading>, config: PinConfig) {
    forall i :: 0 <= i < |readings| ==> readings[i].change.found == S.Got(config)
  }

  lemma {:induction false} StaleReceived(
      w: S.Watch, config: PinConfig, levels: set<nat>, recs: seq<E.Record>, readings: seq<Reading>)
    requires InStep(w, config, levels) && |readings| == |recs| && Answers(readings, config)
    requires forall i :: 0 <= i < |recs| ==> EI.RecordOk(recs[i]) && S.StaleFor(w.conn.value, recs[i].report)
    ensures var w' := ReceiveAll(w, recs, readings);
      && InStep(w', config, levels) && w'.activeLow == w.activeLow
      && w'.conn.value.snapshotSeq == w.conn.value.snapshotSeq
      && Announcements(w'.emitted) == Announcements(w.emitted)
  {
    if recs != [] {
      var n := |recs| - 1;
      StaleReceived(w, config, levels, recs[..n], readings[..n]);
      var w1, r := ReceiveAll(w, recs[..n], readings[..n]), recs[n].report;
      PacketReceived(w1, r, readings[n]);
      var c := w1.conn.value;
      StaleTaken(w1.(conn := Some(c.(lastSeq := Some(r.seqNo)))), config, levels, r, readings[n].at,
                 S.Missed(c.lastSeq, r.seqNo), readings[n].change);
    }
  }

  /** The watcher after one linked report. */
  ghost predicate Advanced(w: S.Watch, w': S.Watch, config: PinConfig, r: E.Record) {
    && InStep(w', config, r.report.levels) && w'.activeLow == w.activeLow && w'.conn.value.snapshotSeq.None?
    && Announcements(w'.emitted) ==
         Announcements(w.emitted) + ToldAll(r.edges, r.report.timestamp, S.LowPins(w))
  }

  lemma LiveStep(w: S.Watch, config: PinConfig, base: set<nat>, r: E.Record, reading: Reading)
    requires InStep(w, config, base) && reading.change.found == S.Got(config) && !S.StaleFor(w.conn.value, r.report)
    requires Link(InputPins(config), base, r)
    ensures Advanced(w, S.Received(w, Packet(r.report), reading.at, reading.change), config, r)
  {
    PacketReceived(w, r.report, reading);
    var c := w.conn.value;
    LiveTaken(w.(conn := Some(c.(lastSeq := Some(r.report.seqNo)))), config, base, r,
              reading.at, S.Missed(c.lastSeq, r.report.seqNo), reading.change);
  }

  /** The watcher after some linked reports. */
  ghost predicate Caught(w: S.Watch, w': S.Watch, config: PinConfig, base: set<nat>, recs: seq<E.Record>) {
    && InStep(w', config, LastLevels(base, recs)) && w'.activeLow == w.activeLow
    && (if recs == [] then w' == w else w'.conn.value.snapshotSeq.None?)
    && Announcements(w'.emitted) == Announcements(w.emitted) + ToldRecords(recs, S.LowPins(w))
  }

  lemma CaughtStep(
      w: S.Watch, w1: S.Watch, w2: S.Watch, config: PinConfig, base: set<nat>, recs: seq<E.Record>, r: E.Record)
    requires Caught(w, w1, config, base, recs) && w.config == config && Advanced(w1, w2, config, r)
    ensures Caught(w, w2, config, base, recs + [r])
  {
    assert (recs + [r])[..|recs|] == recs;
    assert S.LowPins(w1) == S.LowPins(w);
  }

  /** The first of some reports decides for all of them: a later report ends the comparison. */
  lemma NotStaleLater(
      w: S.Watch, w1: S.Watch, config: PinConfig, base: set<nat>, before: seq<E.Record>, r: E.Record)
    requires w.conn.Some? && Caught(w, w1, config, base, before)
    requires !S.StaleFor(w.conn.value, (before + [r])[0].report)
    ensures !S.StaleFor(w1.conn.value, r.report)
  {
  }

  lemma {:induction false} LiveReceived(
      w: S.Watch, config: PinConfig, base: set<nat>, recs: seq<E.Record>, readings: seq<Reading>)
    requires InStep(w, config, base) && |readings| == |recs| && Answers(readings, config)
    requires Chain(InputPins(config), base, recs)
    requires recs != [] ==> !S.StaleFor(w.conn.value, recs[0].report)
    ensures Caught(w, ReceiveAll(w, recs, readings), config, base, recs)
  {
    if recs != [] {
      var n := |recs| - 1;
      var before, r := recs[..n], recs[n];
      assert before != [] ==> before[0] == recs[0];
      assert recs == before + [r];
      LiveReceived(w, config, base, before, readings[..n]);
      var w1 := ReceiveAll(w, before, readings[..n]);
      NotStaleLater(w, w1, config, base, before, r);
      LiveStep(w1, config, LastLevels(base, before), r, readings[n]);
      CaughtStep(w, w1, ReceiveAll(w, recs, readings), config, base, before, r);
    }
  }

  // ---- the theorem ----

  /** The reply of a quiet device shows the reported levels, because nothing is queued. */
  lemma ReplyLevels(s: E.State, at: u64, low: set<nat>)
    requires Quiet(s)
    ensures var r := E.StatusReply(s, at);
      r.monitored == InputPins(s.cfg.config) && S.OnOff(r, low) == OnOffOf(r.monitored, s.pub.reported, low)
  {
    var r := E.StatusReply(s, at);
    forall n | n in r.monitored ensures n in r.levels <==> n in s.pub.reported {
      assert R.Alternates(n in s.pub.reported, s.fifo.queue, n, s.deb[n].confirmed);
    }
  }

  /** The number later reports are compared with after a snapshot. A snapshot numbered 0 gives none: the
      device may not have sent a report yet. */
  function Reference(s: E.State): Option<u16> {
    if s.tx.hasSent && s.tx.lastSeq != 0 then Some(s.tx.lastSeq) else None
  }

  /** A snapshot of a quiet device brings the watcher in step with the levels in it. */
  lemma SnapshotTaken(w: S.Watch, io: S.SnapshotIO, config: PinConfig, levels: set<nat>)
    requires I.Core(w) && w.conn.Some? && !w.conn.value.awaiting && !w.stopped
    requires w.config == config && (w.target.Some? ==> w.target.value == config) && io.status.Got?
    requires var r := io.status.value;
      r.reasons == {HostRequest} && !r.more && r.monitored == InputPins(config)
      && S.OnOff(r, S.LowPins(w)) == OnOffOf(InputPins(config), levels, S.LowPins(w))
    ensures var w' := S.Snapshot(w, io);
      && InStep(w', config, levels) && w'.activeLow == w.activeLow
      && w'.conn.value.snapshotSeq == (if io.status.value.seqNo != 0 then Some(io.status.value.seqNo) else None)
  {
    var r := io.status.value;
    var w0 := w.(conn := Some(w.conn.value.(snapshotSeq := if r.seqNo != 0 then Some(r.seqNo) else None)));
    I.ArriveKeeps(w0, r, io.at, 0);
    I.AbsorbKeeps(S.Arrive(w0, r, io.at, 0), r);
  }

  /** Reports numbered up to the snapshot's number are stale, the next one is not. */
  lemma NumbersTell(s0: E.State, s: E.State, i: nat)
    requires EI.Inv(s0) && EI.Inv(s) && s0.tx.hasSent && i < |s.log.sent|
    requires |s0.log.sent| - 0x8000 <= i <= |s0.log.sent|
    ensures S.IsStale(s.log.sent[i].report.seqNo, s0.tx.lastSeq) <==> i < |s0.log.sent|
  {
    T.StaleTests(i, |s0.log.sent| - 1);
  }

  /** With nothing queued, the last reported levels are the confirmed ones. */
  lemma QuietLevels(s0: E.State, s: E.State, low: set<nat>)
    requires Since(s0, s) && s.fifo.queue == []
    ensures OnOffOf(s.pub.monitored, LastLevels(s0.pub.reported, s.log.sent[|s0.log.sent|..]), low) ==
      OnOffOf(s.pub.monitored, E.ConfirmedLevels(s.pub.monitored, s.deb), low)
  {
    forall n | n in s.pub.monitored
      ensures n in s.pub.reported <==> n in E.ConfirmedLevels(s.pub.monitored, s.deb)
    {
      assert R.Alternates(n in s.pub.reported, s.fifo.queue, n, s.deb[n].confirmed);
    }
  }

  /** The new records' edges and the queue are what was accepted since. */
  lemma AcceptedSince(f0: E.Fifo, f: E.Fifo, first: seq<E.Record>, later: seq<E.Record>)
    requires EI.Conserved(f0, first) && f0.queue == [] && EI.Conserved(f, first + later)
    ensures f.accepted == f0.accepted + EI.SentEdges(later) + f.queue
  {
    SentEdgesAppend(first, later);
    assert f0.accepted == EI.SentEdges(first);
    Regroup(f0.accepted, EI.SentEdges(later), f.queue);
  }

  /** What the application is told by the reports that s committed after s0: one announcement for each edge,
      in the order of confirmation, none inferred. Those edges and the ones still queued are all the device
      confirmed since s0; with nothing queued, the host knows the confirmed levels. */
  ghost predicate ToldOnce(s0: E.State, s: E.State, before: S.Watch, after: S.Watch, low: set<nat>)
    requires E.Sized(s) && |s0.log.sent| <= |s.log.sent|
  {
    var recs := s.log.sent[|s0.log.sent|..];
    var told, edges := ToldRecords(recs, low), EI.SentEdges(recs);
    && Announcements(after.emitted) == Announcements(before.emitted) + told
    && |told| == |edges| && (forall i :: 0 <= i < |edges| ==> Matches(told[i], edges[i], low))
    && s.fifo.accepted == s0.fifo.accepted + edges + s.fifo.queue
    && (s.fifo.queue == [] ==>
          after.known == OnOffOf(s.pub.monitored, E.ConfirmedLevels(s.pub.monitored, s.deb), low))
  }

  /** The records that were still on their way when the snapshot was taken, from number b on, and the answers
      the device gives while they and the later ones are received. */
  ghost predicate InOrder(s0: E.State, s: E.State, b: nat, buffered: seq<Reading>, readings: seq<Reading>) {
    && b <= |s0.log.sent| <= b + 0x8000 && |s0.log.sent| <= |s.log.sent|
    && |buffered| == |s0.log.sent| - b && |readings| == |s.log.sent| - |s0.log.sent|
    && Answers(buffered, s0.cfg.config) && Answers(readings, s0.cfg.config)
  }

  /** A running watcher that follows the configuration in force. */
  ghost predicate Ready(w: S.Watch, config: PinConfig) {
    && I.Core(w) && w.conn.Some? && !w.conn.value.awaiting && !w.stopped
    && w.config == config && (w.target.Some? ==> w.target.value == config)
  }

  lemma BufferedIsStale(s0: E.State, i: nat, c: S.Conn)
    requires EI.Inv(s0) && s0.tx.hasSent && i < |s0.log.sent| <= i + 0x8000
    requires c.snapshotSeq == Some(s0.tx.lastSeq)
    ensures EI.RecordOk(s0.log.sent[i]) && S.StaleFor(c, s0.log.sent[i].report)
  {
    NumbersTell(s0, s0, i);
  }

  /** The report shows the same pins at the same levels, and no event of them. */
  ghost predicate Harmless(r: E.Record, pins: set<nat>, levels: set<nat>) {
    && r.report.monitored == pins
    && (forall n :: n in pins ==> (n in r.report.levels <==> n in levels))
    && forall i :: 0 <= i < |r.edges| ==> r.edges[i].gpio !in pins
  }

  /** Events of pins that are not known do nothing. */
  lemma {:induction false} UnknownEvents(
      a: S.Absorbed, edges: seq<EdgeEvent>, timestamp: u64, low: set<nat>, clock: K.Clock)
    requires forall i :: 0 <= i < |edges| ==> edges[i].gpio !in a.known
    ensures S.AbsorbEvents(a, E.ToWireEvents(edges, timestamp), timestamp, low, clock) == a
    decreases |edges|
  {
    if edges != [] {
      assert E.ToWireEvents(edges, timestamp)[1..] == E.ToWireEvents(edges[1..], timestamp);
      UnknownEvents(a, edges[1..], timestamp, low, clock);
    }
  }

  lemma HarmlessAbsorbed(r: E.Record, pins: set<nat>, levels: set<nat>, low: set<nat>, clock: K.Clock)
    requires EI.RecordOk(r) && Harmless(r, pins, levels)
    ensures S.AbsorbReport(OnOffOf(pins, levels, low), r.report, low, clock) == S.Absorbed(OnOffOf(pins, levels, low), [])
  {
    var a0 := S.Absorbed(OnOffOf(pins, levels, low), []);
    assert a0.known == OnOffOf(r.report.monitored, r.report.levels, low);
    UnknownEvents(a0, r.edges, r.report.timestamp, low, clock);
    assert S.Learn(a0.known, r.report, low) == map[];
    LevelsSilent(a0, r.report, 0, low);
    assert (map n | n in a0.known && n in r.report.monitored :: a0.known[n]) == a0.known;
  }

  /** A harmless report adds nothing. */
  lemma HarmlessTaken(
      w: S.Watch, config: PinConfig, levels: set<nat>, r: E.Record, at: int, missed: nat, io: S.ChangeIO)
    requires InStep(w, config, levels) && w.conn.value.snapshotSeq.None? && io.found == S.Got(config)
    requires EI.RecordOk(r) && Harmless(r, InputPins(config), levels)
    ensures var w' := S.TakeStatus(w, r.report, at, missed, io);
      && InStep(w', config, levels) && w'.activeLow == w.activeLow && w'.conn.value.snapshotSeq.None?
      && Announcements(w'.emitted) == Announcements(w.emitted)
  {
    ArriveInStep(w, config, levels, r.report, at, missed);
    var w1 := S.Arrive(w, r.report, at, missed);
    SameConfigKept(w1, config, levels, io);
    ReportFollowed(w1, r.report, io);
    HarmlessAbsorbed(r, InputPins(config), levels, S.LowPins(w1), w1.conn.value.clock);
    assert S.Absorb(w1, r.report).emitted == w1.emitted;
  }

  ghost predicate AllHarmless(recs: seq<E.Record>, pins: set<nat>, levels: set<nat>) {
    forall i :: 0 <= i < |recs| ==> Harmless(recs[i], pins, levels)
  }

  ghost predicate AllOk(recs: seq<E.Record>) {
    forall i :: 0 <= i < |recs| ==> EI.RecordOk(recs[i])
  }

  lemma HarmlessReceived(w: S.Watch, config: PinConfig, levels: set<nat>, r: E.Record, reading: Reading)
    requires InStep(w, config, levels) && w.conn.value.snapshotSeq.None? && reading.change.found == S.Got(config)
    requires EI.RecordOk(r) && Harmless(r, InputPins(config), levels)
    ensures var w' := S.Received(w, Packet(r.report), reading.at, reading.change);
      && InStep(w', config, levels) && w'.activeLow == w.activeLow && w'.conn.value.snapshotSeq.None?
      && Announcements(w'.emitted) == Announcements(w.emitted)
  {
    PacketReceived(w, r.report, reading);
    var c := w.conn.value;
    HarmlessTaken(w.(conn := Some(c.(lastSeq := Some(r.report.seqNo)))), config, levels, r,
                  reading.at, S.Missed(c.lastSeq, r.report.seqNo), reading.change);
  }

  lemma {:induction false} AllHarmlessReceived(
      w: S.Watch, config: PinConfig, levels: set<nat>, recs: seq<E.Record>, readings: seq<Reading>)
    requires InStep(w, config, levels) && w.conn.value.snapshotSeq.None?
    requires |readings| == |recs| && Answers(readings, config) && AllOk(recs)
    requires AllHarmless(recs, InputPins(config), levels)
    ensures var w' := ReceiveAll(w, recs, readings);
      && InStep(w', config, levels) && w'.activeLow == w.activeLow && w'.conn.value.snapshotSeq.None?
      && Announcements(w'.emitted) == Announcements(w.emitted)
  {
    if recs != [] {
      var n := |recs| - 1;
      AllHarmlessReceived(w, config, levels, recs[..n], readings[..n]);
      HarmlessReceived(ReceiveAll(w, recs[..n], readings[..n]), config, levels, recs[n], readings[n]);
    }
  }

  /** The reports from number b on that were on their way when the snapshot was taken can be told from later
      ones by their number, or show nothing that the snapshot does not. */
  ghost predicate BufferedHarmless(s0: E.State, b: nat)
    requires b <= |s0.log.sent|
  {
    Reference(s0).Some? || AllHarmless(s0.log.sent[b..], InputPins(s0.cfg.config), s0.pub.reported)
  }

  lemma SentAreOk(s0: E.State, b: nat)
    requires EI.Inv(s0) && b <= |s0.log.sent|
    ensures AllOk(s0.log.sent[b..])
  {
    forall i | 0 <= i < |s0.log.sent[b..]| ensures EI.RecordOk(s0.log.sent[b..][i]) {
      assert s0.log.sent[b..][i] == s0.log.sent[b + i];
    }
  }

  lemma BufferedAddNothing(s0: E.State, w: S.Watch, b: nat, buffered: seq<Reading>)
    requires EI.Inv(s0) && b <= |s0.log.sent| && BufferedHarmless(s0, b)
    requires InStep(w, s0.cfg.config, s0.pub.reported) && w.conn.value.snapshotSeq == Reference(s0)
    requires b <= |s0.log.sent| <= b + 0x8000 && |buffered| == |s0.log.sent| - b && Answers(buffered, s0.cfg.config)
    ensures var w' := ReceiveAll(w, s0.log.sent[b..], buffered);
      && Announcements(w'.emitted) == Announcements(w.emitted)
      && InStep(w', s0.cfg.config, s0.pub.reported) && w'.activeLow == w.activeLow
      && w'.conn.value.snapshotSeq == Reference(s0)
  {
    var recs := s0.log.sent[b..];
    if Reference(s0).None? {
      SentAreOk(s0, b);
      AllHarmlessReceived(w, s0.cfg.config, s0.pub.reported, recs, buffered);
    } else {
      forall i | 0 <= i < |recs| ensures EI.RecordOk(recs[i]) && S.StaleFor(w.conn.value, recs[i].report) {
        BufferedIsStale(s0, b + i, w.conn.value);
        assert recs[i] == s0.log.sent[b + i];
      }
      StaleReceived(w, s0.cfg.config, s0.pub.reported, recs, buffered);
    }
  }

  lemma LaterCaught(s0: E.State, s: E.State, w: S.Watch, readings: seq<Reading>)
    requires EI.Inv(s0) && Since(s0, s)
    requires s.pub.monitored == InputPins(s0.cfg.config)
    requires InStep(w, s0.cfg.config, s0.pub.reported) && w.conn.value.snapshotSeq == Reference(s0)
    requires |readings| == |s.log.sent| - |s0.log.sent| && Answers(readings, s0.cfg.config)
    ensures var recs := s.log.sent[|s0.log.sent|..];
      Caught(w, ReceiveAll(w, recs, readings), s0.cfg.config, s0.pub.reported, recs)
  {
    var recs := s.log.sent[|s0.log.sent|..];
    if recs != [] && Reference(s0).Some? {
      NumbersTell(s0, s, |s0.log.sent|);
    }
    LiveReceived(w, s0.cfg.config, s0.pub.reported, recs, readings);
  }

  lemma CaughtIsToldOnce(s0: E.State, s: E.State, w: S.Watch, w': S.Watch)
    requires Quiet(s0) && Since(s0, s)
    requires Caught(w, w', s0.cfg.config, s0.pub.reported, s.log.sent[|s0.log.sent|..])
    requires w.config == s0.cfg.config
    ensures ToldOnce(s0, s, w, w', S.LowPins(w))
  {
    var recs := s.log.sent[|s0.log.sent|..];
    ToldMatchesEdges(recs, S.LowPins(w));
    assert s.log.sent == s0.log.sent + recs;
    AcceptedSince(s0.fifo, s.fifo, s0.log.sent, recs);
    if s.fifo.queue == [] {
      QuietLevels(s0, s, S.LowPins(w));
    }
  }

  /** Exactly once. A watcher takes its snapshot while the device has nothing queued and no configuration
      pending; afterwards the device runs through any actions that leave its configuration alone and drop
      no event. The host then receives, in order, the reports still on their way from before the snapshot
      and every later one. The former add nothing, the latter announce each confirmed edge exactly once.
      A snapshot numbered 0 must not be followed by a report from before it that shows anything else. */
  lemma ExactlyOnce(
      available: set<nat>, started: nat, earlier: seq<E.Action>, later: seq<E.Action>, at: u64,
      w: S.Watch, io: S.SnapshotIO, b: nat, buffered: seq<Reading>, readings: seq<Reading>)
    requires var s0 := E.Run(E.Init(available, started), earlier); var s := E.Run(s0, later);
      && s0.fifo.queue == [] && !s0.cfg.settleActive
      && CalmRun(s0, later) && s.fifo.lost <= s0.fifo.lost
      && InOrder(s0, s, b, buffered, readings) && BufferedHarmless(s0, b) && Ready(w, s0.cfg.config)
      && io.status == S.Got(E.StatusReply(s0, at))
    ensures var s0 := E.Run(E.Init(available, started), earlier); var s := E.Run(s0, later);
      var w1 := S.Snapshot(w, io);
      var w2 := ReceiveAll(w1, s0.log.sent[b..], buffered);
      var w3 := ReceiveAll(w2, s.log.sent[|s0.log.sent|..], readings);
      Announcements(w2.emitted) == Announcements(w1.emitted) && ToldOnce(s0, s, w2, w3, S.LowPins(w))
  {
    var s0 := E.Run(E.Init(available, started), earlier);
    var s, w1 := E.Run(s0, later), S.Snapshot(w, io);
    EI.AlwaysInv(available, started, earlier);
    RunSince(s0, later);
    ReplyLevels(s0, at, S.LowPins(w));
    SnapshotTaken(w, io, s0.cfg.config, s0.pub.reported);
    BufferedAddNothing(s0, w1, b, buffered);
    var w2 := ReceiveAll(w1, s0.log.sent[b..], buffered);
    LaterCaught(s0, s, w2, readings);
    CaughtIsToldOnce(s0, s, w2, ReceiveAll(w2, s.log.sent[|s0.log.sent|..], readings));
  }

  // ---- outputs that a write resets ----

  lemma OutputApplied(cfg: E.Setup, cfg': E.Setup, next: PinConfig, n: nat, at: nat)
    requires EI.HwInv(cfg) && |cfg'.hw| == GPIO_COUNT && C.Acceptable(next, cfg.available) && n in OutputPins(next)
    requires EI.PinApplied(cfg, cfg', next, n, at)
    ensures if next[n] != cfg.config[n]
            then cfg'.hw[n] == E.Driven(next[n].param != 0)
            else cfg'.hw[n] == cfg.hw[n] == E.Driven(n in cfg.outputLevels)
  {
    assert EI.HwOk(cfg.hw[n], cfg.config[n], n in cfg.available, n in cfg.outputLevels);
    assert C.SettingOk(next[n], n in cfg.available);
  }

  /** The outputs that the watcher says a write has reset are those whose hardware the device drives anew to
      the initial level; every other output of the new configuration keeps its level. */
  lemma ResetOutputsAreDriven(s: E.State, next: PinConfig, at: nat, n: nat)
    requires E.Sized(s) && EI.HwInv(s.cfg) && C.Acceptable(next, s.cfg.available) && n in OutputPins(next)
    ensures var cfg := E.Adopt(s, next, at).cfg;
      if n in S.DrivenOutputs(s.cfg.config, next)
      then cfg.hw[n] == E.Driven(next[n].param != 0)
      else cfg.hw[n] == s.cfg.hw[n] == E.Driven(n in s.cfg.outputLevels)
  {
    if next == s.cfg.config {
      assert EI.HwOk(s.cfg.hw[n], s.cfg.config[n], n in s.cfg.available, n in s.cfg.outputLevels);
    } else {
      EI.ApplyPins(s.cfg, next, at, 0);
      OutputApplied(s.cfg, E.ApplyFrom(s.cfg, next, at, 0), next, n, at);
    }
  }
}
