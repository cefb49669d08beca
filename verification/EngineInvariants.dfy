/** What holds in every reachable state of the engine, whatever the order of edges, ticks, writes,
    commands, resets and sends. */
module EngineInvariants {
  import opened Protocol
  import opened EventQueue
  import opened EngineSpec
  import opened Replay
  import D = Debounce
  import C = PinConfigCodec

  // ---- configuration and hardware ----

  /** The hardware register of a pin agrees with the configuration; a GPIO that is not available was
      never touched. */
  ghost predicate HwOk(pin: HwPin, setting: PinSetting, available: bool, level: bool) {
    if !available then pin.Untouched?
    else if IsInput(setting.mode) then pin.Sensing? && pin.mode == setting.mode
    else if setting.mode.Output? then pin == Driven(level)
    else pin.Disabled?
  }

  ghost predicate HwInv(cfg: Setup) {
    && |cfg.hw| == GPIO_COUNT
    && C.Acceptable(cfg.config, cfg.available)
    && cfg.outputLevels <= OutputPins(cfg.config)
    && forall n :: 0 <= n < GPIO_COUNT ==>
         HwOk(cfg.hw[n], cfg.config[n], n in cfg.available, n in cfg.outputLevels)
  }

  /** Every input pin that is not settling is monitored already; without a settle in progress the
      published masks are those of the configuration. */
  ghost predicate MaskInv(cfg: Setup, pub: Published) {
    && cfg.settling <= InputPins(cfg.config) && InputPins(cfg.config) - cfg.settling <= pub.monitored
    && GpioSet(pub.monitored) && GpioSet(pub.outputs) && pub.monitored !! pub.outputs
    && (!cfg.settleActive ==>
          cfg.settling == {} && !cfg.configChanged
          && pub.monitored == InputPins(cfg.config) && pub.outputs == OutputPins(cfg.config))
  }

  ghost predicate DebInv(cfg: Setup, deb: seq<D.Deb>) {
    && |deb| == GPIO_COUNT
    && (forall n :: 0 <= n < GPIO_COUNT ==> D.Consistent(deb[n]))
    && (forall n :: 0 <= n < GPIO_COUNT && n in InputPins(cfg.config) && n !in cfg.settling ==>
          deb[n].debounceUs == cfg.config[n].param * 1000)
  }

  // ---- events ----

  /** All events that committed reports carried, in order. */
  function SentEdges(sent: seq<Record>): seq<EdgeEvent> {
    if sent == [] then [] else SentEdges(sent[..|sent| - 1]) + sent[|sent| - 1].edges
  }

  ghost predicate QueueInv(f: Fifo) {
    && |f.queue| <= QUEUE_SIZE
    && (forall i :: 0 <= i < |f.queue| ==> f.queue[i].gpio < GPIO_COUNT)
    && (f.overflowed <==> f.drops > 0) && f.drops <= f.lost
    && (f.queue == [] ==> !f.overflowed && f.dirty == {})
  }

  /** No accepted event is lost, repeated or reordered on its way to the host. */
  ghost predicate Conserved(f: Fifo, sent: seq<Record>) {
    SentEdges(sent) + f.queue == f.accepted
  }

  /** The queued events of a clean monitored pin lead from its reported to its confirmed level. */
  ghost predicate ReplayInv(pub: Published, f: Fifo, deb: seq<D.Deb>) {
    && |deb| == GPIO_COUNT && pub.reported <= pub.monitored && GpioSet(pub.monitored)
    && forall n :: 0 <= n < GPIO_COUNT && n in pub.monitored && n !in f.dirty ==>
         Alternates(n in pub.reported, f.queue, n, deb[n].confirmed)
  }

  // ---- reports ----

  ghost predicate SenderInv(tx: Sender, count: nat) {
    && HostRequest !in tx.reasons && LevelChanged !in tx.reasons
    && tx.nextSeq == count % 0x1_0000
    && (tx.hasSent <==> count > 0)
    && (tx.hasSent ==> tx.lastSeq == (count - 1) % 0x1_0000)
  }

  ghost predicate RecordOk(r: Record) {
    && WellFormed(r.report) && r.report.monitored !! r.report.outputs
    && r.report.events == ToWireEvents(r.edges, r.report.timestamp)
    && (r.report.overflow <==> !r.report.more && r.drops > 0)
    && (r.report.more ==> |r.edges| == EVENTS_PER_REPORT)
    && (LevelChanged in r.report.reasons <==> r.edges != [])
    && r.report.reasons != {} && HostRequest !in r.report.reasons
  }

  /** How a report's levels follow from the levels before it: a monitored pin that is neither dirty nor
      read anew was monitored before, and the report's events lead it from the old to the new level. */
  ghost predicate LevelsFollow(monitored: set<nat>, levels: set<nat>, r: Record) {
    forall n :: n in r.report.monitored && n !in r.dirty && n !in r.reread ==>
      n in monitored && Alternates(n in levels, r.edges, n, n in r.report.levels)
  }

  ghost predicate SameMasks(a: Report, monitored: set<nat>, outputs: set<nat>) {
    a.monitored == monitored && a.outputs == outputs
  }

  ghost predicate Linked(sent: seq<Record>, settledAt: Option<nat>, i: nat)
    requires 0 < i < |sent|
  {
    var prev, r := sent[i - 1].report, sent[i];
    && LevelsFollow(prev.monitored, prev.levels, r)
    && (settledAt.Some? && settledAt.value < i ==>
          SameMasks(prev, r.report.monitored, r.report.outputs) || ConfigChanged in r.report.reasons)
  }

  ghost predicate HistoryInv(sent: seq<Record>, settledAt: Option<nat>) {
    && (forall i :: 0 <= i < |sent| ==> RecordOk(sent[i]) && sent[i].report.seqNo == i % 0x1_0000)
    && (forall i :: 0 < i < |sent| ==> Linked(sent, settledAt, i))
  }

  ghost predicate SettledInv(cfg: Setup, log: Log) {
    && (log.settledAt.None? ==> cfg.settleActive)
    && (log.settledAt.Some? ==> log.settledAt.value <= |log.sent|)
    && (log.settledAt.Some? && cfg.settleActive ==> cfg.configChanged)
  }

  /** How the published state stands to the last committed report: the same levels apart from pins
      read anew, and the same masks unless a CONFIG_CHANGED is due. */
  ghost predicate SinceLastInv(pub: Published, tx: Sender, log: Log) {
    log.sent != [] ==>
      var last := log.sent[|log.sent| - 1].report;
      && (forall n :: n in pub.monitored && n !in log.reread ==>
            n in last.monitored && (n in pub.reported <==> n in last.levels))
      && (log.settledAt.Some? && log.settledAt.value < |log.sent| ==>
            SameMasks(last, pub.monitored, pub.outputs) || ConfigChanged in tx.reasons)
  }

  ghost predicate Inv(s: State) {
    && HwInv(s.cfg) && MaskInv(s.cfg, s.pub) && DebInv(s.cfg, s.deb)
    && QueueInv(s.fifo) && Conserved(s.fifo, s.log.sent) && ReplayInv(s.pub, s.fifo, s.deb)
    && SenderInv(s.tx, |s.log.sent|) && HistoryInv(s.log.sent, s.log.settledAt)
    && SettledInv(s.cfg, s.log) && SinceLastInv(s.pub, s.tx, s.log)
  }

  lemma InitInv(available: set<nat>, at: nat)
    ensures Inv(Init(available, at))
  {
    var cfg := Init(available, at).cfg;
    assert forall n :: 0 <= n < GPIO_COUNT ==>
      cfg.config[n] == (if n in available then PinSetting(InputPullUp, DEFAULT_DEBOUNCE_MS) else PinSetting(Unused, 0));
  }

  // ---- edges and polls ----

  lemma ConfirmReplays(pub: Published, f: Fifo, deb: seq<D.Deb>, n: nat, d: D.Deb, start: nat)
    requires ReplayInv(pub, f, deb) && n < GPIO_COUNT && n in pub.monitored
    requires d.confirmed == !deb[n].confirmed
    ensures ReplayInv(pub, Push(f, EdgeEvent(n, d.confirmed, start)), deb[n := d])
  {
    var e := EdgeEvent(n, d.confirmed, start);
    var f' := Push(f, e);
    forall m | 0 <= m < GPIO_COUNT && m in pub.monitored && m !in f'.dirty
      ensures Alternates(m in pub.reported, f'.queue, m, deb[n := d][m].confirmed)
    {
      AlternatesAppend(m in pub.reported, f.queue, m, deb[m].confirmed, e);
    }
  }

  /** A debouncer step on a tracked pin: a confirmed level flips the old one and is queued or dropped. */
  lemma ConfirmKeeps(s: State, n: nat, d: D.Deb, start: Option<nat>)
    requires Inv(s) && n < GPIO_COUNT && n in s.pub.monitored
    requires D.Consistent(d) && d.debounceUs == s.deb[n].debounceUs
    requires d.confirmed == (s.deb[n].confirmed != start.Some?)
    ensures Inv(Confirm(s, n, d, start))
  {
    if start.Some? {
      var e := EdgeEvent(n, d.confirmed, start.value);
      ConfirmReplays(s.pub, s.fifo, s.deb, n, d, start.value);
      assert SentEdges(s.log.sent) + (s.fifo.queue + [e]) == SentEdges(s.log.sent) + s.fifo.queue + [e];
    }
  }

  lemma EdgeKeeps(s: State, n: nat, level: bool, at: nat)
    requires Inv(s)
    ensures Inv(OnEdge(s, n, level, at))
  {
    if n < GPIO_COUNT && Tracking(s.cfg, s.pub, n) {
      var (d, start) := D.Edge(s.deb[n], level, at);
      ConfirmKeeps(s, n, d, start);
    }
  }

  lemma {:induction false} ResyncKeeps(s: State, raw: set<nat>, at: nat, n: nat)
    requires Inv(s) && n <= GPIO_COUNT
    ensures Inv(ResyncFrom(s, raw, at, n))
    decreases GPIO_COUNT - n
  {
    if n < GPIO_COUNT {
      if Tracking(s.cfg, s.pub, n) && (n in raw) != s.deb[n].raw {
        EdgeKeeps(s, n, n in raw, at);
        ResyncKeeps(OnEdge(s, n, n in raw, at), raw, at, n + 1);
      } else {
        ResyncKeeps(s, raw, at, n + 1);
      }
    }
  }

  lemma {:induction false} PollKeeps(s: State, at: nat, n: nat)
    requires Inv(s) && n <= GPIO_COUNT
    ensures Inv(PollFrom(s, at, n))
    decreases GPIO_COUNT - n
  {
    if n < GPIO_COUNT {
      if Tracking(s.cfg, s.pub, n) {
        var (d, start) := D.Poll(s.deb[n], at);
        ConfirmKeeps(s, n, d, start);
      }
      PollKeeps(PollPin(s, n, at), at, n + 1);
    }
  }

  // ---- task ----

  lemma SettleReplays(cfg: Setup, pub: Published, f: Fifo, deb: seq<D.Deb>, raw: set<nat>)
    requires ReplayInv(pub, f, deb) && MaskInv(cfg, pub)
    ensures var f' := f.(dirty := f.dirty + (set n | n in cfg.settling && HasEvent(f.queue, n)));
      var pub' := Published(InputPins(cfg.config), OutputPins(cfg.config), SettleReported(cfg, pub.reported, raw));
      ReplayInv(pub', f', SettleDeb(cfg, deb, raw))
  {
    var deb' := SettleDeb(cfg, deb, raw);
    forall n | 0 <= n < GPIO_COUNT && n in InputPins(cfg.config) && n !in f.dirty
        && !(n in cfg.settling && HasEvent(f.queue, n))
      ensures Alternates(n in SettleReported(cfg, pub.reported, raw), f.queue, n, deb'[n].confirmed)
    {
      if n in cfg.settling {
        AlternatesAbsent(n in raw, f.queue, n);
      }
    }
  }

  lemma SettleKeeps(s: State, raw: set<nat>, at: nat)
    requires Inv(s) && s.cfg.settleActive
    ensures Inv(FinishSettle(s, raw, at))
  {
    var s' := FinishSettle(s, raw, at);
    SettleReplays(s.cfg, s.pub, s.fifo, s.deb, raw);
    assert MaskInv(s'.cfg, s'.pub) && DebInv(s'.cfg, s'.deb);
    assert HistoryInv(s'.log.sent, s'.log.settledAt) by {
      forall i | 0 < i < |s.log.sent| ensures Linked(s.log.sent, s'.log.settledAt, i) {
        assert Linked(s.log.sent, s.log.settledAt, i);
      }
    }
  }

  lemma RaiseKeeps(s: State, r: Reason)
    requires Inv(s) && r != HostRequest && r != LevelChanged
    ensures Inv(s.(tx := Raise(s.tx, r)))
  {
  }

  lemma TaskKeeps(s: State, raw: set<nat>, at: u64)
    requires Inv(s)
    ensures Inv(Task(s, raw, at))
  {
    if s.cfg.settleActive && at >= s.cfg.settleDeadline {
      SettleKeeps(s, raw, at);
    }
    var s1 := SettleIfDue(s, raw, at);
    PollKeeps(s1, at, 0);
    RaiseKeeps(PollFrom(s1, at, 0), Periodic);
  }

  // ---- reports ----

  /** A batch leads each clean monitored pin from the reported to the reflected level, and the events
      left in the queue lead on from there. */
  lemma BatchFollows(s: State, n: nat)
    requires Inv(s) && n < GPIO_COUNT && n in s.pub.monitored && n !in s.fifo.dirty
    ensures var q, k := s.fifo.queue, BatchSize(s.fifo.queue);
      && Alternates(n in s.pub.reported, q[..k], n, n in ReflectedLevels(s))
      && Alternates(n in ReflectedLevels(s), q[k..], n, s.deb[n].confirmed)
  {
    var q, k := s.fifo.queue, BatchSize(s.fifo.queue);
    if |q| == k {
      assert q[..k] == q;
    } else {
      AlternatesSplit(n in s.pub.reported, q, k, n, s.deb[n].confirmed);
      ReflectLevel(s.pub.reported, q[..k], n);
    }
  }

  lemma ReportLevel(s: State, at: u64, n: nat)
    requires Inv(s) && n in s.pub.monitored
    ensures n in ReportOf(s, at).levels <==> n in ReflectedLevels(s)
  {
  }

  lemma ReportOk(s: State, at: u64)
    requires Inv(s) && !NothingToSend(s)
    ensures RecordOk(RecordOf(s, BatchSize(s.fifo.queue), ReportOf(s, at)))
  {
    var r := ReportOf(s, at);
    assert forall i :: 0 <= i < |r.events| ==> r.events[i] == ToWireEvent(s.fifo.queue[i], at);
  }

  lemma ReportFollows(s: State, at: u64, monitored: set<nat>, levels: set<nat>)
    requires Inv(s)
    requires forall n :: n in s.pub.monitored && n !in s.log.reread ==>
      n in monitored && (n in s.pub.reported <==> n in levels)
    ensures LevelsFollow(monitored, levels, RecordOf(s, BatchSize(s.fifo.queue), ReportOf(s, at)))
  {
    forall n | n in s.pub.monitored && n !in s.fifo.dirty && n !in s.log.reread
      ensures n in monitored
      ensures Alternates(n in levels, s.fifo.queue[..BatchSize(s.fifo.queue)], n, n in ReportOf(s, at).levels)
    {
      BatchFollows(s, n);
      ReportLevel(s, at, n);
    }
  }

  lemma CommitReplays(s: State, overflow: bool)
    requires Inv(s)
    ensures var q := s.fifo.queue; var k := BatchSize(q);
      ReplayInv(s.pub.(reported := ReflectedLevels(s)), Dequeue(s.fifo, k, overflow, |q| != k), s.deb)
  {
    forall n | n in s.pub.monitored && n < GPIO_COUNT
      ensures var q := s.fifo.queue; var k := BatchSize(q);
        (n in s.fifo.dirty && |q| != k) || Alternates(n in ReflectedLevels(s), q[k..], n, s.deb[n].confirmed)
    {
      if n !in s.fifo.dirty {
        BatchFollows(s, n);
      }
    }
  }

  lemma {:induction false} HistoryExtends(sent: seq<Record>, settledAt: Option<nat>, r: Record)
    requires HistoryInv(sent, settledAt)
    requires RecordOk(r) && r.report.seqNo == |sent| % 0x1_0000
    requires sent != [] ==> Linked(sent + [r], settledAt, |sent|)
    ensures HistoryInv(sent + [r], settledAt)
  {
    var longer := sent + [r];
    forall i | 0 < i < |longer| ensures Linked(longer, settledAt, i) {
      if i < |sent| {
        assert Linked(sent, settledAt, i);
      }
    }
  }

  /** The state after a report was handed over. */
  function Committed(s: State, at: u64): State
    requires Sized(s)
  {
    var k, r := BatchSize(s.fifo.queue), ReportOf(s, at);
    State(s.cfg, s.deb, Dequeue(s.fifo, k, r.overflow, r.more), s.pub.(reported := ReflectedLevels(s)),
          Acknowledge(s.tx, r.reasons, at),
          s.log.(sent := s.log.sent + [RecordOf(s, k, r)], reread := {}))
  }

  /** Apart from the staging area, a send changes nothing or has exactly the committed effect. */
  lemma SendEffect(s: State, at: u64, handedOver: bool)
    requires Sized(s)
    ensures Send(s, at, handedOver).(tx := Send(s, at, handedOver).tx.(staged := NotStaged)) ==
      if handedOver && !NothingToSend(s) then Committed(s, at) else s.(tx := s.tx.(staged := NotStaged))
  {
  }

  lemma StagingKeeps(s: State, staged: Staged)
    ensures Inv(s) <==> Inv(s.(tx := s.tx.(staged := staged)))
  {
  }

  lemma CommitConserves(s: State, at: u64)
    requires Inv(s)
    ensures var s' := Committed(s, at); Conserved(s'.fifo, s'.log.sent)
  {
    var q, k, s' := s.fifo.queue, BatchSize(s.fifo.queue), Committed(s, at);
    assert s'.log.sent[..|s.log.sent|] == s.log.sent && q[..k] + q[k..] == q;
    assert SentEdges(s'.log.sent) + q[k..] == SentEdges(s.log.sent) + (q[..k] + q[k..]);
  }

  lemma CommitLinks(s: State, at: u64)
    requires Inv(s) && !NothingToSend(s)
    ensures var s' := Committed(s, at);
      HistoryInv(s'.log.sent, s'.log.settledAt) && SinceLastInv(s'.pub, s'.tx, s'.log)
  {
    ReportOk(s, at);
    if s.log.sent != [] {
      var last := s.log.sent[|s.log.sent| - 1].report;
      ReportFollows(s, at, last.monitored, last.levels);
    }
    HistoryExtends(s.log.sent, s.log.settledAt, RecordOf(s, BatchSize(s.fifo.queue), ReportOf(s, at)));
    forall n | n in s.pub.monitored ensures n in ReportOf(s, at).levels <==> n in ReflectedLevels(s) {
      ReportLevel(s, at, n);
    }
  }

  lemma CommitSends(s: State, at: u64)
    requires Sized(s) && QueueInv(s.fifo) && SenderInv(s.tx, |s.log.sent|)
    ensures var s' := Committed(s, at);
      QueueInv(s'.fifo) && SenderInv(s'.tx, |s'.log.sent|) && |s'.log.sent| == |s.log.sent| + 1
  {
  }

  lemma CommitKeeps(s: State, at: u64)
    requires Inv(s) && !NothingToSend(s)
    ensures Inv(Committed(s, at))
  {
    CommitSends(s, at);
    CommitReplays(s, ReportOf(s, at).overflow);
    CommitConserves(s, at);
    CommitLinks(s, at);
  }

  lemma SendKeeps(s: State, at: u64, handedOver: bool)
    requires Inv(s)
    ensures Inv(Send(s, at, handedOver))
  {
    SendEffect(s, at, handedOver);
    StagingKeeps(s, NotStaged);
    StagingKeeps(Send(s, at, handedOver), NotStaged);
    if handedOver && !NothingToSend(s) {
      CommitKeeps(s, at);
    }
  }

  // ---- configuration ----

  /** What a write does to one pin. */
  ghost predicate PinApplied(cfg: Setup, cfg': Setup, next: PinConfig, n: nat, at: nat)
    requires |cfg.hw| == |cfg'.hw| == GPIO_COUNT && n < GPIO_COUNT
  {
    var was, now := cfg.config[n], next[n];
    && cfg'.hw[n] == (if was == now || OnlyTimeChanges(was, now) then cfg.hw[n]
                      else if IsInput(now.mode) then Sensing(now.mode, at)
                      else if now.mode.Output? then Driven(now.param != 0) else Disabled)
    && (n in cfg'.settling <==> if was == now || OnlyTimeChanges(was, now) then n in cfg.settling else IsInput(now.mode))
    && (n in cfg'.outputLevels <==> if was == now then n in cfg.outputLevels else now.mode.Output? && now.param != 0)
  }

  ghost predicate PinUntouched(cfg: Setup, cfg': Setup, n: nat)
    requires |cfg.hw| == |cfg'.hw| == GPIO_COUNT
  {
    && (n < GPIO_COUNT ==> cfg'.hw[n] == cfg.hw[n])
    && (n in cfg'.settling <==> n in cfg.settling)
    && (n in cfg'.outputLevels <==> n in cfg.outputLevels)
  }

  /** A write goes through the pins one by one; each ends as its own old and new setting demand. */
  lemma {:induction false} ApplyPins(cfg: Setup, next: PinConfig, at: nat, n: nat)
    requires |cfg.hw| == GPIO_COUNT && n <= GPIO_COUNT
    ensures var cfg' := ApplyFrom(cfg, next, at, n);
      && (forall m :: n <= m < GPIO_COUNT ==> PinApplied(cfg, cfg', next, m, at))
      && (forall m: nat :: m < n || m >= GPIO_COUNT ==> PinUntouched(cfg, cfg', m))
      && cfg' == cfg.(hw := cfg'.hw, settling := cfg'.settling, outputLevels := cfg'.outputLevels)
    decreases GPIO_COUNT - n
  {
    if n < GPIO_COUNT {
      var mid := ApplyPin(cfg, next, n, at);
      ApplyPins(mid, next, at, n + 1);
      var cfg' := ApplyFrom(cfg, next, at, n);
      assert PinApplied(cfg, mid, next, n, at);
      forall m: nat | m != n ensures PinUntouched(cfg, mid, m) {
      }
      forall m | n <= m < GPIO_COUNT ensures PinApplied(cfg, cfg', next, m, at) {
        if m == n {
          assert PinUntouched(mid, cfg', n);
        } else {
          assert PinApplied(mid, cfg', next, m, at) && PinUntouched(cfg, mid, m);
        }
      }
      forall m: nat | m < n || m >= GPIO_COUNT ensures PinUntouched(cfg, cfg', m) {
        assert PinUntouched(mid, cfg', m) && PinUntouched(cfg, mid, m);
      }
    }
  }

  lemma AppliedHw(cfg: Setup, cfg': Setup, next: PinConfig, n: nat, at: nat)
    requires HwInv(cfg) && |cfg'.hw| == GPIO_COUNT && n < GPIO_COUNT && PinApplied(cfg, cfg', next, n, at)
    requires C.SettingOk(next[n], n in cfg.available)
    ensures HwOk(cfg'.hw[n], next[n], n in cfg.available, n in cfg'.outputLevels)
    ensures n in cfg'.outputLevels ==> n in OutputPins(next)
  {
    assert HwOk(cfg.hw[n], cfg.config[n], n in cfg.available, n in cfg.outputLevels);
    assert C.SettingOk(cfg.config[n], n in cfg.available);
  }

  lemma AppliedDeb(s: State, cfg': Setup, next: PinConfig, n: nat, at: nat)
    requires |s.cfg.hw| == |cfg'.hw| == GPIO_COUNT && MaskInv(s.cfg, s.pub) && DebInv(s.cfg, s.deb) && n < GPIO_COUNT
    requires PinApplied(s.cfg, cfg', next, n, at)
    ensures var d := Retimed(s.deb[n], s.cfg.config[n], next[n], at);
      && (n in cfg'.settling ==> n in InputPins(next))
      && (n in InputPins(next) && n !in cfg'.settling ==> n in s.pub.monitored && d.debounceUs == next[n].param * 1000)
      && D.Consistent(d) && d.confirmed == s.deb[n].confirmed
  {
  }

  lemma AdoptKeeps(s: State, next: PinConfig, at: nat)
    requires Inv(s) && C.Acceptable(next, s.cfg.available)
    ensures Inv(Adopt(s, next, at))
  {
    if next != s.cfg.config {
      var s', cfg' := Adopt(s, next, at), ApplyFrom(s.cfg, next, at, 0);
      ApplyPins(s.cfg, next, at, 0);
      forall n | 0 <= n < GPIO_COUNT
        ensures HwOk(s'.cfg.hw[n], next[n], n in s'.cfg.available, n in s'.cfg.outputLevels)
        ensures n in s'.cfg.settling ==> n in InputPins(next)
        ensures n in InputPins(next) && n !in s'.cfg.settling ==> n in s.pub.monitored
        ensures n in InputPins(next) && n !in s'.cfg.settling ==> s'.deb[n].debounceUs == next[n].param * 1000
        ensures n in s'.cfg.outputLevels ==> n in OutputPins(next)
        ensures D.Consistent(s'.deb[n]) && s'.deb[n].confirmed == s.deb[n].confirmed
      {
        AppliedHw(s.cfg, cfg', next, n, at);
        AppliedDeb(s, cfg', next, n, at);
      }
      forall n: nat | n >= GPIO_COUNT ensures n !in s'.cfg.settling && n !in s'.cfg.outputLevels {
        assert PinUntouched(s.cfg, cfg', n);
      }
    }
  }

  lemma ConfigureKeeps(s: State, p: seq<byte>, at: nat)
    requires Inv(s)
    ensures Inv(SetPinConfig(s, p, at))
  {
    var v := C.VerdictOf(p, s.cfg.available);
    var s1 := s.(cfg := s.cfg.(result := v.result, resultGpio := v.gpio, requestId := v.requestId));
    assert Inv(s1);
    if v.result == C.RESULT_OK {
      C.AcceptedModes(p, s.cfg.available);
      AdoptKeeps(s1, C.ConfigIn(p), at);
    }
  }

  // ---- outputs ----

  lemma DriveKeeps(s: State, command: Option<(set<nat>, set<nat>)>)
    requires Inv(s)
    ensures Inv(Drive(s, command))
  {
    if command.Some? {
      var target := command.value.0 * OutputPins(s.cfg.config);
      var s' := Drive(s, command);
      forall n | 0 <= n < GPIO_COUNT
        ensures HwOk(s'.cfg.hw[n], s'.cfg.config[n], n in s'.cfg.available, n in s'.cfg.outputLevels)
      {
        assert C.SettingOk(s.cfg.config[n], n in s.cfg.available);
      }
    }
  }

  lemma ResetKeeps(s: State)
    requires Inv(s)
    ensures Inv(UsbReset(s))
  {
    var s' := UsbReset(s);
    forall n | 0 <= n < GPIO_COUNT
      ensures HwOk(s'.cfg.hw[n], s'.cfg.config[n], n in s'.cfg.available, n in s'.cfg.outputLevels)
    {
      assert C.SettingOk(s.cfg.config[n], n in s.cfg.available);
    }
  }

  // ---- every run ----

  lemma StepKeeps(s: State, a: Action)
    requires Inv(s)
    ensures Inv(Step(s, a))
  {
    match a
    case Edge(gpio, level, at) => EdgeKeeps(s, gpio, level, at);
    case Resync(raw, at) => ResyncKeeps(s, raw, at, 0);
    case Tick(raw, at) => TaskKeeps(s, raw, at);
    case Configure(payload, at) => ConfigureKeeps(s, payload, at);
    case Command(command) => DriveKeeps(s, command);
    case Reset => ResetKeeps(s);
    case SendReport(at, handedOver) => SendKeeps(s, at, handedOver);
  }

  /** The invariant holds after any run from any state that meets it. */
  lemma {:induction false} RunKeeps(s: State, acts: seq<Action>)
    requires Inv(s)
    ensures Inv(Run(s, acts))
  {
    if acts != [] {
      RunKeeps(s, acts[..|acts| - 1]);
      StepKeeps(Run(s, acts[..|acts| - 1]), acts[|acts| - 1]);
    }
  }

  /** From power-on, the invariant holds after any sequence of actions on any board. */
  lemma AlwaysInv(available: set<nat>, at: nat, acts: seq<Action>)
    ensures Inv(Run(Init(available, at), acts))
  {
    InitInv(available, at);
    RunKeeps(Init(available, at), acts);
  }
}
