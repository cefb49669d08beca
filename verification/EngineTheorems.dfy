/** What the engine promises about whole runs from power-on, read off the invariant. */
module EngineTheorems {
  import opened Protocol
  import opened EventQueue
  import opened EngineSpec
  import opened Replay
  import opened EngineInvariants
  import D = Debounce
  import C = PinConfigCodec

  // ---- reports and events ----

  /** No event is lost, repeated or reordered between confirmation and report: the events of all
      committed reports followed by the queue are the accepted ones, and each report shows its events
      with the ages they have at its timestamp. */
  lemma EventsConserved(available: set<nat>, at: nat, acts: seq<Action>)
    ensures var s := Run(Init(available, at), acts);
      && SentEdges(s.log.sent) + s.fifo.queue == s.fifo.accepted
      && forall i :: 0 <= i < |s.log.sent| ==>
           var r := s.log.sent[i]; r.report.events == ToWireEvents(r.edges, r.report.timestamp)
  {
    AlwaysInv(available, at, acts);
  }

  /** Between consecutive reports, a monitored pin with no dropped event and no new first level moves
      from its old to its new level by exactly the alternating events the later report carries. */
  lemma LevelsMoveByEvents(available: set<nat>, at: nat, acts: seq<Action>, i: nat, n: nat)
    requires 0 < i < |Run(Init(available, at), acts).log.sent|
    requires var r := Run(Init(available, at), acts).log.sent[i];
      n in r.report.monitored && n !in r.dirty && n !in r.reread
    ensures var sent := Run(Init(available, at), acts).log.sent;
      var prev, r := sent[i - 1].report, sent[i];
      && n in prev.monitored
      && Alternates(n in prev.levels, r.edges, n, n in r.report.levels)
      && (!HasEvent(r.edges, n) ==> (n in prev.levels <==> n in r.report.levels))
  {
    AlwaysInv(available, at, acts);
    var sent := Run(Init(available, at), acts).log.sent;
    assert Linked(sent, Run(Init(available, at), acts).log.settledAt, i);
    if !HasEvent(sent[i].edges, n) {
      AlternatesAbsent(n in sent[i - 1].report.levels, sent[i].edges, n);
      AlternatesEndsOnce(n in sent[i - 1].report.levels, sent[i].edges, n,
                         n in sent[i - 1].report.levels, n in sent[i].report.levels);
    }
  }

  lemma {:induction false} AlternatesEndsOnce(cur: bool, q: seq<EdgeEvent>, n: nat, a: bool, b: bool)
    requires Alternates(cur, q, n, a) && Alternates(cur, q, n, b)
    ensures a == b
    decreases |q|
  {
    if q != [] {
      AlternatesEndsOnce(if q[0].gpio == n then q[0].level else cur, q[1..], n, a, b);
    }
  }

  /** OVERFLOW is on a report exactly when it drains the queue and events were dropped since the last
      draining report; every report has a reason, and LEVEL_CHANGED exactly with events; seq counts the
      reports modulo 2^16. */
  lemma ReportFlags(available: set<nat>, at: nat, acts: seq<Action>, i: nat)
    requires i < |Run(Init(available, at), acts).log.sent|
    ensures var r := Run(Init(available, at), acts).log.sent[i];
      && (r.report.overflow <==> !r.report.more && r.drops > 0)
      && r.report.reasons != {}
      && (LevelChanged in r.report.reasons <==> r.edges != [])
      && r.report.seqNo == i % 0x1_0000
  {
    AlwaysInv(available, at, acts);
  }

  /** The reply to Get_Report(Input) carries the number of the last report, says MORE_EVENTS exactly while
      events are queued, and is ahead of the reports by exactly those events: they lead each clean monitored
      pin from its reported level to the one in the reply. */
  lemma ReplyIsAhead(available: set<nat>, at: nat, acts: seq<Action>, now: u64, n: nat)
    ensures var s := Run(Init(available, at), acts); var r := StatusReply(s, now);
      && r.reasons == {HostRequest} && r.events == [] && !r.overflow
      && r.seqNo == (if s.log.sent == [] then 0 else s.log.sent[|s.log.sent| - 1].report.seqNo)
      && (r.more <==> SentEdges(s.log.sent) != s.fifo.accepted)
      && (n in r.monitored && n !in s.fifo.dirty ==>
            Alternates(n in s.pub.reported, s.fifo.queue, n, n in r.levels)
            && (!r.more ==> (n in r.levels <==> n in s.pub.reported)))
  {
    AlwaysInv(available, at, acts);
    var s := Run(Init(available, at), acts);
    assert |SentEdges(s.log.sent) + s.fifo.queue| == |s.fifo.accepted|;
    if s.log.sent != [] {
      assert s.log.sent[|s.log.sent| - 1].report.seqNo == (|s.log.sent| - 1) % 0x1_0000;
    }
  }

  /** Only a send that is handed over adds a record, and it adds the one for the current state. */
  lemma SentGrows(s: State, a: Action)
    requires Sized(s)
    ensures Step(s, a).log.sent ==
      if a.SendReport? && a.handedOver && !NothingToSend(s)
      then s.log.sent + [RecordOf(s, BatchSize(s.fifo.queue), ReportOf(s, a.at))]
      else s.log.sent
  {
    match a
    case Resync(raw, at) => ResyncFrame(s, raw, at, 0);
    case Tick(raw, at) => PollFrame(SettleIfDue(s, raw, at), at, 0);
    case _ =>
  }

  lemma {:induction false} PollFrame(s: State, at: nat, n: nat)
    requires Sized(s) && n <= GPIO_COUNT
    ensures var s' := PollFrom(s, at, n); s' == s.(deb := s'.deb, fifo := s'.fifo)
    decreases GPIO_COUNT - n
  {
    if n < GPIO_COUNT {
      PollFrame(PollPin(s, n, at), at, n + 1);
    }
  }

  lemma {:induction false} ResyncFrame(s: State, raw: set<nat>, at: nat, n: nat)
    requires Sized(s) && n <= GPIO_COUNT
    ensures var s' := ResyncFrom(s, raw, at, n); s' == s.(deb := s'.deb, fifo := s'.fifo)
    decreases GPIO_COUNT - n
  {
    if n < GPIO_COUNT {
      if Tracking(s.cfg, s.pub, n) && (n in raw) != s.deb[n].raw {
        ResyncFrame(OnEdge(s, n, n in raw, at), raw, at, n + 1);
      } else {
        ResyncFrame(s, raw, at, n + 1);
      }
    }
  }

  /** A report that is not handed over takes nothing from the engine: the next one is rebuilt. */
  lemma UncommittedChangesNothing(s: State, at: u64)
    requires Sized(s)
    ensures Send(s, at, false) == s.(tx := s.tx.(staged := Stage(s, at)))
    ensures forall later: u64, handedOver :: Send(Send(s, at, false), later, handedOver) == Send(s, later, handedOver)
  {
  }

  /** Why a commit must follow its prepare at once: a command applied in between keeps its reason exactly
      when no report was staged or the staged one does not carry that reason already. Applied after the
      commit, it always does. */
  lemma InterleavedCommand(s: State, at: u64, command: (set<nat>, set<nat>))
    requires Inv(s)
    ensures OutputApplied in Commit(Drive(Prepare(s, at), Some(command)), at).tx.reasons <==>
      NothingToSend(s) || OutputApplied !in s.tx.reasons
    ensures OutputApplied in Drive(Send(s, at, true), Some(command)).tx.reasons
  {
  }

  // ---- configuration ----

  /** After the first settle, consecutive reports with different masks announce it with CONFIG_CHANGED. */
  lemma MaskChangesAreAnnounced(available: set<nat>, at: nat, acts: seq<Action>, i: nat)
    requires var log := Run(Init(available, at), acts).log;
      0 < i < |log.sent| && log.settledAt.Some? && log.settledAt.value < i
    requires var sent := Run(Init(available, at), acts).log.sent;
      !SameMasks(sent[i - 1].report, sent[i].report.monitored, sent[i].report.outputs)
    ensures ConfigChanged in Run(Init(available, at), acts).log.sent[i].report.reasons
  {
    AlwaysInv(available, at, acts);
    var log := Run(Init(available, at), acts).log;
    assert Linked(log.sent, log.settledAt, i);
  }

  /** The published masks change in one kind of step only: a tick that ends a settle. It publishes the
      masks of the latest accepted configuration and raises CONFIG_CHANGED if a write is waiting. */
  lemma MasksMoveOnlyAtSettle(s: State, a: Action)
    requires Inv(s)
    ensures var s' := Step(s, a);
      if a.Tick? && s.cfg.settleActive && a.at >= s.cfg.settleDeadline then
        && s'.pub.monitored == InputPins(s.cfg.config) && s'.pub.outputs == OutputPins(s.cfg.config)
        && s'.cfg.settling == {} && !s'.cfg.settleActive
        && (s.cfg.configChanged ==> ConfigChanged in s'.tx.reasons)
      else s'.pub.monitored == s.pub.monitored && s'.pub.outputs == s.pub.outputs
  {
    match a
    case Resync(raw, at) => ResyncFrame(s, raw, at, 0);
    case Tick(raw, at) => PollFrame(SettleIfDue(s, raw, at), at, 0);
    case _ =>
  }

  /** A write leaves the output level of pin n as it is. */
  predicate KeepsLevel(cfg: Setup, next: PinConfig, n: nat)
    requires n < GPIO_COUNT
  {
    next[n] == cfg.config[n] || (n in cfg.outputLevels <==> next[n].mode.Output? && next[n].param != 0)
  }

  /** Until the settle ends, Get_Report(Input) shows the levels from before a write exactly when the write
      changes no level of a published output: output levels move at once, all else waits. */
  lemma LevelsWaitIff(s: State, p: seq<byte>, at: nat, now: u64)
    requires Inv(s) && C.VerdictOf(p, s.cfg.available).result == C.RESULT_OK
    requires |p| == PAYLOAD_LEN && forall n :: 0 <= n < GPIO_COUNT ==> C.ModeAt(p, n) <= 4
    ensures var s' := SetPinConfig(s, p, at);
      && StatusReply(s', now).(levels := {}) == StatusReply(s, now).(levels := {})
      && (StatusReply(s', now).levels == StatusReply(s, now).levels <==>
            forall n :: 0 <= n < GPIO_COUNT && n in s.pub.outputs ==> KeepsLevel(s.cfg, C.ConfigIn(p), n))
  {
    var v, next := C.VerdictOf(p, s.cfg.available), C.ConfigIn(p);
    var s1 := s.(cfg := s.cfg.(result := v.result, resultGpio := v.gpio, requestId := v.requestId));
    AdoptLevels(s1, next, at);
    OutputBitsTell(s, Adopt(s1, next, at), now);
  }

  lemma AdoptLevels(s: State, next: PinConfig, at: nat)
    requires Sized(s)
    ensures var s' := Adopt(s, next, at);
      && s'.pub == s.pub && s'.fifo == s.fifo && s'.tx == s.tx
      && ConfirmedLevels(s.pub.monitored, s'.deb) == ConfirmedLevels(s.pub.monitored, s.deb)
      && forall n :: 0 <= n < GPIO_COUNT ==>
           ((n in s'.cfg.outputLevels <==> n in s.cfg.outputLevels) <==> KeepsLevel(s.cfg, next, n))
  {
    if next != s.cfg.config {
      ApplyPins(s.cfg, next, at, 0);
      forall n | 0 <= n < GPIO_COUNT
        ensures (n in Adopt(s, next, at).cfg.outputLevels <==> n in s.cfg.outputLevels) <==> KeepsLevel(s.cfg, next, n)
      {
        assert PinApplied(s.cfg, ApplyFrom(s.cfg, next, at, 0), next, n, at);
      }
    }
  }

  lemma OutputBitsTell(s: State, s': State, now: u64)
    requires Inv(s) && Sized(s') && s'.pub == s.pub
    requires ConfirmedLevels(s.pub.monitored, s'.deb) == ConfirmedLevels(s.pub.monitored, s.deb)
    ensures StatusReply(s', now).levels == StatusReply(s, now).levels <==>
      forall n :: 0 <= n < GPIO_COUNT && n in s.pub.outputs ==> (n in s'.cfg.outputLevels <==> n in s.cfg.outputLevels)
  {
    var a, b := StatusReply(s, now).levels, StatusReply(s', now).levels;
    forall n | n in s.pub.outputs
      ensures (n in a <==> n in s.cfg.outputLevels) && (n in b <==> n in s'.cfg.outputLevels)
    {
    }
  }

  /** The events confirmed so far, queued or dropped. */
  function Confirmed(f: Fifo): nat {
    |f.accepted| + f.lost
  }

  /** No event is taken back, and without a new one every confirmed level stays. */
  ghost predicate LevelsStay(s: State, s': State)
    requires Sized(s) && Sized(s')
  {
    && Confirmed(s.fifo) <= Confirmed(s'.fifo)
    && (Confirmed(s.fifo) == Confirmed(s'.fifo) ==>
          forall n :: 0 <= n < GPIO_COUNT ==> s'.deb[n].confirmed == s.deb[n].confirmed)
  }

  lemma {:induction false} ResyncStays(s: State, raw: set<nat>, at: nat, n: nat)
    requires Sized(s) && n <= GPIO_COUNT
    ensures LevelsStay(s, ResyncFrom(s, raw, at, n))
    decreases GPIO_COUNT - n
  {
    if n < GPIO_COUNT {
      if Tracking(s.cfg, s.pub, n) && (n in raw) != s.deb[n].raw {
        ResyncStays(OnEdge(s, n, n in raw, at), raw, at, n + 1);
      } else {
        ResyncStays(s, raw, at, n + 1);
      }
    }
  }

  lemma {:induction false} PollStays(s: State, at: nat, n: nat)
    requires Sized(s) && n <= GPIO_COUNT
    ensures LevelsStay(s, PollFrom(s, at, n))
    decreases GPIO_COUNT - n
  {
    if n < GPIO_COUNT {
      PollStays(PollPin(s, n, at), at, n + 1);
    }
  }

  /** Neither a write nor an output command nor a reset. */
  predicate Waits(a: Action) {
    !a.Configure? && !a.Command? && !a.Reset?
  }

  /** While the settle goes on, the configuration, the masks and the output levels stay. */
  ghost predicate StillSettling(s: State, s': State) {
    && Sized(s) && Sized(s') && s'.cfg == s.cfg && s'.pub.monitored == s.pub.monitored
    && s'.pub.outputs == s.pub.outputs && LevelsStay(s, s')
  }

  lemma WaitStep(s: State, a: Action)
    requires Sized(s) && s.cfg.settleActive && Waits(a)
    ensures Step(s, a).cfg.settleActive ==> StillSettling(s, Step(s, a))
  {
    match a
    case Resync(raw, at) => ResyncFrame(s, raw, at, 0); ResyncStays(s, raw, at, 0);
    case Tick(raw, at) =>
      PollFrame(SettleIfDue(s, raw, at), at, 0);
      PollStays(SettleIfDue(s, raw, at), at, 0);
    case _ =>
  }

  lemma SettleDoesNotRestart(s: State, a: Action)
    requires Sized(s) && !s.cfg.settleActive && Waits(a)
    ensures !Step(s, a).cfg.settleActive
  {
    match a
    case Resync(raw, at) => ResyncFrame(s, raw, at, 0);
    case Tick(raw, at) => PollFrame(s, at, 0);
    case _ =>
  }

  lemma {:induction false} WaitRun(s: State, acts: seq<Action>)
    requires Sized(s) && s.cfg.settleActive && forall i :: 0 <= i < |acts| ==> Waits(acts[i])
    ensures Run(s, acts).cfg.settleActive ==> StillSettling(s, Run(s, acts))
  {
    if acts != [] {
      var before, last := Run(s, acts[..|acts| - 1]), acts[|acts| - 1];
      WaitRun(s, acts[..|acts| - 1]);
      if before.cfg.settleActive {
        WaitStep(before, last);
      } else {
        SettleDoesNotRestart(before, last);
      }
    }
  }

  /** The same throughout the wait: until the settle ends, while nothing is confirmed, written, commanded or
      reset, every reply shows the masks from before the write, and its levels exactly when the write changes
      no level of a published output. */
  lemma LevelsWaitThroughout(s: State, p: seq<byte>, at: nat, acts: seq<Action>, now: u64)
    requires Inv(s) && C.VerdictOf(p, s.cfg.available).result == C.RESULT_OK
    requires |p| == PAYLOAD_LEN && forall n :: 0 <= n < GPIO_COUNT ==> C.ModeAt(p, n) <= 4
    requires forall i :: 0 <= i < |acts| ==> Waits(acts[i])
    requires var s' := Run(SetPinConfig(s, p, at), acts); s'.cfg.settleActive && Confirmed(s'.fifo) == Confirmed(s.fifo)
    ensures var s' := Run(SetPinConfig(s, p, at), acts); var was, reply := StatusReply(s, now), StatusReply(s', now);
      && reply.monitored == was.monitored && reply.outputs == was.outputs
      && (reply.levels == was.levels <==>
            forall n :: 0 <= n < GPIO_COUNT && n in s.pub.outputs ==> KeepsLevel(s.cfg, C.ConfigIn(p), n))
  {
    LevelsWaitIff(s, p, at, now);
    WriteKeepsFifo(s, p, at);
    SettlingReplies(SetPinConfig(s, p, at), acts, now);
  }

  lemma WriteKeepsFifo(s: State, p: seq<byte>, at: nat)
    requires Sized(s)
    ensures SetPinConfig(s, p, at).fifo == s.fifo
  {
  }

  lemma SettlingReplies(s: State, acts: seq<Action>, now: u64)
    requires Sized(s) && forall i :: 0 <= i < |acts| ==> Waits(acts[i])
    requires var s' := Run(s, acts); s'.cfg.settleActive && Confirmed(s'.fifo) == Confirmed(s.fifo)
    ensures var was, reply := StatusReply(s, now), StatusReply(Run(s, acts), now);
      reply.monitored == was.monitored && reply.outputs == was.outputs && reply.levels == was.levels
  {
    if s.cfg.settleActive {
      WaitRun(s, acts);
      SameLevels(s, Run(s, acts));
    } else {
      NeverRestarts(s, acts);
    }
  }

  lemma SameLevels(s: State, s': State)
    requires StillSettling(s, s') && Confirmed(s'.fifo) == Confirmed(s.fifo)
    ensures ConfirmedLevels(s'.pub.monitored, s'.deb) == ConfirmedLevels(s.pub.monitored, s.deb)
  {
  }

  lemma {:induction false} NeverRestarts(s: State, acts: seq<Action>)
    requires Sized(s) && !s.cfg.settleActive && forall i :: 0 <= i < |acts| ==> Waits(acts[i])
    ensures !Run(s, acts).cfg.settleActive
  {
    if acts != [] {
      NeverRestarts(s, acts[..|acts| - 1]);
      SettleDoesNotRestart(Run(s, acts[..|acts| - 1]), acts[|acts| - 1]);
    }
  }

  /** In every reachable state each available pin's hardware is as configured, an output pin drives its
      output level, and a GPIO that is not available has never been touched. */
  lemma HardwareFollows(available: set<nat>, at: nat, acts: seq<Action>, n: nat)
    requires n < GPIO_COUNT
    ensures var cfg := Run(Init(available, at), acts).cfg;
      var setting := cfg.config[n];
      && cfg.available == available
      && (n !in available ==> cfg.hw[n] == Untouched && setting == PinSetting(Unused, 0))
      && (n in available ==>
            match setting.mode
            case Unused => cfg.hw[n] == Disabled
            case Output => cfg.hw[n] == Driven(n in cfg.outputLevels)
            case mode => cfg.hw[n].Sensing? && cfg.hw[n].mode == mode)
  {
    AlwaysInv(available, at, acts);
    AvailableIsFixed(available, at, acts);
    var cfg := Run(Init(available, at), acts).cfg;
    assert C.SettingOk(cfg.config[n], n in available);
    assert HwOk(cfg.hw[n], cfg.config[n], n in cfg.available, n in cfg.outputLevels);
  }

  lemma {:induction false} AvailableIsFixed(available: set<nat>, at: nat, acts: seq<Action>)
    ensures Run(Init(available, at), acts).cfg.available == available
  {
    if acts != [] {
      AvailableIsFixed(available, at, acts[..|acts| - 1]);
      var s := Run(Init(available, at), acts[..|acts| - 1]);
      match acts[|acts| - 1]
      case Resync(raw, t) => ResyncFrame(s, raw, t, 0);
      case Tick(raw, t) => PollFrame(SettleIfDue(s, raw, t), t, 0);
      case Configure(p, t) =>
        var v := C.VerdictOf(p, s.cfg.available);
        if v.result == C.RESULT_OK {
          C.AcceptedModes(p, s.cfg.available);
          ApplyPins(s.cfg.(result := v.result, resultGpio := v.gpio, requestId := v.requestId), C.ConfigIn(p), t, 0);
        }
      case _ =>
    }
  }

  /** A debouncer in use has the debounce time of the current configuration, and waits exactly while the
      electrical level differs from the confirmed one. */
  lemma TrackedDebouncers(available: set<nat>, at: nat, acts: seq<Action>, n: nat)
    requires n < GPIO_COUNT
    ensures var s := Run(Init(available, at), acts);
      && (s.deb[n].pending <==> s.deb[n].raw != s.deb[n].confirmed)
      && (Tracking(s.cfg, s.pub, n) ==> s.deb[n].debounceUs == s.cfg.config[n].param * 1000)
  {
    AlwaysInv(available, at, acts);
    var s := Run(Init(available, at), acts);
    assert D.Consistent(s.deb[n]);
  }

  /** After a resynchronisation every tracked pin's debouncer knows the electrical level it was given,
      however many edges were missed. */
  lemma {:induction false} ResyncHeals(s: State, raw: set<nat>, at: nat, n: nat)
    requires Sized(s) && n <= GPIO_COUNT
    ensures var s' := ResyncFrom(s, raw, at, n);
      forall m :: 0 <= m < GPIO_COUNT ==>
        s'.deb[m].raw == if m >= n && Tracking(s.cfg, s.pub, m) then m in raw else s.deb[m].raw
    decreases GPIO_COUNT - n
  {
    if n < GPIO_COUNT {
      if Tracking(s.cfg, s.pub, n) && (n in raw) != s.deb[n].raw {
        EdgeHeard(s, n, n in raw, at);
        ResyncHeals(OnEdge(s, n, n in raw, at), raw, at, n + 1);
      } else {
        ResyncHeals(s, raw, at, n + 1);
      }
    }
  }

  lemma EdgeHeard(s: State, n: nat, level: bool, at: nat)
    requires Sized(s) && n < GPIO_COUNT && Tracking(s.cfg, s.pub, n)
    ensures var s' := OnEdge(s, n, level, at);
      && s'.cfg == s.cfg && s'.pub == s.pub && s'.deb[n].raw == level
      && forall m :: 0 <= m < GPIO_COUNT && m != n ==> s'.deb[m] == s.deb[m]
  {
  }

  // ---- outputs ----

  /** An output command drives exactly the output pins in its mask, to the levels it gives; it leaves every
      other pin's hardware and level alone, and the next report says OUTPUT_APPLIED and shows the levels. */
  lemma CommandReaches(s: State, mask: set<nat>, value: set<nat>, n: nat, now: u64)
    requires Inv(s) && n < GPIO_COUNT
    ensures var s' := Drive(s, Some((mask, value)));
      && OutputApplied in ReportOf(s', now).reasons
      && (if n in mask && n in OutputPins(s.cfg.config)
          then s'.cfg.hw[n] == Driven(n in value)
               && (n in s.pub.outputs ==>
                     (n in StatusReply(s', now).levels <==> n in value) && (n in ReportOf(s', now).levels <==> n in value))
          else s'.cfg.hw[n] == s.cfg.hw[n] && (n in s'.cfg.outputLevels <==> n in s.cfg.outputLevels))
  {
    assert s.pub.reported <= s.pub.monitored && s.pub.monitored !! s.pub.outputs;
  }

  /** A USB reset returns every output pin to its initial level and touches no other pin; it raises
      OUTPUT_RESET exactly when there is an output pin. */
  lemma ResetReturns(s: State, n: nat)
    requires Inv(s) && n < GPIO_COUNT
    ensures var s', setting := UsbReset(s), s.cfg.config[n];
      && s'.cfg.hw[n] == (if setting.mode.Output? then Driven(setting.param != 0) else s.cfg.hw[n])
      && (setting.mode.Output? ==> (n in s'.cfg.outputLevels <==> setting.param != 0))
      && (Reason.OutputReset in s'.tx.reasons <==>
            Reason.OutputReset in s.tx.reasons || exists m :: 0 <= m < GPIO_COUNT && s.cfg.config[m].mode.Output?)
  {
    if m :| 0 <= m < GPIO_COUNT && s.cfg.config[m].mode.Output? {
      assert m in OutputPins(s.cfg.config);
    }
  }

  // ---- the periodic report ----

  /** The time of the last committed report, or of power-on. */
  function LastReport(sent: seq<Record>, from: nat): nat {
    if sent == [] then from else sent[|sent| - 1].report.timestamp
  }

  lemma {:induction false} LastSentIsLastReport(available: set<nat>, from: nat, acts: seq<Action>)
    ensures var s := Run(Init(available, from), acts); s.tx.lastSent == LastReport(s.log.sent, from)
  {
    if acts != [] {
      var s, last := Run(Init(available, from), acts[..|acts| - 1]), acts[|acts| - 1];
      LastSentIsLastReport(available, from, acts[..|acts| - 1]);
      SentGrows(s, last);
      match last
      case Resync(raw, at) => ResyncFrame(s, raw, at, 0);
      case Tick(raw, at) => PollFrame(SettleIfDue(s, raw, at), at, 0);
      case _ =>
    }
  }

  /** The device is never silent for long: in every reachable state, after a tick at least a second after the
      last report, the next report that is handed over exists and says PERIODIC; an earlier tick does not
      raise it. */
  lemma SilenceEnds(available: set<nat>, from: nat, acts: seq<Action>, raw: set<nat>, at: u64, later: u64)
    requires LastReport(Run(Init(available, from), acts).log.sent, from) <= at
    ensures var s := Run(Init(available, from), acts); var s' := Task(s, raw, at); var sent := Send(s', later, true).log.sent;
      if at - LastReport(s.log.sent, from) >= PERIODIC_US
      then |sent| == |s.log.sent| + 1 && Periodic in sent[|s.log.sent|].report.reasons
      else Periodic in s'.tx.reasons <==> Periodic in s.tx.reasons
  {
    var s := Run(Init(available, from), acts);
    LastSentIsLastReport(available, from, acts);
    TickRaises(s, raw, at);
    SentGrows(Task(s, raw, at), SendReport(later, true));
  }

  lemma TickRaises(s: State, raw: set<nat>, at: u64)
    requires Sized(s) && s.tx.lastSent <= at
    ensures var s' := Task(s, raw, at);
      && s'.log.sent == s.log.sent
      && (Periodic in s'.tx.reasons <==> at - s.tx.lastSent >= PERIODIC_US || Periodic in s.tx.reasons)
  {
    var s1 := SettleIfDue(s, raw, at);
    assert s1.log.sent == s.log.sent && s1.tx.lastSent == s.tx.lastSent;
    assert Periodic in s1.tx.reasons <==> Periodic in s.tx.reasons;
    PollFrame(s1, at, 0);
    DueWithoutWrap(at, s.tx.lastSent);
  }

  lemma DueWithoutWrap(now: u64, last: nat)
    requires last <= now
    ensures PeriodicDue(now, last) <==> now - last >= PERIODIC_US
  {
  }

  // ---- the settle time ----

  /** The time of an action that reads the engine's clock for settling. */
  function Clock(from: nat, acts: seq<Action>): nat {
    if acts == [] then from
    else
      var last := acts[|acts| - 1];
      if last.Tick? || last.Configure? then last.at else Clock(from, acts[..|acts| - 1])
  }

  /** Ticks and writes come in the order of their times; edge times are left free, because edges are
      stamped by the interrupt handler and processed later. */
  ghost predicate InOrder(from: nat, acts: seq<Action>) {
    acts == [] ||
    (var prefix, last := acts[..|acts| - 1], acts[|acts| - 1];
     InOrder(from, prefix) && (last.Tick? || last.Configure? ==> Clock(from, prefix) <= last.at))
  }

  ghost predicate SettleTimes(cfg: Setup, clock: nat) {
    && |cfg.hw| == GPIO_COUNT
    && forall n :: 0 <= n < GPIO_COUNT && n in cfg.settling ==>
         cfg.settleActive && cfg.hw[n].Sensing? && cfg.hw[n].since <= clock
         && cfg.hw[n].since + SETTLE_US <= cfg.settleDeadline
  }

  ghost predicate SampledLate(samples: seq<Sample>) {
    forall i :: 0 <= i < |samples| ==> samples[i].since + SETTLE_US <= samples[i].at
  }

  lemma {:induction false} SamplesAreLate(cfg: Setup, clock: nat, at: nat, n: nat)
    requires SettleTimes(cfg, clock) && n <= GPIO_COUNT && at >= cfg.settleDeadline
    ensures SampledLate(SamplesFrom(cfg, at, n))
    decreases GPIO_COUNT - n
  {
    if n < GPIO_COUNT {
      SamplesAreLate(cfg, clock, at, n + 1);
    }
  }

  lemma TickTimes(s: State, raw: set<nat>, at: u64, clock: nat)
    requires Inv(s) && SettleTimes(s.cfg, clock) && SampledLate(s.log.samples) && clock <= at
    ensures var s' := Task(s, raw, at); SettleTimes(s'.cfg, at) && SampledLate(s'.log.samples)
  {
    PollFrame(SettleIfDue(s, raw, at), at, 0);
    if s.cfg.settleActive && at >= s.cfg.settleDeadline {
      SamplesAreLate(s.cfg, clock, at, 0);
    }
  }

  lemma ConfigureTimes(s: State, p: seq<byte>, at: u64, clock: nat)
    requires Inv(s) && SettleTimes(s.cfg, clock) && clock <= at
    ensures var s' := SetPinConfig(s, p, at); SettleTimes(s'.cfg, at) && s'.log == s.log
  {
    var v := C.VerdictOf(p, s.cfg.available);
    if v.result == C.RESULT_OK {
      C.AcceptedModes(p, s.cfg.available);
      var cfg := s.cfg.(result := v.result, resultGpio := v.gpio, requestId := v.requestId);
      AdoptTimes(s.(cfg := cfg), C.ConfigIn(p), at, clock);
    }
  }

  lemma TimedStep(s: State, a: Action, clock: nat)
    requires Inv(s) && SettleTimes(s.cfg, clock) && SampledLate(s.log.samples)
    requires a.Tick? || a.Configure? ==> clock <= a.at
    ensures var s' := Step(s, a);
      SettleTimes(s'.cfg, if a.Tick? || a.Configure? then a.at else clock) && SampledLate(s'.log.samples)
  {
    match a
    case Resync(raw, at) => ResyncFrame(s, raw, at, 0);
    case Tick(raw, at) => TickTimes(s, raw, at, clock);
    case Configure(p, at) => ConfigureTimes(s, p, at, clock);
    case Command(command) => DriveTimes(s, command, clock);
    case Reset => ResetTimes(s, clock);
    case _ =>
  }

  lemma AdoptTimes(s: State, next: PinConfig, at: nat, clock: nat)
    requires HwInv(s.cfg) && Sized(s) && SettleTimes(s.cfg, clock) && clock <= at
    ensures SettleTimes(Adopt(s, next, at).cfg, at)
  {
    ApplyPins(s.cfg, next, at, 0);
    var cfg' := ApplyFrom(s.cfg, next, at, 0);
    forall n | 0 <= n < GPIO_COUNT && n in cfg'.settling
      ensures cfg'.hw[n].Sensing? && cfg'.hw[n].since <= at
    {
      assert PinApplied(s.cfg, cfg', next, n, at);
    }
  }

  lemma DriveTimes(s: State, command: Option<(set<nat>, set<nat>)>, clock: nat)
    requires Inv(s) && SettleTimes(s.cfg, clock)
    ensures SettleTimes(Drive(s, command).cfg, clock)
  {
    assert forall n :: 0 <= n < GPIO_COUNT && n in s.cfg.settling ==> n !in OutputPins(s.cfg.config);
  }

  lemma ResetTimes(s: State, clock: nat)
    requires Inv(s) && SettleTimes(s.cfg, clock)
    ensures SettleTimes(UsbReset(s).cfg, clock)
  {
    assert forall n :: 0 <= n < GPIO_COUNT && n in s.cfg.settling ==> n !in OutputPins(s.cfg.config);
  }

  /** With ticks and writes in time order, no pin's first level is read sooner than 1000 us after the pin
      was set up. */
  lemma {:induction false} FirstLevelsWaitOut(available: set<nat>, at: nat, acts: seq<Action>)
    requires InOrder(at, acts)
    ensures var s := Run(Init(available, at), acts);
      SettleTimes(s.cfg, Clock(at, acts)) && SampledLate(s.log.samples)
  {
    if acts != [] {
      var prefix := acts[..|acts| - 1];
      FirstLevelsWaitOut(available, at, prefix);
      AlwaysInv(available, at, prefix);
      TimedStep(Run(Init(available, at), prefix), acts[|acts| - 1], Clock(at, prefix));
    }
  }
}
