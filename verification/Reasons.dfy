/** Why reports are sent: every reason that arises reaches the host with the next report, and no report
    gives a reason that did not arise. */
module Reasons {
  import opened Protocol
  import opened EngineSpec
  import opened EngineInvariants
  import opened EngineTheorems
  import C = PinConfigCodec

  /** The reasons that arise in one action, by section 4.1 of docs/PROTOCOL.md: a settle that ends for a
      write, a second without a report, an output command, a reset of outputs. */
  ghost function Arising(s: State, a: Action, from: nat): set<Reason> {
    match a
    case Tick(raw, at) =>
      (if s.cfg.settleActive && at >= s.cfg.settleDeadline && s.cfg.configChanged then {ConfigChanged} else {}) +
      (if PeriodicDue(at, LastReport(s.log.sent, from)) then {Periodic} else {})
    case Command(command) => if command.Some? then {OutputApplied} else {}
    case Reset => if exists n :: 0 <= n < GPIO_COUNT && s.cfg.config[n].mode.Output? then {Reason.OutputReset} else {}
    case _ => {}
  }

  /** The state before the i-th action of a run from power-on. */
  function Before(available: set<nat>, from: nat, acts: seq<Action>, i: nat): (s: State)
    requires i <= |acts|
    ensures Sized(s)
  {
    Run(Init(available, from), acts[..i])
  }

  /** The i-th action raises r after the k-th report (from 0) is the next to be committed. */
  ghost predicate ArisesFor(available: set<nat>, from: nat, acts: seq<Action>, r: Reason, k: nat, i: nat)
    requires i < |acts|
  {
    && r in Arising(Before(available, from, acts, i), acts[i], from)
    && |Before(available, from, acts, i + 1).log.sent| == k
  }

  lemma BeforeStep(available: set<nat>, from: nat, acts: seq<Action>, i: nat)
    requires i < |acts|
    ensures Before(available, from, acts, i + 1) == Step(Before(available, from, acts, i), acts[i])
  {
    assert acts[..i + 1][..i] == acts[..i];
  }

  /** One step: a report that is committed gives all reasons there are, and LEVEL_CHANGED for events, and
      leaves none; any other step adds exactly what arises. */
  ghost predicate Progress(before: Sender, sent: seq<Record>, after: Sender, sent': seq<Record>, arising: set<Reason>) {
    if |sent'| > |sent| then
      && |sent'| == |sent| + 1 && sent'[..|sent|] == sent && after.reasons == {} && arising == {}
      && forall r :: r != LevelChanged ==> (r in sent'[|sent|].report.reasons <==> r in before.reasons)
    else sent' == sent && after.reasons == before.reasons + arising
  }

  lemma StepReasons(s: State, a: Action, from: nat)
    requires Sized(s) && s.tx.lastSent == LastReport(s.log.sent, from)
    ensures var s' := Step(s, a); Progress(s.tx, s.log.sent, s'.tx, s'.log.sent, Arising(s, a, from))
  {
    match a
    case Resync(raw, at) => ResyncFrame(s, raw, at, 0);
    case Tick(raw, at) => TickReasons(s, raw, at, from);
    case Reset => ResetReasons(s);
    case SendReport(at, handedOver) => SendReasons(s, at, handedOver);
    case _ =>
  }

  lemma TickReasons(s: State, raw: set<nat>, at: u64, from: nat)
    requires Sized(s) && s.tx.lastSent == LastReport(s.log.sent, from)
    ensures var s' := Task(s, raw, at);
      Progress(s.tx, s.log.sent, s'.tx, s'.log.sent, Arising(s, Tick(raw, at), from))
  {
    PollFrame(SettleIfDue(s, raw, at), at, 0);
  }

  lemma SendReasons(s: State, at: u64, handedOver: bool)
    requires Sized(s)
    ensures var s' := Send(s, at, handedOver); Progress(s.tx, s.log.sent, s'.tx, s'.log.sent, {})
  {
    SentGrows(s, SendReport(at, handedOver));
  }

  lemma ResetReasons(s: State)
    requires Sized(s)
    ensures UsbReset(s).tx.reasons ==
      s.tx.reasons + (if exists n :: 0 <= n < GPIO_COUNT && s.cfg.config[n].mode.Output? then {Reason.OutputReset} else {})
  {
    if n :| 0 <= n < GPIO_COUNT && s.cfg.config[n].mode.Output? {
      assert n in OutputPins(s.cfg.config);
    }
  }

  lemma RunReasons(available: set<nat>, from: nat, acts: seq<Action>, i: nat)
    requires i < |acts|
    ensures var s, s' := Before(available, from, acts, i), Before(available, from, acts, i + 1);
      Progress(s.tx, s.log.sent, s'.tx, s'.log.sent, Arising(s, acts[i], from))
  {
    LastSentIsLastReport(available, from, acts[..i]);
    BeforeStep(available, from, acts, i);
    StepReasons(Before(available, from, acts, i), acts[i], from);
  }

  /** r is in the k-th report, or still waits for it. */
  ghost predicate Carried(tx: Sender, sent: seq<Record>, r: Reason, k: nat) {
    if k < |sent| then r in sent[k].report.reasons else k == |sent| && r in tx.reasons
  }

  lemma ProgressCarries(tx: Sender, sent: seq<Record>, tx': Sender, sent': seq<Record>, arising: set<Reason>, r: Reason, k: nat)
    requires Progress(tx, sent, tx', sent', arising) && r != LevelChanged
    requires Carried(tx, sent, r, k) || (r in arising && k == |sent'|)
    ensures Carried(tx', sent', r, k)
  {
    assert k < |sent| < |sent'| ==> sent'[k] == sent'[..|sent|][k];
  }

  lemma ProgressGives(tx: Sender, sent: seq<Record>, tx': Sender, sent': seq<Record>, arising: set<Reason>, r: Reason, k: nat)
    requires Progress(tx, sent, tx', sent', arising) && r != LevelChanged
    requires k < |sent'| && r in sent'[k].report.reasons
    ensures if k < |sent| then r in sent[k].report.reasons else k == |sent| && r in tx.reasons
  {
    assert k < |sent| < |sent'| ==> sent'[k] == sent'[..|sent|][k];
  }

  // ---- over a run ----

  /** The states of a run and what arises from each to the next. */
  ghost predicate Traced(states: seq<State>, arising: seq<set<Reason>>) {
    && |states| == |arising| + 1
    && states[0].tx.reasons == {} && states[0].log.sent == []
    && forall i :: 0 <= i < |arising| ==>
         Progress(states[i].tx, states[i].log.sent, states[i + 1].tx, states[i + 1].log.sent, arising[i])
  }

  lemma {:induction false} StaysCarried(states: seq<State>, arising: seq<set<Reason>>, r: Reason, k: nat, i: nat, m: nat)
    requires Traced(states, arising) && i < m <= |arising| && r != LevelChanged
    requires r in arising[i] && |states[i + 1].log.sent| == k
    ensures Carried(states[m].tx, states[m].log.sent, r, k)
  {
    if m > i + 1 {
      StaysCarried(states, arising, r, k, i, m - 1);
    }
    var s, s' := states[m - 1], states[m];
    ProgressCarries(s.tx, s.log.sent, s'.tx, s'.log.sent, arising[m - 1], r, k);
  }

  /** A reason that waits has arisen since the last report. */
  lemma {:induction false} WaitingHasArisen(states: seq<State>, arising: seq<set<Reason>>, r: Reason, m: nat) returns (i: nat)
    requires Traced(states, arising) && m <= |arising| && r in states[m].tx.reasons
    ensures i < m && r in arising[i] && |states[i + 1].log.sent| == |states[m].log.sent|
  {
    assert m > 0;
    if r in arising[m - 1] {
      i := m - 1;
    } else {
      i := WaitingHasArisen(states, arising, r, m - 1);
    }
  }

  /** A reason that a report gives has arisen between the report before it and this one. */
  lemma {:induction false} GivenHasArisen(states: seq<State>, arising: seq<set<Reason>>, r: Reason, k: nat, m: nat) returns (i: nat)
    requires Traced(states, arising) && m <= |arising| && r != LevelChanged
    requires k < |states[m].log.sent| && r in states[m].log.sent[k].report.reasons
    ensures i < m && r in arising[i] && |states[i + 1].log.sent| == k
  {
    assert m > 0;
    var s, s' := states[m - 1], states[m];
    ProgressGives(s.tx, s.log.sent, s'.tx, s'.log.sent, arising[m - 1], r, k);
    if k < |s.log.sent| {
      i := GivenHasArisen(states, arising, r, k, m - 1);
    } else {
      i := WaitingHasArisen(states, arising, r, m - 1);
    }
  }

  ghost function States(available: set<nat>, from: nat, acts: seq<Action>): (states: seq<State>)
    ensures |states| == |acts| + 1
    ensures forall i :: 0 <= i <= |acts| ==> states[i] == Before(available, from, acts, i)
  {
    seq(|acts| + 1, i requires 0 <= i <= |acts| => Before(available, from, acts, i))
  }

  ghost function AllArising(available: set<nat>, from: nat, acts: seq<Action>): (arising: seq<set<Reason>>)
    ensures |arising| == |acts|
    ensures forall i :: 0 <= i < |acts| ==> arising[i] == Arising(Before(available, from, acts, i), acts[i], from)
  {
    seq(|acts|, i requires 0 <= i < |acts| => Arising(Before(available, from, acts, i), acts[i], from))
  }

  lemma RunIsTraced(available: set<nat>, from: nat, acts: seq<Action>)
    ensures Traced(States(available, from, acts), AllArising(available, from, acts))
  {
    assert Before(available, from, acts, 0) == Init(available, from);
    forall i | 0 <= i < |acts|
      ensures var s, s' := Before(available, from, acts, i), Before(available, from, acts, i + 1);
        Progress(s.tx, s.log.sent, s'.tx, s'.log.sent, Arising(s, acts[i], from))
    {
      RunReasons(available, from, acts, i);
    }
  }

  /** A reason that arises is in the first report committed afterwards. */
  lemma NoReasonLost(available: set<nat>, from: nat, acts: seq<Action>, r: Reason, k: nat, i: nat, m: nat)
    requires i < m <= |acts| && r != LevelChanged && ArisesFor(available, from, acts, r, k, i)
    ensures var s := Before(available, from, acts, m); Carried(s.tx, s.log.sent, r, k)
  {
    RunIsTraced(available, from, acts);
    StaysCarried(States(available, from, acts), AllArising(available, from, acts), r, k, i, m);
  }

  /** A report gives no reason that did not arise. */
  lemma GivenReasonArose(available: set<nat>, from: nat, acts: seq<Action>, r: Reason, k: nat) returns (i: nat)
    requires r != LevelChanged
    requires var sent := Before(available, from, acts, |acts|).log.sent; k < |sent| && r in sent[k].report.reasons
    ensures i < |acts| && ArisesFor(available, from, acts, r, k, i)
  {
    RunIsTraced(available, from, acts);
    i := GivenHasArisen(States(available, from, acts), AllArising(available, from, acts), r, k, |acts|);
  }

  /** The reasons of a report are exactly those that arose since the report before it, and LEVEL_CHANGED
      exactly when it carries events. */
  lemma ReportTellsReasons(available: set<nat>, from: nat, acts: seq<Action>, k: nat, r: Reason)
    requires k < |Run(Init(available, from), acts).log.sent|
    ensures var record := Run(Init(available, from), acts).log.sent[k];
      r in record.report.reasons <==>
        if r == LevelChanged then record.edges != []
        else exists i :: 0 <= i < |acts| && ArisesFor(available, from, acts, r, k, i)
  {
    assert acts[..|acts|] == acts;
    AlwaysInv(available, from, acts);
    var s := Before(available, from, acts, |acts|);
    if r != LevelChanged {
      if i :| 0 <= i < |acts| && ArisesFor(available, from, acts, r, k, i) {
        NoReasonLost(available, from, acts, r, k, i, |acts|);
      }
      if r in s.log.sent[k].report.reasons {
        var i := GivenReasonArose(available, from, acts, r, k);
      }
    }
  }

  /** The write is accepted and asks for another configuration. */
  ghost predicate Changes(s: State, p: seq<byte>) {
    C.VerdictOf(p, s.cfg.available).result == C.RESULT_OK &&
    (C.AcceptedModes(p, s.cfg.available); C.ConfigIn(p) != s.cfg.config)
  }

  /** During a run, a write that changes the configuration was accepted, and no settle has ended since. */
  ghost predicate WriteWaits(available: set<nat>, from: nat, acts: seq<Action>) {
    acts != [] &&
    var before, last := acts[..|acts| - 1], acts[|acts| - 1];
    var s := Run(Init(available, from), before);
    if last.Configure? && Changes(s, last.payload) then true
    else if last.Tick? && s.cfg.settleActive && last.at >= s.cfg.settleDeadline then false
    else WriteWaits(available, from, before)
  }

  /** CONFIG_CHANGED arises for writes only: the flag that the end of a settle reads stands for a write that
      waits. */
  lemma {:induction false} FlagMeansWrite(available: set<nat>, from: nat, acts: seq<Action>)
    ensures Run(Init(available, from), acts).cfg.configChanged <==> WriteWaits(available, from, acts)
  {
    if acts != [] {
      var s, last := Run(Init(available, from), acts[..|acts| - 1]), acts[|acts| - 1];
      FlagMeansWrite(available, from, acts[..|acts| - 1]);
      match last
      case Resync(raw, at) => ResyncFrame(s, raw, at, 0);
      case Tick(raw, at) => PollFrame(SettleIfDue(s, raw, at), at, 0);
      case Configure(p, at) => WriteSetsFlag(s, p, at);
      case _ =>
    }
  }

  lemma WriteSetsFlag(s: State, p: seq<byte>, at: nat)
    requires Sized(s)
    ensures SetPinConfig(s, p, at).cfg.configChanged <==> Changes(s, p) || s.cfg.configChanged
  {
    var v := C.VerdictOf(p, s.cfg.available);
    if v.result == C.RESULT_OK {
      C.AcceptedModes(p, s.cfg.available);
      var cfg := s.cfg.(result := v.result, resultGpio := v.gpio, requestId := v.requestId);
      ApplyPins(cfg, C.ConfigIn(p), at, 0);
    }
  }
}
