/** The host's write of a pin configuration (hidpin/device.go) against the engine: what the answer to a
    write tells the host, whatever other processes write in between, and when the write is published. */
module HostDevice {
  import opened Protocol
  import opened EngineSpec
  import opened EngineTheorems
  import C = PinConfigCodec
  import WS = WatchSpec

  datatype Outcome =
    | Unreachable                                             // a transfer failed, or its answer did not decode
    | Rejected(result: byte, gpio: byte, local: bool)
    | Conflict(expected: byte, seen: byte)
    | Differs                                                 // the configuration read back is another one
    | Applied(report: C.PinConfigReport)

  /** The payload of a write. */
  function Request(config: PinConfig, id: byte): seq<byte> {
    C.ConfigBytes(C.PinConfigReport(C.RESULT_OK, C.GPIO_NONE, id, config))
  }

  /** The verdict on the answer to a write. */
  function Judge(config: PinConfig, id: byte, answer: Option<C.PinConfigReport>): Outcome {
    match answer
    case None => Unreachable
    case Some(r) =>
      if r.requestId != id then Conflict(id, r.requestId)
      else if r.result != C.RESULT_OK then Rejected(r.result, r.resultGpio, false)
      else if r.config != config then Differs
      else Applied(r)
  }

  /** A configuration has the same faults whatever stands in the header of the payload. */
  lemma SameFault(r: C.PinConfigReport, id: byte, available: set<nat>)
    ensures var v, w := C.VerdictOf(C.ConfigBytes(r), available), C.VerdictOf(Request(r.config, id), available);
      v.result == w.result && v.gpio == w.gpio
  {
    var p, q := C.ConfigBytes(r), Request(r.config, id);
    forall n | 0 <= n < GPIO_COUNT ensures C.PinFault(p, available, n) == C.PinFault(q, available, n) {
      C.EntryBytes(r, n);
      C.EntryBytes(C.PinConfigReport(C.RESULT_OK, C.GPIO_NONE, id, r.config), n);
    }
    var v := C.VerdictOf(p, available);
    C.VerdictIsUnique(q, available, C.Verdict(v.result, v.gpio, id), C.VerdictOf(q, available));
  }

  /** Checks a configuration before it is written. id is the request id the write would carry. */
  method ValidatePinConfig(config: PinConfig, available: set<nat>, ghost id: byte) returns (v: C.Verdict)
    ensures var w := C.VerdictOf(Request(config, id), available); v.result == w.result && v.gpio == w.gpio
    ensures v.result == C.RESULT_OK <==> C.Acceptable(config, available)
  {
    var r := C.PinConfigReport(C.RESULT_OK, 0, 0, config);
    var p := new byte[PAYLOAD_LEN];
    C.EncodePinConfig(r, p);
    v := C.ValidatePayload(p[..], available);
    C.AcceptedIffAcceptable(r, available);
    SameFault(r, id, available);
  }

  method EncodePinConfigSet(config: PinConfig, id: byte) returns (payload: seq<byte>)
    requires id != 0
    ensures payload == Request(config, id)
  {
    var p := new byte[PAYLOAD_LEN];
    C.EncodePinConfig(C.PinConfigReport(C.RESULT_OK, C.GPIO_NONE, id, config), p);
    payload := p[..];
  }

  class Device {
    var available: Option<set<nat>>
    var config: Option<PinConfig>
    var lastRequestId: byte
    var lastSeq: Option<u16>
    var missed: nat

    constructor ()
      ensures available.None? && config.None? && lastRequestId == 0 && lastSeq.None? && missed == 0
    {
      available, config, lastRequestId, lastSeq, missed := None, None, 0, None, 0;
    }

    /** The GPIOs the device has, read once; info is the device's answer. */
    method Info(info: Option<set<nat>>) returns (pins: Option<set<nat>>)
      modifies this`available
      ensures pins == if old(available).Some? then old(available) else info
      ensures available == pins
    {
      if available.None? {
        available := info;
      }
      pins := available;
    }

    /** Reads the configuration; a payload that does not arrive or decode leaves the cached one. */
    method GetPinConfig(reply: Option<seq<byte>>) returns (report: Option<C.PinConfigReport>)
      modifies this`config
      ensures report == if reply.Some? then C.ConfigReportOf(reply.value) else None
      ensures config == if report.Some? then Some(report.value.config) else old(config)
    {
      report := None;
      if reply.Some? {
        report := C.DecodePinConfig(reply.value);
      }
      if report.Some? {
        config := Some(report.value.config);
      }
    }

    /** Writes a configuration and checks that it was applied. id is the next request id, sent is what
        became of the write, and reply is the payload read back. */
    method SetPinConfig(next: PinConfig, info: Option<set<nat>>, id: byte, sent: bool, reply: Option<seq<byte>>)
      returns (o: Outcome, written: Option<seq<byte>>)
      requires id != 0 && id != lastRequestId
      modifies this
      ensures available == if old(available).Some? then old(available) else info
      ensures available.None? ==> o.Unreachable? && written.None?
      ensures available.Some? && !C.Acceptable(next, available.value) ==>
        var v := C.VerdictOf(Request(next, id), available.value);
        o == Rejected(v.result, v.gpio, true) && written.None?
      ensures written.None? ==> lastRequestId == old(lastRequestId)
      ensures config ==
        if written.Some? && sent && reply.Some? && C.ConfigReportOf(reply.value).Some?
        then Some(C.ConfigReportOf(reply.value).value.config) else old(config)
      ensures available.Some? && C.Acceptable(next, available.value) ==>
        && written == Some(Request(next, id)) && lastRequestId == id
        && o == (if sent && reply.Some? then Judge(next, id, C.ConfigReportOf(reply.value)) else Unreachable)
      ensures o.Applied? ==> config == Some(next)
      ensures lastSeq == old(lastSeq) && missed == old(missed)
    {
      written := None;
      var pins := Info(info);
      if pins.None? {
        return Unreachable, None;
      }
      var v := ValidatePinConfig(next, pins.value, id);
      if v.result != C.RESULT_OK {
        return Rejected(v.result, v.gpio, true), None;
      }
      lastRequestId := id;
      var payload := EncodePinConfigSet(next, id);
      written := Some(payload);
      if !sent {
        return Unreachable, written;
      }
      var report := GetPinConfig(reply);
      o := Judge(next, id, report);
    }

    /** Counts the reports the host did not read. A reply to a request repeats an old number. */
    method TrackSeq(s: Report)
      modifies this`lastSeq, this`missed
      ensures if HostRequest in s.reasons then lastSeq == old(lastSeq) && missed == old(missed)
              else lastSeq == Some(s.seqNo) && missed == old(missed) + WS.Missed(old(lastSeq), s.seqNo)
    {
      if HostRequest in s.reasons {
        return;
      }
      if lastSeq.Some? {
        missed := missed + (s.seqNo - lastSeq.value - 1) % 0x1_0000;
      }
      lastSeq := Some(s.seqNo);
    }
  }

  // ---- the device side of a write ----

  /** The payloads written during a run, by any process. */
  function Writes(acts: seq<Action>): seq<seq<byte>> {
    if acts == [] then []
    else
      var last := acts[|acts| - 1];
      Writes(acts[..|acts| - 1]) + (if last.Configure? then [last.payload] else [])
  }

  /** The configuration in force after some writes. */
  function ConfigAfter(config: PinConfig, writes: seq<seq<byte>>, available: set<nat>): PinConfig {
    if writes == [] then config
    else
      var p := writes[|writes| - 1];
      if C.VerdictOf(p, available).result != C.RESULT_OK then ConfigAfter(config, writes[..|writes| - 1], available)
      else C.AcceptedModes(p, available); C.ConfigIn(p)
  }

  ghost predicate Answers(cfg: Setup, v: C.Verdict) {
    cfg.result == v.result && cfg.resultGpio == v.gpio && cfg.requestId == v.requestId
  }

  lemma WriteEffect(s: State, p: seq<byte>, at: nat)
    requires Sized(s)
    ensures var cfg := SetPinConfig(s, p, at).cfg;
      && cfg.available == s.cfg.available && Answers(cfg, C.VerdictOf(p, s.cfg.available))
      && cfg.config == ConfigAfter(s.cfg.config, [p], s.cfg.available)
  {
    var v := C.VerdictOf(p, s.cfg.available);
    if v.result == C.RESULT_OK {
      C.AcceptedModes(p, s.cfg.available);
      var cfg := s.cfg.(result := v.result, resultGpio := v.gpio, requestId := v.requestId);
      AnswerKept(cfg, C.ConfigIn(p), at, 0);
    }
  }

  lemma {:induction false} AnswerKept(cfg: Setup, next: PinConfig, at: nat, n: nat)
    requires |cfg.hw| == GPIO_COUNT && n <= GPIO_COUNT
    ensures var cfg' := ApplyFrom(cfg, next, at, n);
      && cfg'.available == cfg.available
      && cfg'.result == cfg.result && cfg'.resultGpio == cfg.resultGpio && cfg'.requestId == cfg.requestId
    decreases GPIO_COUNT - n
  {
    if n < GPIO_COUNT {
      AnswerKept(ApplyPin(cfg, next, n, at), next, at, n + 1);
    }
  }

  lemma OtherStep(s: State, a: Action)
    requires Sized(s) && !a.Configure?
    ensures var cfg := Step(s, a).cfg;
      && ConfigReply(cfg) == ConfigReply(s.cfg) && cfg.available == s.cfg.available
  {
    match a
    case Resync(raw, at) => ResyncFrame(s, raw, at, 0);
    case Tick(raw, at) => PollFrame(SettleIfDue(s, raw, at), at, 0);
    case _ =>
  }

  /** Over any run, the answer to a read is the verdict on the last write, and the configuration is the one
      of the last accepted write. */
  lemma {:induction false} LastWriteDecides(s: State, acts: seq<Action>)
    requires Sized(s)
    ensures var cfg, writes := Run(s, acts).cfg, Writes(acts);
      && cfg.available == s.cfg.available
      && cfg.config == ConfigAfter(s.cfg.config, writes, s.cfg.available)
      && (if writes == [] then ConfigReply(cfg) == ConfigReply(s.cfg)
          else Answers(cfg, C.VerdictOf(writes[|writes| - 1], s.cfg.available)))
  {
    if acts != [] {
      var before, last := acts[..|acts| - 1], acts[|acts| - 1];
      var s1 := Run(s, before);
      LastWriteDecides(s, before);
      if last.Configure? {
        WriteEffect(s1, last.payload, last.at);
        assert Writes(acts)[..|Writes(acts)| - 1] == Writes(before);
      } else {
        OtherStep(s1, last);
        assert Writes(acts) == Writes(before);
      }
    }
  }

  /** What the host concludes when it reads back the configuration after its write and after others' acts. */
  function Concluded(s: State, config: PinConfig, id: byte, at: u64, others: seq<Action>): Outcome
    requires Sized(s)
  {
    var s' := Run(SetPinConfig(s, Request(config, id), at), others);
    Judge(config, id, C.ConfigReportOf(C.ConfigBytes(ConfigReply(s'.cfg))))
  }

  /** The verdict on the last of the host's own write and the writes of others. */
  function LastVerdict(s: State, config: PinConfig, id: byte, others: seq<Action>): C.Verdict {
    var writes := [Request(config, id)] + Writes(others);
    C.VerdictOf(writes[|writes| - 1], s.cfg.available)
  }

  lemma AnswerIsLastVerdict(s: State, config: PinConfig, id: byte, at: u64, others: seq<Action>)
    requires Sized(s)
    ensures var s' := Run(SetPinConfig(s, Request(config, id), at), others);
      var v := LastVerdict(s, config, id, others);
      && Answers(s'.cfg, v)
      && Concluded(s, config, id, at, others) ==
           Judge(config, id, Some(C.PinConfigReport(v.result, v.gpio, v.requestId, s'.cfg.config)))
  {
    var s1 := SetPinConfig(s, Request(config, id), at);
    WriteEffect(s, Request(config, id), at);
    LastWriteDecides(s1, others);
    C.ConfigRoundTrip(ConfigReply(Run(s1, others).cfg));
  }

  /** The host is told "applied" exactly when the last write the device processed carries the host's id and
      was accepted and the configuration in force is the host's; it reports a conflict exactly when the last
      write carries another id. */
  lemma WriteOutcome(s: State, config: PinConfig, id: byte, at: u64, others: seq<Action>)
    requires Sized(s)
    ensures var o, v := Concluded(s, config, id, at, others), LastVerdict(s, config, id, others);
      var now := Run(SetPinConfig(s, Request(config, id), at), others).cfg.config;
      && (o.Applied? <==> v.requestId == id && v.result == C.RESULT_OK && now == config)
      && (o.Conflict? <==> v.requestId != id)
      && (o.Rejected? <==> v.requestId == id && v.result != C.RESULT_OK)
  {
    AnswerIsLastVerdict(s, config, id, at, others);
  }

  /** With no other writer, a configuration is applied exactly when it suits the board, and the refusal of
      any other names the same pin and fault as the host's own validation. Never is there a conflict. */
  lemma LoneWriter(s: State, config: PinConfig, id: byte, at: u64, others: seq<Action>)
    requires Sized(s) && Writes(others) == []
    ensures var o := Concluded(s, config, id, at, others);
      var v := C.VerdictOf(Request(config, id), s.cfg.available);
      var now := Run(SetPinConfig(s, Request(config, id), at), others).cfg.config;
      if C.Acceptable(config, s.cfg.available)
      then o == Applied(C.PinConfigReport(C.RESULT_OK, C.GPIO_NONE, id, config)) && now == config
      else o == Rejected(v.result, v.gpio, false) && now == s.cfg.config
  {
    var p := Request(config, id);
    var s1 := SetPinConfig(s, p, at);
    AnswerIsLastVerdict(s, config, id, at, others);
    WriteEffect(s, p, at);
    LastWriteDecides(s1, others);
    C.AcceptedIffAcceptable(C.PinConfigReport(C.RESULT_OK, C.GPIO_NONE, id, config), s.cfg.available);
    C.ConfigRoundTrip(C.PinConfigReport(C.RESULT_OK, C.GPIO_NONE, id, config));
  }

  // ---- publication ----

  /** An accepted write is waiting for its settle to end, or has been published: a report with its masks and
      CONFIG_CHANGED has been committed since, or the next one will be. */
  ghost predicate OnItsWay(s0: State, s: State, at: nat) {
    && Sized(s) && s0.log.sent <= s.log.sent
    && if s.cfg.settleActive then
         && s.cfg.configChanged && s.cfg.settleDeadline == at + SETTLE_US
         && s.pub.monitored == s0.pub.monitored && s.pub.outputs == s0.pub.outputs
       else
         && s.pub.monitored == InputPins(s.cfg.config) && s.pub.outputs == OutputPins(s.cfg.config)
         && (ConfigChanged in s.tx.reasons || exists i :: |s0.log.sent| <= i < |s.log.sent| && Announces(s, i))
  }

  ghost predicate Announces(s: State, i: nat)
    requires i < |s.log.sent|
  {
    var r := s.log.sent[i].report;
    ConfigChanged in r.reasons && r.monitored == InputPins(s.cfg.config) && r.outputs == OutputPins(s.cfg.config)
  }

  lemma StepCarries(s0: State, s: State, at: nat, a: Action)
    requires OnItsWay(s0, s, at) && !a.Configure?
    ensures OnItsWay(s0, Step(s, a), at)
    ensures a.Tick? && a.at >= at + SETTLE_US ==> !Step(s, a).cfg.settleActive
    ensures !s.cfg.settleActive ==> !Step(s, a).cfg.settleActive
  {
    var s' := Step(s, a);
    OtherStep(s, a);
    match a
    case Resync(raw, t) => ResyncFrame(s, raw, t, 0); SameRecords(s0, s, s');
    case Tick(raw, t) => PollFrame(SettleIfDue(s, raw, t), t, 0); SameRecords(s0, s, s');
    case SendReport(t, handedOver) => SendCarries(s0, s, at, t, handedOver);
    case _ => SameRecords(s0, s, s');
  }

  lemma SameRecords(s0: State, s: State, s': State)
    requires s'.log.sent == s.log.sent && s'.cfg.config == s.cfg.config
    ensures (exists i :: |s0.log.sent| <= i < |s.log.sent| && Announces(s, i)) ==>
              exists i :: |s0.log.sent| <= i < |s'.log.sent| && Announces(s', i)
  {
    if i :| |s0.log.sent| <= i < |s.log.sent| && Announces(s, i) {
      assert Announces(s', i);
    }
  }

  lemma SendCarries(s0: State, s: State, at: nat, t: u64, handedOver: bool)
    requires OnItsWay(s0, s, at)
    ensures OnItsWay(s0, Send(s, t, handedOver), at)
  {
    var s' := Send(s, t, handedOver);
    if handedOver && !NothingToSend(s) && !s.cfg.settleActive {
      if ConfigChanged in s.tx.reasons {
        assert Announces(s', |s.log.sent|);
      } else {
        var i :| |s0.log.sent| <= i < |s.log.sent| && Announces(s, i);
        assert Announces(s', i);
      }
    } else if !handedOver || NothingToSend(s) {
      SameRecords(s0, s, s');
    }
  }

  lemma WriteStarts(s: State, config: PinConfig, id: byte, at: u64)
    requires Sized(s) && C.Acceptable(config, s.cfg.available) && config != s.cfg.config
    ensures var s' := SetPinConfig(s, Request(config, id), at);
      OnItsWay(s, s', at) && s'.cfg.config == config && s'.cfg.settleActive
  {
    var r := C.PinConfigReport(C.RESULT_OK, C.GPIO_NONE, id, config);
    C.AcceptedIffAcceptable(r, s.cfg.available);
    C.ConfigRoundTrip(r);
  }

  ghost predicate TickedAt(acts: seq<Action>, deadline: nat) {
    exists i :: 0 <= i < |acts| && acts[i].Tick? && acts[i].at >= deadline
  }

  /** The first tick 1000 us after an accepted write that changes something publishes it, whatever else
      happens meanwhile: until then the masks stay, from then on they are the written ones, and a report
      that carries them announces the change. */
  lemma {:induction false} WriteIsPublished(s: State, config: PinConfig, id: byte, at: u64, others: seq<Action>)
    requires Sized(s) && C.Acceptable(config, s.cfg.available) && config != s.cfg.config
    requires Writes(others) == []
    ensures var s' := Run(SetPinConfig(s, Request(config, id), at), others);
      && OnItsWay(s, s', at) && s'.cfg.config == config
      && (TickedAt(others, at + SETTLE_US) ==> !s'.cfg.settleActive)
  {
    if others == [] {
      WriteStarts(s, config, id, at);
    } else {
      var before, last := others[..|others| - 1], others[|others| - 1];
      var s1 := Run(SetPinConfig(s, Request(config, id), at), before);
      WriteIsPublished(s, config, id, at, before);
      OtherStep(s1, last);
      StepCarries(s, s1, at, last);
      if TickedAt(others, at + SETTLE_US) && !(last.Tick? && last.at >= at + SETTLE_US) {
        TickedBefore(others, at + SETTLE_US);
      }
    }
  }

  lemma TickedBefore(acts: seq<Action>, deadline: nat)
    requires acts != [] && TickedAt(acts, deadline) && !TickedAt([acts[|acts| - 1]], deadline)
    ensures TickedAt(acts[..|acts| - 1], deadline)
  {
    var i :| 0 <= i < |acts| && acts[i].Tick? && acts[i].at >= deadline;
    assert [acts[|acts| - 1]][0] == acts[|acts| - 1];
    assert acts[..|acts| - 1][i] == acts[i];
  }
}
