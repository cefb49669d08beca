/** The pin configuration report (section 6 of docs/PROTOCOL.md): its bytes, the validation of a
    write on the device and on the host, and the host's decoder. */
module PinConfigCodec {
  import opened Protocol

  const ENTRIES_OFFSET := 3
  const GPIO_NONE: byte := 0xFF

  const RESULT_OK: byte := 0
  const BAD_LENGTH: byte := 1
  const BAD_MODE: byte := 2
  const UNAVAILABLE_GPIO: byte := 3
  const UNUSED_WITH_PARAM: byte := 4
  const BAD_OUTPUT_LEVEL: byte := 5

  datatype Verdict = Verdict(result: byte, gpio: byte, requestId: byte)

  datatype PinConfigReport = PinConfigReport(result: byte, resultGpio: byte, requestId: byte, config: PinConfig)

  function ModeByte(m: PinMode): byte {
    match m
    case Unused => 0
    case InputNoPull => 1
    case InputPullUp => 2
    case InputPullDown => 3
    case Output => 4
  }

  function ModeOf(b: byte): PinMode
    requires b <= 4
  {
    if b == 0 then Unused else if b == 1 then InputNoPull else if b == 2 then InputPullUp
    else if b == 3 then InputPullDown else PinMode.Output
  }

  function ModeAt(p: seq<byte>, n: nat): byte
    requires |p| == PAYLOAD_LEN && n < GPIO_COUNT
  {
    p[ENTRIES_OFFSET + 2 * n]
  }

  function ParamAt(p: seq<byte>, n: nat): byte
    requires |p| == PAYLOAD_LEN && n < GPIO_COUNT
  {
    p[ENTRIES_OFFSET + 2 * n + 1]
  }

  // ---- what makes a configuration acceptable ----

  predicate SettingOk(s: PinSetting, available: bool) {
    && (!available ==> s.mode.Unused?)
    && (s.mode.Unused? ==> s.param == 0)
    && (s.mode.Output? ==> s.param <= 1)
  }

  ghost predicate Acceptable(c: PinConfig, available: set<nat>) {
    forall n :: 0 <= n < GPIO_COUNT ==> SettingOk(c[n], n in available)
  }

  /** The first check that pin n of a payload fails, or RESULT_OK. */
  function PinFault(p: seq<byte>, available: set<nat>, n: nat): byte
    requires |p| == PAYLOAD_LEN && n < GPIO_COUNT
  {
    if ModeAt(p, n) > 4 then BAD_MODE
    else if n !in available && ModeAt(p, n) != 0 then UNAVAILABLE_GPIO
    else if ModeAt(p, n) == 0 && ParamAt(p, n) != 0 then UNUSED_WITH_PARAM
    else if ModeAt(p, n) == 4 && ParamAt(p, n) > 1 then BAD_OUTPUT_LEVEL
    else RESULT_OK
  }

  /** The verdict of section 6.3: the lowest offending pin and its first failed check. */
  ghost predicate IsVerdict(p: seq<byte>, available: set<nat>, v: Verdict) {
    && v.requestId == (if |p| >= 3 then p[2] else 0)
    && if |p| != PAYLOAD_LEN then v.result == BAD_LENGTH && v.gpio == GPIO_NONE
       else if v.result == RESULT_OK then
         v.gpio == GPIO_NONE && forall n :: 0 <= n < GPIO_COUNT ==> PinFault(p, available, n) == RESULT_OK
       else
         && v.gpio < GPIO_COUNT && v.result == PinFault(p, available, v.gpio)
         && forall n :: 0 <= n < v.gpio ==> PinFault(p, available, n) == RESULT_OK
  }

  /** Any two validators that meet the verdict's description return the same answer. */
  lemma VerdictIsUnique(p: seq<byte>, available: set<nat>, v: Verdict, w: Verdict)
    requires IsVerdict(p, available, v) && IsVerdict(p, available, w)
    ensures v == w
  {
  }

  function VerdictFrom(p: seq<byte>, available: set<nat>, n: nat): (v: Verdict)
    requires |p| == PAYLOAD_LEN && n <= GPIO_COUNT
    requires forall m :: 0 <= m < n ==> PinFault(p, available, m) == RESULT_OK
    ensures IsVerdict(p, available, v)
    decreases GPIO_COUNT - n
  {
    if n == GPIO_COUNT then Verdict(RESULT_OK, GPIO_NONE, p[2])
    else if PinFault(p, available, n) != RESULT_OK then Verdict(PinFault(p, available, n), n, p[2])
    else VerdictFrom(p, available, n + 1)
  }

  function VerdictOf(p: seq<byte>, available: set<nat>): (v: Verdict)
    ensures IsVerdict(p, available, v)
  {
    if |p| != PAYLOAD_LEN then Verdict(BAD_LENGTH, GPIO_NONE, if |p| >= 3 then p[2] else 0)
    else VerdictFrom(p, available, 0)
  }

  function SettingAt(p: seq<byte>, n: nat): PinSetting
    requires |p| == PAYLOAD_LEN && n < GPIO_COUNT && ModeAt(p, n) <= 4
  {
    PinSetting(ModeOf(ModeAt(p, n)), ParamAt(p, n))
  }

  /** The configuration in a payload whose modes are all defined. */
  function ConfigIn(p: seq<byte>): PinConfig
    requires |p| == PAYLOAD_LEN && forall n :: 0 <= n < GPIO_COUNT ==> ModeAt(p, n) <= 4
  {
    seq(GPIO_COUNT, n requires 0 <= n < GPIO_COUNT => SettingAt(p, n))
  }

  lemma AcceptedModes(p: seq<byte>, available: set<nat>)
    requires VerdictOf(p, available).result == RESULT_OK
    ensures |p| == PAYLOAD_LEN
    ensures forall n :: 0 <= n < GPIO_COUNT ==> ModeAt(p, n) <= 4
    ensures Acceptable(ConfigIn(p), available)
  {
    forall n | 0 <= n < GPIO_COUNT ensures ModeAt(p, n) <= 4 && SettingOk(SettingAt(p, n), n in available) {
      assert PinFault(p, available, n) == RESULT_OK;
    }
  }

  /** The device's validation of a write. config is replaced only when the write is accepted. */
  method DecodeSet(p: seq<byte>, available: set<nat>, config: PinConfig) returns (v: Verdict, next: PinConfig)
    ensures v == VerdictOf(p, available)
    ensures v.result != RESULT_OK ==> next == config
    ensures v.result == RESULT_OK ==> |p| == PAYLOAD_LEN
    ensures v.result == RESULT_OK ==>
      forall n :: 0 <= n < GPIO_COUNT ==> ModeAt(p, n) <= 4 && next[n] == SettingAt(p, n)
  {
    next := config;
    var requestId: byte := if |p| >= 3 then p[2] else 0;
    if |p| != PAYLOAD_LEN {
      v := Verdict(BAD_LENGTH, GPIO_NONE, requestId);
      VerdictIsUnique(p, available, v, VerdictOf(p, available));
      return;
    }
    var parsed: seq<PinSetting> := [];
    var n := 0;
    while n < GPIO_COUNT
      invariant n <= GPIO_COUNT && |parsed| == n
      invariant forall m :: 0 <= m < n ==>
        PinFault(p, available, m) == RESULT_OK && ModeAt(p, m) <= 4 && parsed[m] == SettingAt(p, m)
    {
      var mode, param := p[ENTRIES_OFFSET + 2 * n], p[ENTRIES_OFFSET + 2 * n + 1];
      var result := RESULT_OK;
      if mode > 4 {
        result := BAD_MODE;
      } else if n !in available && mode != 0 {
        result := UNAVAILABLE_GPIO;
      } else if mode == 0 && param != 0 {
        result := UNUSED_WITH_PARAM;
      } else if mode == 4 && param > 1 {
        result := BAD_OUTPUT_LEVEL;
      }
      if result != RESULT_OK {
        v := Verdict(result, n, requestId);
        VerdictIsUnique(p, available, v, VerdictOf(p, available));
        return;
      }
      parsed := parsed + [PinSetting(ModeOf(mode), param)];
      n := n + 1;
    }
    v := Verdict(RESULT_OK, GPIO_NONE, requestId);
    VerdictIsUnique(p, available, v, VerdictOf(p, available));
    next := parsed;
  }

  /** The host's copy of the device's validation. */
  method ValidatePayload(p: seq<byte>, available: set<nat>) returns (v: Verdict)
    ensures v == VerdictOf(p, available)
  {
    var requestId: byte := 0;
    if |p| >= 3 {
      requestId := p[2];
    }
    if |p| != PAYLOAD_LEN {
      v := Verdict(BAD_LENGTH, GPIO_NONE, requestId);
      VerdictIsUnique(p, available, v, VerdictOf(p, available));
      return;
    }
    for n := 0 to GPIO_COUNT
      invariant forall m :: 0 <= m < n ==> PinFault(p, available, m) == RESULT_OK
    {
      var mode, param := p[ENTRIES_OFFSET + 2 * n], p[ENTRIES_OFFSET + 2 * n + 1];
      var result := RESULT_OK;
      if mode > 4 {
        result := BAD_MODE;
      } else if n !in available && mode != 0 {
        result := UNAVAILABLE_GPIO;
      } else if mode == 0 && param != 0 {
        result := UNUSED_WITH_PARAM;
      } else if mode == 4 && param > 1 {
        result := BAD_OUTPUT_LEVEL;
      }
      if result != RESULT_OK {
        v := Verdict(result, n, requestId);
        VerdictIsUnique(p, available, v, VerdictOf(p, available));
        return;
      }
    }
    v := Verdict(RESULT_OK, GPIO_NONE, requestId);
    VerdictIsUnique(p, available, v, VerdictOf(p, available));
  }

  // ---- encoding and decoding ----

  function ConfigByte(r: PinConfigReport, i: nat): byte
    requires i < PAYLOAD_LEN
  {
    if i == 0 then r.result else if i == 1 then r.resultGpio else if i == 2 then r.requestId
    else if i % 2 == 1 then ModeByte(r.config[(i - ENTRIES_OFFSET) / 2].mode)
    else r.config[(i - ENTRIES_OFFSET) / 2].param
  }

  function ConfigBytes(r: PinConfigReport): seq<byte> {
    seq(PAYLOAD_LEN, i requires 0 <= i < PAYLOAD_LEN => ConfigByte(r, i))
  }

  method EncodePinConfig(r: PinConfigReport, out: array<byte>)
    requires out.Length == PAYLOAD_LEN
    modifies out
    ensures out[..] == ConfigBytes(r)
  {
    out[0], out[1], out[2] := r.result, r.resultGpio, r.requestId;
    for n := 0 to GPIO_COUNT
      invariant forall i :: 0 <= i < ENTRIES_OFFSET + 2 * n ==> out[i] == ConfigByte(r, i)
    {
      out[ENTRIES_OFFSET + 2 * n] := ModeByte(r.config[n].mode);
      out[ENTRIES_OFFSET + 2 * n + 1] := r.config[n].param;
    }
  }

  /** The host's decoder: None for a wrong length or an undefined mode. */
  function ConfigReportOf(p: seq<byte>): Option<PinConfigReport> {
    if |p| == PAYLOAD_LEN && forall n :: 0 <= n < GPIO_COUNT ==> ModeAt(p, n) <= 4
    then Some(PinConfigReport(p[0], p[1], p[2], ConfigIn(p)))
    else None
  }

  method DecodePinConfig(p: seq<byte>) returns (r: Option<PinConfigReport>)
    ensures r == ConfigReportOf(p)
  {
    if |p| != PAYLOAD_LEN {
      return None;
    }
    var config: seq<PinSetting> := [];
    for n := 0 to GPIO_COUNT
      invariant |config| == n
      invariant forall m :: 0 <= m < n ==> ModeAt(p, m) <= 4 && config[m] == SettingAt(p, m)
    {
      var mode := p[ENTRIES_OFFSET + 2 * n];
      if mode > 4 {
        assert ModeAt(p, n) > 4;
        return None;
      }
      config := config + [PinSetting(ModeOf(mode), p[ENTRIES_OFFSET + 2 * n + 1])];
    }
    assert config == ConfigIn(p);
    r := Some(PinConfigReport(p[0], p[1], p[2], config));
  }

  lemma EntryBytes(r: PinConfigReport, n: nat)
    requires n < GPIO_COUNT
    ensures ModeAt(ConfigBytes(r), n) == ModeByte(r.config[n].mode)
    ensures ParamAt(ConfigBytes(r), n) == r.config[n].param
  {
    assert (ENTRIES_OFFSET + 2 * n) % 2 == 1 && (ENTRIES_OFFSET + 2 * n + 1) % 2 == 0;
  }

  /** The host reads back exactly the report the device encoded. */
  lemma ConfigRoundTrip(r: PinConfigReport)
    ensures ConfigReportOf(ConfigBytes(r)) == Some(r)
  {
    var p := ConfigBytes(r);
    forall n | 0 <= n < GPIO_COUNT ensures ModeAt(p, n) <= 4 && SettingAt(p, n) == r.config[n] {
      EntryBytes(r, n);
    }
    assert ConfigIn(p) == r.config;
  }

  /** An accepted payload and the encoding of what was accepted carry the same mode and param bytes. */
  lemma AcceptedReencodes(p: seq<byte>, available: set<nat>, r: PinConfigReport)
    requires VerdictOf(p, available).result == RESULT_OK
    requires |p| == PAYLOAD_LEN && forall n :: 0 <= n < GPIO_COUNT ==> ModeAt(p, n) <= 4
    requires r.config == ConfigIn(p)
    ensures ConfigBytes(r)[ENTRIES_OFFSET..] == p[ENTRIES_OFFSET..]
  {
    forall i | ENTRIES_OFFSET <= i < PAYLOAD_LEN ensures ConfigBytes(r)[i] == p[i] {
      var n := (i - ENTRIES_OFFSET) / 2;
      EntryBytes(r, n);
      assert i == ENTRIES_OFFSET + 2 * n || i == ENTRIES_OFFSET + 2 * n + 1;
    }
  }

  /** A write is accepted exactly when its configuration suits the board. */
  lemma AcceptedIffAcceptable(r: PinConfigReport, available: set<nat>)
    ensures VerdictOf(ConfigBytes(r), available).result == RESULT_OK <==> Acceptable(r.config, available)
    ensures VerdictOf(ConfigBytes(r), available).requestId == r.requestId
  {
    var p := ConfigBytes(r);
    ConfigRoundTrip(r);
    if VerdictOf(p, available).result == RESULT_OK {
      AcceptedModes(p, available);
    }
    if Acceptable(r.config, available) {
      forall n | 0 <= n < GPIO_COUNT ensures PinFault(p, available, n) == RESULT_OK {
        EntryBytes(r, n);
        assert SettingOk(r.config[n], n in available);
      }
    }
  }
}
