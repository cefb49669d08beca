/** The 63-byte status report (section 4 of docs/PROTOCOL.md): the firmware's encoder fills a byte
    array in place, the host's decoder reads a byte slice. Both are proved against one byte layout. */
module StatusCodec {
  import opened Protocol

  /** A status report with its fields as the integers that travel on the wire. */
  datatype WireStatus = WireStatus(
    seqNo: u16, reason: byte, flags: byte, monitored: u32, outputs: u32, levels: u32,
    timestamp: u64, events: seq<WireEvent>)

  const EVENTS_OFFSET := 28
  const EVENT_LEN := 5

  // ---- little-endian integers ----

  /** v >> (8 * i) */
  function Shr8(v: nat, i: nat): nat {
    if i == 0 then v else Shr8(v / 0x100, i - 1)
  }

  function Pow256(k: nat): (r: nat)
    ensures r >= 1
  {
    if k == 0 then 1 else 0x100 * Pow256(k - 1)
  }

  function LeBytes(v: nat, k: nat): (bs: seq<byte>)
    ensures |bs| == k
  {
    if k == 0 then [] else [v % 0x100] + LeBytes(v / 0x100, k - 1)
  }

  function LeValue(bs: seq<byte>): (v: nat)
    ensures v < Pow256(|bs|)
  {
    if bs == [] then 0 else bs[0] + 0x100 * LeValue(bs[1..])
  }

  lemma {:induction false} LeRoundTrip(v: nat, k: nat)
    requires v < Pow256(k)
    ensures LeValue(LeBytes(v, k)) == v
  {
    if k > 0 {
      LeRoundTrip(v / 0x100, k - 1);
      assert LeBytes(v, k)[1..] == LeBytes(v / 0x100, k - 1);
    }
  }

  lemma {:induction false} LeByteAt(v: nat, k: nat, i: nat)
    requires i < k
    ensures LeBytes(v, k)[i] == Shr8(v, i) % 0x100
  {
    if i > 0 {
      LeByteAt(v / 0x100, k - 1, i - 1);
    }
  }

  /** p[at + i] = (uint8_t)(v >> (8 * i)) for the k bytes of v */
  method PutLe(out: array<byte>, at: nat, v: nat, k: nat)
    requires at + k <= out.Length
    modifies out
    ensures out[at..at + k] == LeBytes(v, k)
    ensures forall j :: 0 <= j < out.Length && !(at <= j < at + k) ==> out[j] == old(out[j])
  {
    var i := 0;
    while i < k
      invariant i <= k
      invariant forall j :: 0 <= j < i ==> out[at + j] == LeBytes(v, k)[j]
      invariant forall j :: 0 <= j < out.Length && !(at <= j < at + i) ==> out[j] == old(out[j])
    {
      LeByteAt(v, k, i);
      out[at + i] := Shr8(v, i) % 0x100;
      i := i + 1;
    }
  }

  // ---- layout ----

  function PinByte(e: WireEvent): byte {
    e.gpio % 0x20 + if e.level then 0x80 else 0
  }

  function EventByte(e: WireEvent, o: nat): byte
    requires o < EVENT_LEN
  {
    if o == 0 then PinByte(e) else LeBytes(e.age, 4)[o - 1]
  }

  /** The byte at offset i of the payload of s. */
  function StatusByte(s: WireStatus, i: nat): byte
    requires i < PAYLOAD_LEN
  {
    if i < 2 then LeBytes(s.seqNo, 2)[i]
    else if i == 2 then s.reason
    else if i == 3 then s.flags
    else if i == 4 then if |s.events| > EVENTS_PER_REPORT then EVENTS_PER_REPORT else |s.events|
    else if i < 8 then 0
    else if i < 12 then LeBytes(s.monitored, 4)[i - 8]
    else if i < 16 then LeBytes(s.outputs, 4)[i - 12]
    else if i < 20 then LeBytes(s.levels, 4)[i - 16]
    else if i < 28 then LeBytes(s.timestamp, 8)[i - 20]
    else
      var k, o := (i - EVENTS_OFFSET) / EVENT_LEN, (i - EVENTS_OFFSET) % EVENT_LEN;
      if k >= |s.events| then 0 else EventByte(s.events[k], o)
  }

  function StatusBytes(s: WireStatus): seq<byte> {
    seq(PAYLOAD_LEN, i requires 0 <= i < PAYLOAD_LEN => StatusByte(s, i))
  }

  /** Writes event n at its offset; everything else stays. */
  method PutEvent(e: WireEvent, n: nat, out: array<byte>)
    requires out.Length == PAYLOAD_LEN && n < EVENTS_PER_REPORT
    modifies out
    ensures forall i :: 0 <= i < PAYLOAD_LEN ==>
      var o := i - (EVENTS_OFFSET + EVENT_LEN * n);
      out[i] == if 0 <= o < EVENT_LEN then EventByte(e, o) else old(out[i])
  {
    var at := EVENTS_OFFSET + EVENT_LEN * n;
    out[at] := PinByte(e);
    PutLe(out, at + 1, e.age, 4);
    assert forall i :: at + 1 <= i < at + 5 ==> out[i] == out[at + 1..at + 5][i - at - 1];
  }

  /** Everything before the events; the rest is cleared. */
  method PutHeader(s: WireStatus, out: array<byte>)
    requires out.Length == PAYLOAD_LEN
    modifies out
    ensures forall i :: 0 <= i < EVENTS_OFFSET ==> out[i] == StatusByte(s, i)
    ensures forall i :: EVENTS_OFFSET <= i < PAYLOAD_LEN ==> out[i] == 0
  {
    var j := 0;
    while j < PAYLOAD_LEN
      invariant j <= PAYLOAD_LEN
      invariant forall i :: 0 <= i < j ==> out[i] == 0
    {
      out[j] := 0;
      j := j + 1;
    }
    PutLe(out, 0, s.seqNo, 2);
    out[2], out[3] := s.reason, s.flags;
    out[4] := if |s.events| > EVENTS_PER_REPORT then EVENTS_PER_REPORT else |s.events|;
    assert out[0] == out[0..2][0] && out[1] == out[0..2][1];
    PutLe(out, 8, s.monitored, 4);
    assert forall i :: 8 <= i < 12 ==> out[i] == out[8..12][i - 8];
    PutLe(out, 12, s.outputs, 4);
    assert forall i :: 12 <= i < 16 ==> out[i] == out[12..16][i - 12];
    PutLe(out, 16, s.levels, 4);
    assert forall i :: 16 <= i < 20 ==> out[i] == out[16..20][i - 16];
    PutLe(out, 20, s.timestamp, 8);
    assert forall i :: 20 <= i < 28 ==> out[i] == out[20..28][i - 20];
  }

  method EncodeStatus(s: WireStatus, out: array<byte>)
    requires out.Length == PAYLOAD_LEN
    modifies out
    ensures out[..] == StatusBytes(s)
  {
    var count := if |s.events| > EVENTS_PER_REPORT then EVENTS_PER_REPORT else |s.events|;
    PutHeader(s, out);
    var n := 0;
    while n < count
      invariant n <= count
      invariant forall i :: 0 <= i < EVENTS_OFFSET + EVENT_LEN * n ==> out[i] == StatusByte(s, i)
      invariant forall i :: EVENTS_OFFSET + EVENT_LEN * n <= i < PAYLOAD_LEN ==> out[i] == 0
    {
      PutEvent(s.events[n], n, out);
      n := n + 1;
    }
  }

  // ---- decoding ----

  function EventAt(p: seq<byte>, k: nat): (e: WireEvent)
    requires |p| == PAYLOAD_LEN && k < EVENTS_PER_REPORT
  {
    var at := EVENTS_OFFSET + EVENT_LEN * k;
    assert Pow256(4) == 0x1_0000_0000;
    WireEvent(p[at] % 0x20, p[at] >= 0x80, LeValue(p[at + 1..at + 5]))
  }

  /** The report a payload stands for; None for a wrong length or more than 7 events. */
  function StatusOf(p: seq<byte>): Option<WireStatus> {
    if |p| != PAYLOAD_LEN || p[4] > EVENTS_PER_REPORT then None
    else
      assert Pow256(2) == 0x1_0000 && Pow256(4) == 0x1_0000_0000;
      assert Pow256(8) == 0x1_0000_0000_0000_0000;
      Some(WireStatus(
        LeValue(p[0..2]), p[2], p[3], LeValue(p[8..12]), LeValue(p[12..16]), LeValue(p[16..20]),
        LeValue(p[20..28]), seq(p[4], k requires 0 <= k < p[4] => EventAt(p, k))))
  }

  method DecodeStatus(p: seq<byte>) returns (r: Option<WireStatus>)
    ensures r == StatusOf(p)
  {
    if |p| != PAYLOAD_LEN {
      return None;
    }
    var count := p[4];
    if count > EVENTS_PER_REPORT {
      return None;
    }
    var events: seq<WireEvent> := [];
    var i := 0;
    while i < count
      invariant i <= count && |events| == i
      invariant forall k :: 0 <= k < i ==> events[k] == EventAt(p, k)
    {
      events := events + [EventAt(p, i)];
      i := i + 1;
    }
    assert events == seq(p[4], k requires 0 <= k < p[4] => EventAt(p, k));
    assert Pow256(8) == 0x1_0000_0000_0000_0000;
    r := Some(WireStatus(
      LeValue(p[0..2]), p[2], p[3], LeValue(p[8..12]), LeValue(p[12..16]), LeValue(p[16..20]),
      LeValue(p[20..28]), events));
  }

  lemma EventBytesAt(s: WireStatus, k: nat, o: nat)
    requires k < |s.events| <= EVENTS_PER_REPORT && o < EVENT_LEN
    ensures StatusBytes(s)[EVENTS_OFFSET + EVENT_LEN * k + o] == EventByte(s.events[k], o)
  {
    assert (EVENT_LEN * k + o) / EVENT_LEN == k && (EVENT_LEN * k + o) % EVENT_LEN == o;
  }

  lemma EventSlice(s: WireStatus, k: nat)
    requires k < |s.events| <= EVENTS_PER_REPORT
    ensures var p, at := StatusBytes(s), EVENTS_OFFSET + EVENT_LEN * k;
      p[at] == PinByte(s.events[k]) && p[at + 1..at + 5] == LeBytes(s.events[k].age, 4)
  {
    var p, at, bytes := StatusBytes(s), EVENTS_OFFSET + EVENT_LEN * k, LeBytes(s.events[k].age, 4);
    EventBytesAt(s, k, 0);
    forall i | 0 <= i < 4 ensures p[at + 1..at + 5][i] == bytes[i] {
      EventBytesAt(s, k, i + 1);
    }
  }

  lemma EventRoundTrip(s: WireStatus, k: nat)
    requires k < |s.events| <= EVENTS_PER_REPORT && s.events[k].gpio < 0x20
    ensures EventAt(StatusBytes(s), k) == s.events[k]
  {
    EventSlice(s, k);
    WordRoundTrip(s.events[k].age);
    PinByteRoundTrip(s.events[k]);
  }

  lemma PinByteRoundTrip(e: WireEvent)
    requires e.gpio < 0x20
    ensures PinByte(e) % 0x20 == e.gpio && (PinByte(e) >= 0x80 <==> e.level)
  {
  }

  lemma WordRoundTrip(v: u32)
    ensures LeValue(LeBytes(v, 4)) == v
  {
    assert Pow256(4) == 0x1_0000_0000;
    LeRoundTrip(v, 4);
  }

  /** Decoding what the firmware encoded gives back every field and every event. */
  lemma StatusRoundTrip(s: WireStatus)
    requires |s.events| <= EVENTS_PER_REPORT
    requires forall k :: 0 <= k < |s.events| ==> s.events[k].gpio < 0x20
    ensures StatusOf(StatusBytes(s)) == Some(s)
  {
    var p := StatusBytes(s);
    assert p[0..2] == LeBytes(s.seqNo, 2) && p[8..12] == LeBytes(s.monitored, 4);
    assert p[12..16] == LeBytes(s.outputs, 4) && p[16..20] == LeBytes(s.levels, 4);
    assert p[20..28] == LeBytes(s.timestamp, 8);
    assert Pow256(2) == 0x1_0000 && Pow256(4) == 0x1_0000_0000;
    assert Pow256(8) == 0x1_0000_0000_0000_0000;
    LeRoundTrip(s.seqNo, 2);
    LeRoundTrip(s.monitored, 4);
    LeRoundTrip(s.outputs, 4);
    LeRoundTrip(s.levels, 4);
    LeRoundTrip(s.timestamp, 8);
    forall k | 0 <= k < |s.events| ensures EventAt(p, k) == s.events[k] {
      EventRoundTrip(s, k);
    }
    assert StatusOf(p).value.events == s.events;
  }

  // ---- reports as the engine and the watcher see them ----

  function FlagByte(overflow: bool, more: bool): byte {
    (if overflow then 1 else 0) + (if more then 2 else 0)
  }

  function ToWire(r: Report): WireStatus {
    WireStatus(
      r.seqNo, ReasonByte(r.reasons), FlagByte(r.overflow, r.more),
      MaskOf(r.monitored), MaskOf(r.outputs), MaskOf(r.levels), r.timestamp, r.events)
  }

  function FromWire(s: WireStatus): Report {
    Report(
      s.seqNo, ReasonsOf(s.reason), HasBit(s.flags, 0), HasBit(s.flags, 1),
      PinsOf(s.monitored), PinsOf(s.outputs), PinsOf(s.levels), s.timestamp, s.events)
  }

  /** What the host makes of a payload. */
  function HostDecode(p: seq<byte>): Option<Report> {
    match StatusOf(p)
    case None => None
    case Some(s) => Some(FromWire(s))
  }

  function DeviceEncode(r: Report): seq<byte> {
    StatusBytes(ToWire(r))
  }

  lemma FlagsRoundTrip(overflow: bool, more: bool)
    ensures HasBit(FlagByte(overflow, more), 0) == overflow && HasBit(FlagByte(overflow, more), 1) == more
  {
  }

  /** Whatever report the engine assembles, the host decodes that very report. */
  lemma ReportRoundTrip(r: Report)
    requires WellFormed(r)
    ensures HostDecode(DeviceEncode(r)) == Some(r)
  {
    StatusRoundTrip(ToWire(r));
    FlagsRoundTrip(r.overflow, r.more);
    ReasonRoundTrip(r.reasons);
    PinsOfMask(r.monitored);
    PinsOfMask(r.outputs);
    PinsOfMask(r.levels);
  }

  // ---- output commands (section 7.1) ----

  const OUTPUT_LEN := 8

  /** The pins an output command selects and the levels it asks for; None for a wrong length. */
  function CommandOf(p: seq<byte>): Option<(set<nat>, set<nat>)> {
    if |p| != OUTPUT_LEN then None else Some((PinsOf(LeValue(p[0..4])), PinsOf(LeValue(p[4..8]))))
  }

  function CommandBytes(mask: u32, value: u32): seq<byte> {
    LeBytes(mask, 4) + LeBytes(value, 4)
  }

  /** The device takes from a command what the host put into it. */
  lemma CommandRoundTrip(mask: set<nat>, value: set<nat>)
    requires GpioSet(mask) && GpioSet(value)
    ensures CommandOf(CommandBytes(MaskOf(mask), MaskOf(value))) == Some((mask, value))
  {
    var p := CommandBytes(MaskOf(mask), MaskOf(value));
    assert p[0..4] == LeBytes(MaskOf(mask), 4) && p[4..8] == LeBytes(MaskOf(value), 4);
    WordRoundTrip(MaskOf(mask));
    WordRoundTrip(MaskOf(value));
    PinsOfMask(mask);
    PinsOfMask(value);
  }
}
