/** The vocabulary shared by the firmware and the host: GPIO masks, pin settings and status
    reports. A mask is a set of bit numbers here; MaskOf and HasBit tie it to the u32 on the wire. */
module Protocol {
  type byte = n: nat | n < 0x100
  type u16 = n: nat | n < 0x1_0000
  type u32 = n: nat | n < 0x1_0000_0000
  type u64 = n: nat | n < 0x1_0000_0000_0000_0000

  const GPIO_COUNT := 30
  const EVENTS_PER_REPORT := 7
  const PAYLOAD_LEN := 63
  const SATURATED_AGE: u32 := 0xFFFF_FFFF

  datatype Option<+T> = None | Some(value: T)

  // ---- pin configuration ----

  datatype PinMode = Unused | InputNoPull | InputPullUp | InputPullDown | Output

  predicate IsInput(m: PinMode) {
    m.InputNoPull? || m.InputPullUp? || m.InputPullDown?
  }

  datatype PinSetting = PinSetting(mode: PinMode, param: byte)

  type PinConfig = c: seq<PinSetting> | |c| == GPIO_COUNT
    witness seq(GPIO_COUNT, _ => PinSetting(Unused, 0))

  function InputPins(c: PinConfig): (s: set<nat>) {
    set n: nat | n < GPIO_COUNT && IsInput(c[n].mode)
  }

  function OutputPins(c: PinConfig): (s: set<nat>) {
    set n: nat | n < GPIO_COUNT && c[n].mode.Output?
  }

  // ---- status reports ----

  datatype Reason = LevelChanged | OutputApplied | ConfigChanged | Periodic | OutputReset | HostRequest

  /** An edge event as a report carries it: the age counts back from the report's timestamp. */
  datatype WireEvent = WireEvent(gpio: nat, level: bool, age: u32)

  datatype Report = Report(
    seqNo: u16, reasons: set<Reason>, overflow: bool, more: bool,
    monitored: set<nat>, outputs: set<nat>, levels: set<nat>,
    timestamp: u64, events: seq<WireEvent>)

  ghost predicate WellFormed(r: Report) {
    && GpioSet(r.monitored) && GpioSet(r.outputs) && GpioSet(r.levels)
    && |r.events| <= EVENTS_PER_REPORT
    && forall i :: 0 <= i < |r.events| ==> r.events[i].gpio < GPIO_COUNT
  }

  ghost predicate GpioSet(s: set<nat>) {
    forall n :: n in s ==> n < GPIO_COUNT
  }

  /** When the change began, or None when the age is saturated; u64 subtraction wraps. */
  function StartUs(e: WireEvent, timestamp: u64): Option<u64> {
    if e.age == SATURATED_AGE then None
    else Some((timestamp - e.age) % 0x1_0000_0000_0000_0000)
  }

  // ---- masks ----

  /** (v >> n) & 1 */
  predicate HasBit(v: nat, n: nat) {
    if n == 0 then v % 2 == 1 else HasBit(v / 2, n - 1)
  }

  function Pow2(k: nat): (r: nat)
    ensures r >= 1
  {
    if k == 0 then 1 else 2 * Pow2(k - 1)
  }

  /** The integer whose bit j is set exactly when i + j is in s, for i + j < k. */
  function MaskFrom(s: set<nat>, i: nat, k: nat): (v: nat)
    requires i <= k
    ensures v < Pow2(k - i)
    decreases k - i
  {
    if i == k then 0 else (if i in s then 1 else 0) + 2 * MaskFrom(s, i + 1, k)
  }

  function MaskOf(s: set<nat>): u32 {
    assert Pow2(8) == 0x100 && Pow2(16) == 0x1_0000 && Pow2(24) == 0x100_0000;
    assert Pow2(32) == 0x1_0000_0000;
    MaskFrom(s, 0, 32)
  }

  /** The GPIOs of a mask; bits 30 and 31 are not GPIOs. */
  function PinsOf(v: nat): set<nat> {
    set n: nat | n < GPIO_COUNT && HasBit(v, n)
  }

  lemma {:induction false} MaskBit(s: set<nat>, i: nat, k: nat, n: nat)
    requires i <= k
    ensures HasBit(MaskFrom(s, i, k), n) <==> i + n < k && i + n in s
    decreases k - i
  {
    var v := MaskFrom(s, i, k);
    if i == k {
      ZeroHasNoBits(n);
    } else {
      var rest := MaskFrom(s, i + 1, k);
      assert v / 2 == rest && (v % 2 == 1 <==> i in s);
      if n > 0 {
        MaskBit(s, i + 1, k, n - 1);
      }
    }
  }

  lemma {:induction false} ZeroHasNoBits(n: nat)
    ensures !HasBit(0, n)
  {
    if n > 0 {
      ZeroHasNoBits(n - 1);
    }
  }

  /** A set of GPIOs survives the trip through its u32 mask. */
  lemma {:induction false} PinsOfMask(s: set<nat>)
    requires GpioSet(s)
    ensures PinsOf(MaskOf(s)) == s
  {
    MaskBits(s, 32);
    PinsOfBits(MaskOf(s), s);
  }

  lemma {:induction false} MaskBits(s: set<nat>, k: nat)
    ensures forall n: nat :: n < k ==> (HasBit(MaskFrom(s, 0, k), n) <==> n in s)
  {
    forall n: nat | n < k ensures HasBit(MaskFrom(s, 0, k), n) <==> n in s {
      MaskBit(s, 0, k, n);
    }
  }

  lemma PinsOfBits(v: nat, s: set<nat>)
    requires GpioSet(s) && forall n: nat :: n < GPIO_COUNT ==> (HasBit(v, n) <==> n in s)
    ensures PinsOf(v) == s
  {
  }

  // ---- reason and flag bits ----

  function ReasonBit(r: Reason): (n: nat)
    ensures n < 8
  {
    match r
    case LevelChanged => 0
    case OutputApplied => 1
    case ConfigChanged => 2
    case Periodic => 3
    case OutputReset => 4
    case HostRequest => 7
  }

  function ReasonByte(s: set<Reason>): byte {
    assert Pow2(8) == 0x100;
    MaskFrom(set r | r in s :: ReasonBit(r), 0, 8)
  }

  /** Bits without a meaning in protocol version 1 are dropped. */
  function ReasonsOf(b: byte): set<Reason> {
    set r: Reason | HasBit(b, ReasonBit(r))
  }

  lemma ReasonRoundTrip(s: set<Reason>)
    ensures ReasonsOf(ReasonByte(s)) == s
  {
    forall r: Reason ensures HasBit(ReasonByte(s), ReasonBit(r)) <==> r in s {
      MaskBit(set q | q in s :: ReasonBit(q), 0, 8, ReasonBit(r));
    }
  }
}
