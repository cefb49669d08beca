/** In which order edge events reach the host. The queue holds them in the order they were confirmed;
    section 4.4 of docs/PROTOCOL.md promises the order in which the changes started. */
module EventOrder {
  import opened Protocol
  import opened EventQueue
  import opened EngineSpec
  import opened EngineInvariants
  import opened EngineTheorems
  import D = Debounce
  import C = PinConfigCodec

  // ---- runs in time order ----

  /** The actions that stamp changes. Ticks are not among them: a poll confirms a change with the stamp it
      was recorded with. */
  predicate Timed(a: Action) {
    a.Edge? || a.Resync? || a.Configure?
  }

  function Latest(from: nat, acts: seq<Action>): nat {
    if acts == [] then from
    else if Timed(acts[|acts| - 1]) then acts[|acts| - 1].at
    else Latest(from, acts[..|acts| - 1])
  }

  /** Edges, resynchronisations and writes come in the order of their times. */
  ghost predicate Chronological(from: nat, acts: seq<Action>) {
    acts == [] ||
    (var before, last := acts[..|acts| - 1], acts[|acts| - 1];
     Chronological(from, before) && (Timed(last) ==> Latest(from, before) <= last.at))
  }

  ghost predicate PinOrdered(q: seq<EdgeEvent>, from: nat) {
    forall i, j :: from <= i < j < |q| && q[i].gpio == q[j].gpio ==> q[i].start <= q[j].start
  }

  ghost predicate Ordered(q: seq<EdgeEvent>, from: nat) {
    forall i, j :: from <= i < j < |q| ==> q[i].start <= q[j].start
  }

  // ---- one pin ----

  /** The events from the k-th on are in order for each pin and began no later than clock; a change that waits
      for its confirmation began after the events of its pin. */
  ghost predicate StartInv(s: State, k: nat, clock: nat) {
    && Sized(s) && PinOrdered(s.fifo.accepted, k)
    && (forall n :: 0 <= n < GPIO_COUNT && s.deb[n].pending ==> s.deb[n].lastChange <= clock)
    && (forall i :: k <= i < |s.fifo.accepted| ==>
          var e := s.fifo.accepted[i];
          && e.gpio < GPIO_COUNT && e.start <= clock
          && (s.deb[e.gpio].pending ==> e.start <= s.deb[e.gpio].lastChange))
  }

  lemma ConfirmStarts(s: State, k: nat, clock: nat, n: nat, d: D.Deb, start: Option<nat>, at: nat)
    requires StartInv(s, k, clock) && n < GPIO_COUNT && k <= |s.fifo.accepted|
    requires clock <= at
    requires d.pending ==> start.None? && d.lastChange <= at && (d.lastChange == at || d == s.deb[n])
    requires start.Some? ==> start.value == at || (s.deb[n].pending && start.value == s.deb[n].lastChange)
    ensures StartInv(Confirm(s, n, d, start), k, at)
  {
  }

  lemma EdgeStarts(s: State, k: nat, clock: nat, n: nat, level: bool, at: nat)
    requires StartInv(s, k, clock) && k <= |s.fifo.accepted| && clock <= at
    ensures StartInv(OnEdge(s, n, level, at), k, at)
    ensures s.fifo.accepted <= OnEdge(s, n, level, at).fifo.accepted
  {
    if n < GPIO_COUNT && Tracking(s.cfg, s.pub, n) {
      var (d, start) := D.Edge(s.deb[n], level, at);
      ConfirmStarts(s, k, clock, n, d, start, at);
    }
  }

  lemma {:induction false} ResyncStarts(s: State, k: nat, clock: nat, raw: set<nat>, at: nat, n: nat)
    requires StartInv(s, k, clock) && k <= |s.fifo.accepted| && clock <= at && n <= GPIO_COUNT
    ensures StartInv(ResyncFrom(s, raw, at, n), k, at)
    ensures s.fifo.accepted <= ResyncFrom(s, raw, at, n).fifo.accepted
    decreases GPIO_COUNT - n
  {
    if n < GPIO_COUNT {
      if Tracking(s.cfg, s.pub, n) && (n in raw) != s.deb[n].raw {
        EdgeStarts(s, k, clock, n, n in raw, at);
        ResyncStarts(OnEdge(s, n, n in raw, at), k, at, raw, at, n + 1);
      } else {
        ResyncStarts(s, k, clock, raw, at, n + 1);
      }
    }
  }

  lemma {:induction false} PollStarts(s: State, k: nat, clock: nat, at: nat, n: nat)
    requires StartInv(s, k, clock) && k <= |s.fifo.accepted| && n <= GPIO_COUNT
    ensures StartInv(PollFrom(s, at, n), k, clock)
    ensures s.fifo.accepted <= PollFrom(s, at, n).fifo.accepted
    decreases GPIO_COUNT - n
  {
    if n < GPIO_COUNT {
      if Tracking(s.cfg, s.pub, n) {
        var (d, start) := D.Poll(s.deb[n], at);
        ConfirmStarts(s, k, clock, n, d, start, clock);
      }
      PollStarts(PollPin(s, n, at), k, clock, at, n + 1);
    }
  }

  lemma AdoptStarts(s: State, k: nat, clock: nat, next: PinConfig, at: nat)
    requires StartInv(s, k, clock) && clock <= at
    ensures StartInv(Adopt(s, next, at), k, at)
    ensures Adopt(s, next, at).fifo == s.fifo
  {
  }

  lemma WriteStarts(s: State, k: nat, clock: nat, p: seq<byte>, at: nat)
    requires StartInv(s, k, clock) && clock <= at
    ensures StartInv(SetPinConfig(s, p, at), k, at)
    ensures SetPinConfig(s, p, at).fifo == s.fifo
  {
    var v := C.VerdictOf(p, s.cfg.available);
    if v.result == C.RESULT_OK {
      C.AcceptedModes(p, s.cfg.available);
      AdoptStarts(s.(cfg := s.cfg.(result := v.result, resultGpio := v.gpio, requestId := v.requestId)),
                  k, clock, C.ConfigIn(p), at);
    }
  }

  lemma StepStarts(s: State, k: nat, clock: nat, a: Action)
    requires StartInv(s, k, clock) && k <= |s.fifo.accepted| && (Timed(a) ==> clock <= a.at)
    ensures StartInv(Step(s, a), k, if Timed(a) then a.at else clock)
    ensures s.fifo.accepted <= Step(s, a).fifo.accepted
  {
    match a
    case Edge(n, level, at) => EdgeStarts(s, k, clock, n, level, at);
    case Resync(raw, at) => ResyncStarts(s, k, clock, raw, at, 0);
    case Tick(raw, at) => PollStarts(SettleIfDue(s, raw, at), k, clock, at, 0);
    case Configure(p, at) => WriteStarts(s, k, clock, p, at);
    case _ => OtherStarts(s, k, clock, a);
  }

  lemma OtherStarts(s: State, k: nat, clock: nat, a: Action)
    requires StartInv(s, k, clock) && (a.Command? || a.Reset? || a.SendReport?)
    ensures StartInv(Step(s, a), k, clock)
    ensures Step(s, a).fifo.accepted == s.fifo.accepted
  {
  }

  lemma {:induction false} RunStarts(s: State, k: nat, clock: nat, acts: seq<Action>)
    requires StartInv(s, k, clock) && k <= |s.fifo.accepted| && Chronological(clock, acts)
    ensures StartInv(Run(s, acts), k, Latest(clock, acts))
    ensures s.fifo.accepted <= Run(s, acts).fifo.accepted
  {
    if acts != [] {
      var before := acts[..|acts| - 1];
      RunStarts(s, k, clock, before);
      StepStarts(Run(s, before), k, Latest(clock, before), acts[|acts| - 1]);
    }
  }

  /** The events of one pin leave the device in the order in which their changes started, whatever is
      reconfigured meanwhile. */
  lemma PinsInStartOrder(available: set<nat>, at: nat, acts: seq<Action>)
    requires Chronological(at, acts)
    ensures PinOrdered(Run(Init(available, at), acts).fifo.accepted, 0)
  {
    RunStarts(Init(available, at), 0, at, acts);
  }

  // ---- several pins ----

  /** Nothing is settling, queued or waiting for its confirmation, and the configuration is published. */
  ghost predicate Quiet(s: State) {
    && Sized(s) && !s.cfg.settleActive && s.cfg.settling == {} && s.fifo.queue == []
    && s.pub.monitored == InputPins(s.cfg.config)
    && forall n :: 0 <= n < GPIO_COUNT ==>
         && !s.deb[n].pending
         && (n in InputPins(s.cfg.config) ==> s.deb[n].debounceUs == s.cfg.config[n].param * 1000)
  }

  /** At most one pin is monitored, or none has a debounce time. */
  ghost predicate OneOrderOnly(c: PinConfig) {
    || (forall n, m :: n in InputPins(c) && m in InputPins(c) ==> n == m)
    || (forall n :: n in InputPins(c) ==> c[n].param == 0)
  }

  ghost predicate NoWrites(acts: seq<Action>) {
    forall i :: 0 <= i < |acts| ==> !acts[i].Configure?
  }

  /** However a run without configuration writes continues from s, its events come in the order of their
      starts. */
  ghost predicate AlwaysOrdered(s: State, clock: nat)
    requires Sized(s)
  {
    forall acts: seq<Action> :: Chronological(clock, acts) && NoWrites(acts) ==>
      Ordered(Run(s, acts).fifo.accepted, |s.fifo.accepted|)
  }

  /** Without writes and settles, what is monitored stays; only monitored pins have events; and pins without
      a debounce time never wait. */
  ghost predicate Steady(s: State, k: nat, c: PinConfig, clock: nat) {
    && Sized(s) && k <= |s.fifo.accepted|
    && s.cfg.config == c && !s.cfg.settleActive && s.cfg.settling == {} && s.pub.monitored == InputPins(c)
    && (forall n :: n in InputPins(c) ==> s.deb[n].debounceUs == c[n].param * 1000)
    && (forall i :: k <= i < |s.fifo.accepted| ==>
          s.fifo.accepted[i].gpio in InputPins(c) && s.fifo.accepted[i].start <= clock)
    && ((forall n :: n in InputPins(c) ==> c[n].param == 0) ==>
          Ordered(s.fifo.accepted, k) && forall n :: n in InputPins(c) ==> !s.deb[n].pending)
  }

  lemma EdgeSteady(s: State, k: nat, c: PinConfig, clock: nat, n: nat, level: bool, at: nat)
    requires Steady(s, k, c, clock) && clock <= at
    ensures Steady(OnEdge(s, n, level, at), k, c, at)
  {
  }

  lemma {:induction false} ResyncSteady(s: State, k: nat, c: PinConfig, clock: nat, raw: set<nat>, at: nat, n: nat)
    requires Steady(s, k, c, clock) && clock <= at && n <= GPIO_COUNT
    ensures Steady(ResyncFrom(s, raw, at, n), k, c, at)
    decreases GPIO_COUNT - n
  {
    if n < GPIO_COUNT {
      if Tracking(s.cfg, s.pub, n) && (n in raw) != s.deb[n].raw {
        EdgeSteady(s, k, c, clock, n, n in raw, at);
        ResyncSteady(OnEdge(s, n, n in raw, at), k, c, at, raw, at, n + 1);
      } else {
        ResyncSteady(s, k, c, clock, raw, at, n + 1);
      }
    }
  }

  lemma {:induction false} PollSteady(s: State, k: nat, c: PinConfig, clock: nat, at: nat, n: nat)
    requires Steady(s, k, c, clock) && StartInv(s, k, clock) && n <= GPIO_COUNT
    ensures Steady(PollFrom(s, at, n), k, c, clock)
    decreases GPIO_COUNT - n
  {
    if n < GPIO_COUNT {
      if Tracking(s.cfg, s.pub, n) {
        var (d, start) := D.Poll(s.deb[n], at);
        ConfirmStarts(s, k, clock, n, d, start, clock);
      }
      PollSteady(PollPin(s, n, at), k, c, clock, at, n + 1);
    }
  }

  lemma StepSteady(s: State, k: nat, c: PinConfig, clock: nat, a: Action)
    requires Steady(s, k, c, clock) && StartInv(s, k, clock) && !a.Configure? && (Timed(a) ==> clock <= a.at)
    ensures Steady(Step(s, a), k, c, if Timed(a) then a.at else clock)
  {
    match a
    case Edge(n, level, at) => EdgeSteady(s, k, c, clock, n, level, at);
    case Resync(raw, at) => ResyncSteady(s, k, c, clock, raw, at, 0);
    case Tick(raw, at) => PollSteady(s, k, c, clock, at, 0);
    case _ =>
  }

  lemma {:induction false} RunSteady(s: State, c: PinConfig, clock: nat, acts: seq<Action>)
    requires Steady(s, |s.fifo.accepted|, c, clock) && StartInv(s, |s.fifo.accepted|, clock)
    requires Chronological(clock, acts) && NoWrites(acts)
    ensures Steady(Run(s, acts), |s.fifo.accepted|, c, Latest(clock, acts))
  {
    if acts != [] {
      var before := acts[..|acts| - 1];
      RunSteady(s, c, clock, before);
      RunStarts(s, |s.fifo.accepted|, clock, before);
      StepSteady(Run(s, before), |s.fifo.accepted|, c, Latest(clock, before), acts[|acts| - 1]);
    }
  }

  lemma SafeRun(s: State, clock: nat, acts: seq<Action>)
    requires Quiet(s) && OneOrderOnly(s.cfg.config) && Chronological(clock, acts) && NoWrites(acts)
    ensures Ordered(Run(s, acts).fifo.accepted, |s.fifo.accepted|)
  {
    RunStarts(s, |s.fifo.accepted|, clock, acts);
    RunSteady(s, s.cfg.config, clock, acts);
  }

  // ---- two pins out of order ----

  lemma {:induction false} PollUntil(s: State, at: nat, n: nat, p: nat)
    requires Sized(s) && n <= p <= GPIO_COUNT
    requires forall m :: n <= m < p ==> !D.Due(s.deb[m], at)
    ensures PollFrom(s, at, n) == PollFrom(s, at, p)
    decreases p - n
  {
    if n < p {
      assert PollPin(s, n, at) == s by {
        assert s.deb[n := s.deb[n]] == s.deb;
      }
      PollUntil(s, at, n + 1, p);
    }
  }

  lemma {:induction false} PollGrows(s: State, at: nat, n: nat)
    requires Sized(s) && n <= GPIO_COUNT
    ensures s.fifo.accepted <= PollFrom(s, at, n).fifo.accepted
    decreases GPIO_COUNT - n
  {
    if n < GPIO_COUNT {
      PollGrows(PollPin(s, n, at), at, n + 1);
    }
  }

  /** A change on a pin at rest either waits for its debounce time or is confirmed at once. */
  lemma ChangeOf(s: State, n: nat, at: nat)
    requires Sized(s) && n < GPIO_COUNT && Tracking(s.cfg, s.pub, n)
    requires |s.fifo.queue| < QUEUE_SIZE
    ensures var s', d := OnEdge(s, n, !s.deb[n].confirmed, at), s.deb[n];
      && s'.cfg == s.cfg && s'.pub == s.pub
      && if d.debounceUs > 0
         then s' == s.(deb := s.deb[n := D.Deb(d.confirmed, !d.confirmed, true, at, d.debounceUs)])
         else s'.fifo.queue == s.fifo.queue + [EdgeEvent(n, !d.confirmed, at)]
              && s'.fifo.accepted == s.fifo.accepted + [EdgeEvent(n, !d.confirmed, at)]
              && s'.deb == s.deb[n := D.Deb(!d.confirmed, !d.confirmed, false, at, 0)]
  {
  }

  /** The poll of a pin whose debounce time is over queues its event. */
  lemma PollConfirms(s: State, n: nat, at: nat)
    requires Sized(s) && n < GPIO_COUNT && Tracking(s.cfg, s.pub, n) && D.Due(s.deb[n], at)
    requires |s.fifo.queue| < QUEUE_SIZE
    ensures var s', e := PollPin(s, n, at), EdgeEvent(n, s.deb[n].raw, s.deb[n].lastChange);
      && s'.cfg == s.cfg && s'.pub == s.pub
      && s'.fifo.accepted == s.fifo.accepted + [e] && s'.fifo.queue == s.fifo.queue + [e]
      && forall m :: 0 <= m < GPIO_COUNT && m != n ==> s'.deb[m] == s.deb[m]
  {
  }

  /** A tick that finds one pin due first queues that pin's event first. */
  lemma TickConfirms(s: State, at: u64, n: nat)
    requires Sized(s) && n < GPIO_COUNT && Tracking(s.cfg, s.pub, n) && D.Due(s.deb[n], at)
    requires |s.fifo.queue| < QUEUE_SIZE && !s.cfg.settleActive
    requires forall m :: 0 <= m < n ==> !D.Due(s.deb[m], at)
    ensures s.fifo.accepted + [EdgeEvent(n, s.deb[n].raw, s.deb[n].lastChange)] <= Task(s, {}, at).fifo.accepted
  {
    PollUntil(s, at, 0, n);
    PollConfirms(s, n, at);
    PollGrows(PollPin(s, n, at), at, n + 1);
  }

  /** A tick that finds two pins due queues them in the order of their numbers. */
  lemma TickConfirmsTwo(s: State, at: u64, lo: nat, hi: nat)
    requires Sized(s) && lo < hi < GPIO_COUNT && Tracking(s.cfg, s.pub, lo) && Tracking(s.cfg, s.pub, hi)
    requires s.fifo.queue == [] && !s.cfg.settleActive
    requires forall m :: 0 <= m < GPIO_COUNT ==> (D.Due(s.deb[m], at) <==> m == lo || m == hi)
    ensures s.fifo.accepted + [EdgeEvent(lo, s.deb[lo].raw, s.deb[lo].lastChange),
                               EdgeEvent(hi, s.deb[hi].raw, s.deb[hi].lastChange)] <= Task(s, {}, at).fifo.accepted
  {
    PollUntil(s, at, 0, lo);
    PollConfirms(s, lo, at);
    var s1 := PollPin(s, lo, at);
    PollUntil(s1, at, lo + 1, hi);
    PollConfirms(s1, hi, at);
    PollGrows(PollPin(s1, hi, at), at, hi + 1);
    InARow(s.fifo.accepted, EdgeEvent(lo, s.deb[lo].raw, s.deb[lo].lastChange),
           EdgeEvent(hi, s.deb[hi].raw, s.deb[hi].lastChange), Task(s, {}, at).fifo.accepted);
  }

  lemma InARow(before: seq<EdgeEvent>, first: EdgeEvent, second: EdgeEvent, q: seq<EdgeEvent>)
    requires before + [first] + [second] <= q
    ensures before + [first, second] <= q
  {
    assert before + [first, second] == before + [first] + [second];
  }

  lemma WrongWay(before: seq<EdgeEvent>, first: EdgeEvent, second: EdgeEvent, q: seq<EdgeEvent>)
    requires before + [first, second] <= q && first.start > second.start
    ensures !Ordered(q, |before|)
  {
    var k := |before|;
    assert q[k] == (before + [first, second])[k] == first;
    assert q[k + 1] == (before + [first, second])[k + 1] == second;
  }

  /** Pin a changes, then pin b. */
  function TwoChanges(s: State, a: nat, b: nat, at: nat): (s': State)
    requires Sized(s) && a < GPIO_COUNT && b < GPIO_COUNT
    ensures Sized(s')
  {
    OnEdge(OnEdge(s, a, !s.deb[a].confirmed, at), b, !s.deb[b].confirmed, at + 1)
  }

  /** The run that makes these two changes and then ticks. */
  function TwoChangesRun(s: State, a: nat, b: nat, at: u64, later: u64): seq<Action>
    requires Sized(s) && a < GPIO_COUNT && b < GPIO_COUNT && at + 1 < later
  {
    [Edge(a, !s.deb[a].confirmed, at), Edge(b, !s.deb[b].confirmed, at + 1), Tick({}, later)]
  }

  lemma RunSnoc(s: State, from: nat, acts: seq<Action>, a: Action)
    requires Sized(s)
    ensures Run(s, acts + [a]) == Step(Run(s, acts), a)
    ensures Chronological(from, acts + [a]) <==> Chronological(from, acts) && (Timed(a) ==> Latest(from, acts) <= a.at)
    ensures Latest(from, acts + [a]) == if Timed(a) then a.at else Latest(from, acts)
  {
    assert (acts + [a])[..|acts|] == acts;
  }

  lemma RunOfThree(s: State, from: nat, a: Action, b: Action, c: Action)
    requires Sized(s) && Timed(a) && Timed(b) && !Timed(c) && from <= a.at <= b.at
    ensures Run(s, [a, b, c]) == Step(Step(Step(s, a), b), c)
    ensures Chronological(from, [a, b, c])
  {
    assert [a, b, c] == [] + [a] + [b] + [c];
    RunSnoc(s, from, [], a);
    RunSnoc(s, from, [] + [a], b);
    RunSnoc(s, from, [] + [a] + [b], c);
  }

  lemma RunIsTwoChanges(s: State, a: nat, b: nat, at: u64, later: u64)
    requires Sized(s) && a < GPIO_COUNT && b < GPIO_COUNT && a != b && at + 1 < later
    ensures var acts := TwoChangesRun(s, a, b, at, later);
      && Run(s, acts) == Task(TwoChanges(s, a, b, at), {}, later)
      && Chronological(at, acts) && NoWrites(acts)
  {
    var acts := TwoChangesRun(s, a, b, at, later);
    RunOfThree(s, at, acts[0], acts[1], acts[2]);
  }

  /** The state after a change on pin a, then one on pin b, both with a debounce time. */
  lemma BothWait(s: State, a: nat, b: nat, at: nat)
    requires Quiet(s) && a in InputPins(s.cfg.config) && b in InputPins(s.cfg.config) && a != b
    requires s.cfg.config[a].param > 0 && s.cfg.config[b].param > 0
    ensures var s2 := TwoChanges(s, a, b, at);
      && s2.cfg == s.cfg && s2.pub == s.pub && s2.fifo == s.fifo
      && s2.deb[a].pending && s2.deb[a].lastChange == at && s2.deb[a].debounceUs <= 255_000
      && s2.deb[b].pending && s2.deb[b].lastChange == at + 1 && s2.deb[b].debounceUs <= 255_000
      && forall m :: 0 <= m < GPIO_COUNT && m != a && m != b ==> !s2.deb[m].pending
  {
    ChangeOf(s, a, at);
    ChangeOf(OnEdge(s, a, !s.deb[a].confirmed, at), b, at + 1);
  }

  /** The state after a change on pin a with a debounce time, then one on pin b without. */
  lemma SecondConfirmed(s: State, a: nat, b: nat, at: nat)
    requires Quiet(s) && a in InputPins(s.cfg.config) && b in InputPins(s.cfg.config) && a != b
    requires s.cfg.config[a].param > 0 && s.cfg.config[b].param == 0
    ensures var s2 := TwoChanges(s, a, b, at);
      && s2.cfg == s.cfg && s2.pub == s.pub && |s2.fifo.queue| == 1
      && s2.fifo.accepted == s.fifo.accepted + [EdgeEvent(b, !s.deb[b].confirmed, at + 1)]
      && s2.deb[a].pending && s2.deb[a].lastChange == at && s2.deb[a].debounceUs <= 255_000
      && forall m :: 0 <= m < GPIO_COUNT && m != a ==> !s2.deb[m].pending
  {
    ChangeOf(s, a, at);
    ChangeOf(OnEdge(s, a, !s.deb[a].confirmed, at), b, at + 1);
  }

  /** A pin with a debounce time changes, then one without: the later change is confirmed first. */
  lemma QuickOvertakes(s: State, at: u64, a: nat, b: nat, later: u64)
    requires Quiet(s) && a in InputPins(s.cfg.config) && b in InputPins(s.cfg.config) && a != b
    requires s.cfg.config[a].param > 0 && s.cfg.config[b].param == 0 && later == at + 1 + 255_000
    ensures !Ordered(Task(TwoChanges(s, a, b, at), {}, later).fifo.accepted, |s.fifo.accepted|)
  {
    SecondConfirmed(s, a, b, at);
    var s2 := TwoChanges(s, a, b, at);
    TickConfirms(s2, later, a);
    WrongWay(s.fifo.accepted, EdgeEvent(b, !s.deb[b].confirmed, at + 1), EdgeEvent(a, s2.deb[a].raw, at),
             Task(s2, {}, later).fifo.accepted);
  }

  /** Two pins with a debounce time change, the one with the higher number first, and one tick confirms
      both, in the order of their numbers. */
  lemma LowerOvertakes(s: State, at: u64, hi: nat, lo: nat, later: u64)
    requires Quiet(s) && lo in InputPins(s.cfg.config) && hi in InputPins(s.cfg.config) && lo < hi
    requires s.cfg.config[lo].param > 0 && s.cfg.config[hi].param > 0 && later == at + 1 + 255_000
    ensures !Ordered(Task(TwoChanges(s, hi, lo, at), {}, later).fifo.accepted, |s.fifo.accepted|)
  {
    BothWait(s, hi, lo, at);
    var s2 := TwoChanges(s, hi, lo, at);
    TickConfirmsTwo(s2, later, lo, hi);
    WrongWay(s.fifo.accepted, EdgeEvent(lo, s2.deb[lo].raw, at + 1), EdgeEvent(hi, s2.deb[hi].raw, at),
             Task(s2, {}, later).fifo.accepted);
  }

  /** With two monitored pins, one of them with a debounce time, some run puts their events out of order. */
  lemma Overtaking(s: State, clock: u64, p: nat, q: nat) returns (acts: seq<Action>)
    requires Quiet(s) && clock < 0x1_0000_0000_0000
    requires p in InputPins(s.cfg.config) && q in InputPins(s.cfg.config) && p != q && s.cfg.config[p].param > 0
    ensures Chronological(clock, acts) && NoWrites(acts)
    ensures !Ordered(Run(s, acts).fifo.accepted, |s.fifo.accepted|)
  {
    var later: u64 := clock + 1 + 255_000;
    var a, b := p, q;
    if s.cfg.config[q].param == 0 {
      QuickOvertakes(s, clock, p, q, later);
    } else {
      a, b := if p < q then q else p, if p < q then p else q;
      LowerOvertakes(s, clock, a, b, later);
    }
    acts := TwoChangesRun(s, a, b, clock, later);
    RunIsTwoChanges(s, a, b, clock, later);
  }

  /** Where the promise of section 4.4 holds: from a quiet state, every run keeps the events in the order of
      their starts exactly when at most one pin is monitored or no monitored pin has a debounce time. */
  lemma StartOrderIff(s: State, clock: u64)
    requires Quiet(s) && clock < 0x1_0000_0000_0000
    ensures AlwaysOrdered(s, clock) <==> OneOrderOnly(s.cfg.config)
  {
    var c := s.cfg.config;
    if OneOrderOnly(c) {
      forall acts: seq<Action> | Chronological(clock, acts) && NoWrites(acts)
        ensures Ordered(Run(s, acts).fifo.accepted, |s.fifo.accepted|)
      {
        SafeRun(s, clock, acts);
      }
    } else {
      var n, m :| n in InputPins(c) && m in InputPins(c) && n != m;
      var p :| p in InputPins(c) && c[p].param != 0;
      var acts := Overtaking(s, clock, p, if n == p then m else n);
      assert !Ordered(Run(s, acts).fifo.accepted, |s.fifo.accepted|);
    }
  }

  lemma QuietAfterSettle(s: State, at: u64)
    requires Sized(s) && s.cfg.settleActive && at >= s.cfg.settleDeadline && s.fifo.queue == []
    requires s.cfg.settling == InputPins(s.cfg.config) && forall n :: 0 <= n < GPIO_COUNT ==> !s.deb[n].pending
    ensures Quiet(Task(s, {}, at)) && Task(s, {}, at).cfg.config == s.cfg.config
  {
    var s1 := FinishSettle(s, {}, at);
    PollUntil(s1, at, 0, GPIO_COUNT);
    assert Quiet(s1);
  }

  /** The promise fails for a device fresh from power-on with two GPIOs: its default configuration monitors
      both with a debounce time of 20 ms. */
  lemma DefaultConfigBreaksOrder(available: set<nat>, at: u64, n: nat, m: nat)
    requires at < 0x8000_0000_0000 && n in available && m in available && n < m < GPIO_COUNT
    ensures !AlwaysOrdered(Task(Init(available, at), {}, at + SETTLE_US), at + SETTLE_US)
  {
    DefaultConfigIsUnsafe(available, at, n, m);
    QuietAfterSettle(Init(available, at), at + SETTLE_US);
    StartOrderIff(Task(Init(available, at), {}, at + SETTLE_US), at + SETTLE_US);
  }

  lemma DefaultConfigIsUnsafe(available: set<nat>, at: nat, n: nat, m: nat)
    requires n in available && m in available && n < m < GPIO_COUNT
    ensures !OneOrderOnly(DefaultConfig(available))
    ensures Init(available, at).cfg.settling == InputPins(DefaultConfig(available))
  {
    var c := DefaultConfig(available);
    assert n in InputPins(c) && m in InputPins(c) && c[n].param == 20;
  }
}
