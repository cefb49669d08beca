/** Exactly when the events of one pin leave the device in the order in which their changes started. An
    edge is stamped by the interrupt handler and processed later, so a resynchronisation or a write may
    come in between. */
module PinOrder {
  import opened Protocol
  import opened EventQueue
  import opened EngineSpec
  import opened EngineInvariants
  import opened EngineTheorems
  import opened EventOrder
  import D = Debounce
  import C = PinConfigCodec

  // ---- the guard of a step ----

  /** No accepted event of pin n started after t. */
  ghost predicate NoneAfter(q: seq<EdgeEvent>, n: nat, t: nat) {
    forall i :: 0 <= i < |q| && q[i].gpio == n ==> q[i].start <= t
  }

  /** The level is news to a tracked pin: its debouncer will confirm it or wait for it. */
  predicate IsNews(s: State, n: nat, level: bool)
    requires Sized(s) && n < GPIO_COUNT
  {
    Tracking(s.cfg, s.pub, n) && level != s.deb[n].confirmed
  }

  /** The configuration restarts the wait of a tracked pin with a new debounce time. */
  predicate RestartedBy(s: State, next: PinConfig, n: nat)
    requires Sized(s) && n < GPIO_COUNT
  {
    Tracking(s.cfg, s.pub, n) && s.deb[n].pending && OnlyTimeChanges(s.cfg.config[n], next[n])
  }

  /** The write is accepted and restarts a wait. */
  predicate Restarts(s: State, p: seq<byte>, n: nat)
    requires Sized(s) && n < GPIO_COUNT
  {
    && C.VerdictOf(p, s.cfg.available).result == C.RESULT_OK
    && (C.AcceptedModes(p, s.cfg.available); RestartedBy(s, C.ConfigIn(p), n))
  }

  /** The action stamps a change of pin n. */
  predicate Stamps(s: State, a: Action, n: nat)
    requires Sized(s) && n < GPIO_COUNT
  {
    match a
    case Edge(gpio, level, _) => gpio == n && IsNews(s, n, level)
    case Resync(raw, _) => (n in raw) != s.deb[n].raw && IsNews(s, n, n in raw)
    case Configure(p, _) => Restarts(s, p, n)
    case _ => false
  }

  /** No pin is stamped with a time before the start of one of its events. */
  ghost predicate Timely(s: State, a: Action)
    requires Sized(s)
  {
    forall n :: 0 <= n < GPIO_COUNT && Stamps(s, a, n) ==> NoneAfter(s.fifo.accepted, n, a.at)
  }

  /** Ticks and sends, which stamp nothing. */
  predicate Passive(a: Action) {
    a.Tick? || a.SendReport?
  }

  ghost predicate AllPassive(acts: seq<Action>) {
    forall i :: 0 <= i < |acts| ==> Passive(acts[i])
  }

  /** Whatever is confirmed and reported from now on without a new stamp, the events of each pin stay in order. */
  ghost predicate KeepsPinOrder(s: State)
    requires Sized(s)
  {
    forall acts: seq<Action> :: AllPassive(acts) ==> PinOrdered(Run(s, acts).fifo.accepted, 0)
  }

  /** The events of each pin are in order, and so will the ones be that tracked pins wait for. */
  ghost predicate Sound(s: State) {
    && Sized(s) && PinOrdered(s.fifo.accepted, 0)
    && (forall i :: 0 <= i < |s.fifo.accepted| ==> s.fifo.accepted[i].gpio < GPIO_COUNT)
    && forall n :: 0 <= n < GPIO_COUNT && Tracking(s.cfg, s.pub, n) && s.deb[n].pending ==>
         NoneAfter(s.fifo.accepted, n, s.deb[n].lastChange)
  }

  // ---- timely steps keep the order ----

  lemma ConfirmSound(s: State, n: nat, d: D.Deb, start: Option<nat>)
    requires Sound(s) && n < GPIO_COUNT && Tracking(s.cfg, s.pub, n)
    requires start.Some? ==> NoneAfter(s.fifo.accepted, n, start.value) && !d.pending
    requires d.pending ==> NoneAfter(s.fifo.accepted, n, d.lastChange)
    ensures Sound(Confirm(s, n, d, start))
    ensures forall m, t :: m != n && NoneAfter(s.fifo.accepted, m, t) ==>
      NoneAfter(Confirm(s, n, d, start).fifo.accepted, m, t)
  {
  }

  lemma EdgeSound(s: State, n: nat, level: bool, at: nat)
    requires Sound(s)
    requires n < GPIO_COUNT && IsNews(s, n, level) ==> NoneAfter(s.fifo.accepted, n, at)
    ensures var s' := OnEdge(s, n, level, at);
      Sound(s') && forall m, t :: m != n && NoneAfter(s.fifo.accepted, m, t) ==> NoneAfter(s'.fifo.accepted, m, t)
  {
    if n < GPIO_COUNT && Tracking(s.cfg, s.pub, n) {
      var (d, start) := D.Edge(s.deb[n], level, at);
      ConfirmSound(s, n, d, start);
    }
  }

  lemma {:induction false} ResyncSound(s: State, raw: set<nat>, at: u64, n: nat)
    requires Sound(s) && n <= GPIO_COUNT
    requires forall m :: n <= m < GPIO_COUNT && Stamps(s, Resync(raw, at), m) ==> NoneAfter(s.fifo.accepted, m, at)
    ensures Sound(ResyncFrom(s, raw, at, n))
    decreases GPIO_COUNT - n
  {
    if n < GPIO_COUNT {
      if Tracking(s.cfg, s.pub, n) && (n in raw) != s.deb[n].raw {
        EdgeSound(s, n, n in raw, at);
        ResyncSound(OnEdge(s, n, n in raw, at), raw, at, n + 1);
      } else {
        ResyncSound(s, raw, at, n + 1);
      }
    }
  }

  lemma {:induction false} PollSound(s: State, at: nat, n: nat)
    requires Sound(s) && n <= GPIO_COUNT
    ensures Sound(PollFrom(s, at, n))
    decreases GPIO_COUNT - n
  {
    if n < GPIO_COUNT {
      if Tracking(s.cfg, s.pub, n) {
        var (d, start) := D.Poll(s.deb[n], at);
        ConfirmSound(s, n, d, start);
      }
      PollSound(PollPin(s, n, at), at, n + 1);
    }
  }

  lemma SettleSound(s: State, raw: set<nat>, at: nat)
    requires MaskInv(s.cfg, s.pub) && Sound(s)
    ensures Sound(FinishSettle(s, raw, at))
  {
  }

  lemma TickSound(s: State, raw: set<nat>, at: u64)
    requires MaskInv(s.cfg, s.pub) && Sound(s)
    ensures Sound(Task(s, raw, at))
  {
    SettleSound(s, raw, at);
    PollSound(SettleIfDue(s, raw, at), at, 0);
  }

  lemma SendSound(s: State, at: u64, handedOver: bool)
    requires Sound(s)
    ensures Sound(Send(s, at, handedOver))
  {
  }

  lemma AdoptSound(s: State, next: PinConfig, at: nat)
    requires MaskInv(s.cfg, s.pub) && Sound(s)
    requires forall n :: 0 <= n < GPIO_COUNT && RestartedBy(s, next, n) ==> NoneAfter(s.fifo.accepted, n, at)
    ensures Sound(Adopt(s, next, at))
  {
    if next != s.cfg.config {
      var cfg := ApplyFrom(s.cfg, next, at, 0);
      var s' := Adopt(s, next, at);
      ApplyPins(s.cfg, next, at, 0);
      forall n | 0 <= n < GPIO_COUNT && Tracking(s'.cfg, s'.pub, n)
        ensures Tracking(s.cfg, s.pub, n)
        ensures OnlyTimeChanges(s.cfg.config[n], next[n]) || s'.deb[n] == s.deb[n]
      {
        assert PinApplied(s.cfg, cfg, next, n, at);
      }
    }
  }

  lemma WriteSound(s: State, p: seq<byte>, at: u64)
    requires MaskInv(s.cfg, s.pub) && Sound(s) && Timely(s, Configure(p, at))
    ensures Sound(SetPinConfig(s, p, at))
  {
    var v := C.VerdictOf(p, s.cfg.available);
    if v.result == C.RESULT_OK {
      C.AcceptedModes(p, s.cfg.available);
      forall n | 0 <= n < GPIO_COUNT && RestartedBy(s, C.ConfigIn(p), n)
        ensures NoneAfter(s.fifo.accepted, n, at)
      {
        assert Stamps(s, Configure(p, at), n);
      }
      AdoptSound(s.(cfg := s.cfg.(result := v.result, resultGpio := v.gpio, requestId := v.requestId)), C.ConfigIn(p), at);
    }
  }

  lemma StepSound(s: State, a: Action)
    requires Inv(s) && Sound(s) && Timely(s, a)
    ensures Sound(Step(s, a))
  {
    match a
    case Edge(n, level, at) => EdgeSound(s, n, level, at);
    case Resync(raw, at) => ResyncSound(s, raw, at, 0);
    case Tick(raw, at) => TickSound(s, raw, at);
    case Configure(p, at) => WriteSound(s, p, at);
    case SendReport(at, handedOver) => SendSound(s, at, handedOver);
    case _ =>
  }

  lemma {:induction false} PassiveSound(s: State, acts: seq<Action>)
    requires Inv(s) && Sound(s) && AllPassive(acts)
    ensures Inv(Run(s, acts)) && Sound(Run(s, acts))
  {
    if acts != [] {
      var before, last := acts[..|acts| - 1], acts[|acts| - 1];
      PassiveSound(s, before);
      assert Passive(last);
      StepKeeps(Run(s, before), last);
      StepSound(Run(s, before), last);
    }
  }

  ghost predicate AllTimely(s: State, acts: seq<Action>)
    requires Sized(s)
  {
    acts == [] || (AllTimely(s, acts[..|acts| - 1]) && Timely(Run(s, acts[..|acts| - 1]), acts[|acts| - 1]))
  }

  lemma {:induction false} TimelyRunIsSound(s: State, acts: seq<Action>)
    requires Inv(s) && Sound(s) && AllTimely(s, acts)
    ensures Inv(Run(s, acts)) && Sound(Run(s, acts))
  {
    if acts != [] {
      var before := acts[..|acts| - 1];
      TimelyRunIsSound(s, before);
      StepKeeps(Run(s, before), acts[|acts| - 1]);
      StepSound(Run(s, before), acts[|acts| - 1]);
    }
  }

  /** Every run can start at power-on. */
  lemma InitIsSound(available: set<nat>, at: nat)
    ensures var s := Init(available, at); Inv(s) && Sound(s) && s.fifo.lost == 0
  {
    InitInv(available, at);
  }

  /** Over any run from power-on whose stamps are timely, the events of each pin are in the order of their
      starts, and stay so. */
  lemma TimelyRunsKeepOrder(available: set<nat>, at: nat, acts: seq<Action>)
    requires AllTimely(Init(available, at), acts)
    ensures var s := Run(Init(available, at), acts); Sound(s) && KeepsPinOrder(s)
  {
    InitIsSound(available, at);
    TimelyRunIsSound(Init(available, at), acts);
    SoundKeepsOrder(Run(Init(available, at), acts));
  }

  lemma SoundKeepsOrder(s: State)
    requires Inv(s) && Sound(s)
    ensures KeepsPinOrder(s)
  {
    forall acts: seq<Action> | AllPassive(acts) ensures PinOrdered(Run(s, acts).fifo.accepted, 0) {
      PassiveSound(s, acts);
    }
  }

  // ---- an untimely stamp breaks it ----

  /** Pin n waits for a change stamped t, or its event stamped t is among the ones accepted since q. */
  ghost predicate Recorded(s: State, q: seq<EdgeEvent>, n: nat, t: nat)
    requires Sized(s) && n < GPIO_COUNT
  {
    && q <= s.fifo.accepted
    && (|| (Tracking(s.cfg, s.pub, n) && s.deb[n].pending && s.deb[n].lastChange == t)
        || exists i :: |q| <= i < |s.fifo.accepted| && s.fifo.accepted[i].gpio == n && s.fifo.accepted[i].start == t)
  }

  lemma EdgeRecords(s: State, n: nat, level: bool, at: nat)
    requires Sized(s) && n < GPIO_COUNT && IsNews(s, n, level) && OnEdge(s, n, level, at).fifo.lost == s.fifo.lost
    ensures Recorded(OnEdge(s, n, level, at), s.fifo.accepted, n, at)
  {
    var s' := OnEdge(s, n, level, at);
    if s.deb[n].debounceUs == 0 {
      assert s'.fifo.accepted[|s.fifo.accepted|] == EdgeEvent(n, level, at);
    }
  }

  /** What is recorded of pin n stays recorded while other pins are served. */
  lemma OtherPinKeeps(s: State, q: seq<EdgeEvent>, n: nat, t: nat, m: nat, d: D.Deb, start: Option<nat>)
    requires Sized(s) && n < GPIO_COUNT && m < GPIO_COUNT && m != n && Recorded(s, q, n, t)
    ensures Recorded(Confirm(s, m, d, start), q, n, t)
  {
    var s' := Confirm(s, m, d, start);
    if i :| |q| <= i < |s.fifo.accepted| && s.fifo.accepted[i].gpio == n && s.fifo.accepted[i].start == t {
      assert s'.fifo.accepted[i] == s.fifo.accepted[i];
    }
  }

  lemma {:induction false} ResyncKeepsRecord(s: State, q: seq<EdgeEvent>, n: nat, t: nat, raw: set<nat>, at: nat, m: nat)
    requires Sized(s) && n < m <= GPIO_COUNT && Recorded(s, q, n, t)
    ensures Recorded(ResyncFrom(s, raw, at, m), q, n, t)
    decreases GPIO_COUNT - m
  {
    if m < GPIO_COUNT {
      if Tracking(s.cfg, s.pub, m) && (m in raw) != s.deb[m].raw {
        var (d, start) := D.Edge(s.deb[m], m in raw, at);
        OtherPinKeeps(s, q, n, t, m, d, start);
        ResyncKeepsRecord(OnEdge(s, m, m in raw, at), q, n, t, raw, at, m + 1);
      } else {
        ResyncKeepsRecord(s, q, n, t, raw, at, m + 1);
      }
    }
  }

  lemma {:induction false} ResyncLoses(s: State, raw: set<nat>, at: nat, m: nat)
    requires Sized(s) && m <= GPIO_COUNT
    ensures s.fifo.lost <= ResyncFrom(s, raw, at, m).fifo.lost
    decreases GPIO_COUNT - m
  {
    if m < GPIO_COUNT {
      if Tracking(s.cfg, s.pub, m) && (m in raw) != s.deb[m].raw {
        ResyncLoses(OnEdge(s, m, m in raw, at), raw, at, m + 1);
      } else {
        ResyncLoses(s, raw, at, m + 1);
      }
    }
  }

  lemma {:induction false} ResyncRecords(s: State, q: seq<EdgeEvent>, n: nat, raw: set<nat>, at: u64, m: nat)
    requires Sized(s) && m <= n < GPIO_COUNT && Stamps(s, Resync(raw, at), n)
    requires q <= s.fifo.accepted && ResyncFrom(s, raw, at, m).fifo.lost == s.fifo.lost
    ensures Recorded(ResyncFrom(s, raw, at, m), q, n, at)
    decreases n - m
  {
    if Tracking(s.cfg, s.pub, m) && (m in raw) != s.deb[m].raw {
      ResyncLoses(OnEdge(s, m, m in raw, at), raw, at, m + 1);
    }
    if m == n {
      EdgeRecords(s, n, n in raw, at);
      var s1 := OnEdge(s, n, n in raw, at);
      RecordedSince(s1, s.fifo.accepted, q, n, at);
      ResyncKeepsRecord(s1, q, n, at, raw, at, n + 1);
    } else if Tracking(s.cfg, s.pub, m) && (m in raw) != s.deb[m].raw {
      ResyncRecords(OnEdge(s, m, m in raw, at), q, n, raw, at, m + 1);
    } else {
      ResyncRecords(s, q, n, raw, at, m + 1);
    }
  }

  lemma RecordedSince(s: State, q: seq<EdgeEvent>, p: seq<EdgeEvent>, n: nat, t: nat)
    requires Sized(s) && n < GPIO_COUNT && Recorded(s, q, n, t) && p <= q
    ensures Recorded(s, p, n, t)
  {
    if i :| |q| <= i < |s.fifo.accepted| && s.fifo.accepted[i].gpio == n && s.fifo.accepted[i].start == t {
      assert |p| <= i < |s.fifo.accepted|;
    }
  }

  lemma WriteRecords(s: State, p: seq<byte>, at: nat, n: nat)
    requires Sized(s) && n < GPIO_COUNT && Restarts(s, p, n)
    ensures Recorded(SetPinConfig(s, p, at), s.fifo.accepted, n, at)
    ensures SetPinConfig(s, p, at).deb[n].debounceUs <= 255_000
    ensures SetPinConfig(s, p, at).fifo == s.fifo
  {
    C.AcceptedModes(p, s.cfg.available);
    var v, next := C.VerdictOf(p, s.cfg.available), C.ConfigIn(p);
    var cfg := s.cfg.(result := v.result, resultGpio := v.gpio, requestId := v.requestId);
    ApplyPins(cfg, next, at, 0);
    assert PinApplied(cfg, ApplyFrom(cfg, next, at, 0), next, n, at);
  }

  /** The stamp of an action is recorded for each pin it stamps. */
  lemma StampIsRecorded(s: State, a: Action, n: nat)
    requires Inv(s) && n < GPIO_COUNT && Stamps(s, a, n) && Step(s, a).fifo.lost == s.fifo.lost
    ensures Recorded(Step(s, a), s.fifo.accepted, n, a.at)
    ensures Step(s, a).deb[n].debounceUs <= 255_000
  {
    match a
    case Edge(_, level, at) => EdgeRecords(s, n, level, at);
    case Resync(raw, at) =>
      ResyncRecords(s, s.fifo.accepted, n, raw, at, 0);
      ResyncTimes(s, raw, at, 0);
    case Configure(p, at) => WriteRecords(s, p, at, n);
  }

  lemma {:induction false} ResyncTimes(s: State, raw: set<nat>, at: nat, n: nat)
    requires Sized(s) && n <= GPIO_COUNT
    ensures var s' := ResyncFrom(s, raw, at, n);
      forall m :: 0 <= m < GPIO_COUNT ==> s'.deb[m].debounceUs == s.deb[m].debounceUs
    decreases GPIO_COUNT - n
  {
    if n < GPIO_COUNT {
      if Tracking(s.cfg, s.pub, n) && (n in raw) != s.deb[n].raw {
        ResyncTimes(OnEdge(s, n, n in raw, at), raw, at, n + 1);
      } else {
        ResyncTimes(s, raw, at, n + 1);
      }
    }
  }

  // ---- draining the queue and confirming what waits ----

  function Sends(k: nat, at: u64): seq<Action> {
    if k == 0 then [] else Sends(k - 1, at) + [SendReport(at, true)]
  }

  /** The debouncers and what was accepted stay as they are; at most the given number of events is queued. */
  ghost predicate Drained(s: State, s': State, left: nat) {
    && s'.cfg == s.cfg && s'.deb == s.deb && s'.pub.monitored == s.pub.monitored
    && s'.fifo.accepted == s.fifo.accepted && |s'.fifo.queue| <= left
  }

  lemma {:induction false} SendsArePassive(k: nat, at: u64)
    ensures AllPassive(Sends(k, at))
  {
    if k > 0 {
      SendsArePassive(k - 1, at);
    }
  }

  function SendMany(s: State, k: nat, at: u64): (s': State)
    requires Sized(s)
    ensures Sized(s')
  {
    if k == 0 then s else Send(SendMany(s, k - 1, at), at, true)
  }

  lemma {:induction false} SendsRun(s: State, k: nat, at: u64)
    requires Sized(s)
    ensures Run(s, Sends(k, at)) == SendMany(s, k, at)
  {
    if k > 0 {
      SendsRun(s, k - 1, at);
      RunSnoc(s, 0, Sends(k - 1, at), SendReport(at, true));
    }
  }

  lemma {:induction false} ManyDrain(s: State, k: nat, at: u64)
    requires Sized(s) && k <= 5 && |s.fifo.queue| <= 35
    ensures Drained(s, SendMany(s, k, at), 35 - 7 * k)
  {
    if k > 0 {
      ManyDrain(s, k - 1, at);
      DrainedFurther(s, SendMany(s, k - 1, at), 42 - 7 * k, at);
    }
  }

  lemma SendsDrain(s: State, at: u64)
    requires Sized(s) && |s.fifo.queue| <= 35
    ensures Drained(s, Run(s, Sends(5, at)), 0) && AllPassive(Sends(5, at))
  {
    SendsArePassive(5, at);
    SendsRun(s, 5, at);
    ManyDrain(s, 5, at);
  }

  lemma DrainedFurther(s: State, s1: State, left: nat, at: u64)
    requires Sized(s1) && Drained(s, s1, left) && left >= EVENTS_PER_REPORT
    ensures Drained(s, Send(s1, at, true), left - EVENTS_PER_REPORT)
  {
  }

  lemma {:induction false} PollReaches(s: State, q: seq<EdgeEvent>, n: nat, at: nat, m: nat)
    requires Sized(s) && m <= n < GPIO_COUNT && Tracking(s.cfg, s.pub, n) && D.Due(s.deb[n], at)
    requires q <= s.fifo.accepted && |s.fifo.queue| + (n - m) < QUEUE_SIZE
    ensures var all := PollFrom(s, at, m).fifo.accepted;
      q <= all && exists i :: |q| <= i < |all| && all[i].gpio == n && all[i].start == s.deb[n].lastChange
    decreases n - m
  {
    if m == n {
      PollConfirms(s, n, at);
      var s1 := PollPin(s, n, at);
      PollGrows(s1, at, n + 1);
      assert PollFrom(s, at, n).fifo.accepted[|s.fifo.accepted|] == s1.fifo.accepted[|s.fifo.accepted|];
    } else {
      PollReaches(PollPin(s, m, at), q, n, at, m + 1);
    }
  }

  lemma TickReaches(s: State, q: seq<EdgeEvent>, n: nat, at: u64)
    requires Sized(s) && n < GPIO_COUNT && Tracking(s.cfg, s.pub, n) && D.Due(s.deb[n], at)
    requires q <= s.fifo.accepted && s.fifo.queue == []
    ensures var all := Task(s, {}, at).fifo.accepted;
      q <= all && exists i :: |q| <= i < |all| && all[i].gpio == n && all[i].start == s.deb[n].lastChange
  {
    PollReaches(SettleIfDue(s, {}, at), q, n, at, 0);
  }

  /** A recorded stamp comes out as an event by ticks and sends alone. */
  lemma RecordComesOut(s: State, q: seq<EdgeEvent>, n: nat, t: u64) returns (acts: seq<Action>)
    requires Sized(s) && n < GPIO_COUNT && Recorded(s, q, n, t) && t < 0x8000_0000_0000_0000
    requires |s.fifo.queue| <= QUEUE_SIZE && s.deb[n].debounceUs <= 255_000
    ensures AllPassive(acts)
    ensures var all := Run(s, acts).fifo.accepted;
      q <= all && exists i :: |q| <= i < |all| && all[i].gpio == n && all[i].start == t
  {
    acts := [];
    if Tracking(s.cfg, s.pub, n) && s.deb[n].pending && s.deb[n].lastChange == t {
      var later: u64 := t + 255_000;
      SendsDrain(s, later);
      var s1 := Run(s, Sends(5, later));
      TickReaches(s1, q, n, later);
      RunSnoc(s, 0, Sends(5, later), Tick({}, later));
      acts := Sends(5, later) + [Tick({}, later)];
    }
  }

  /** Two events of a pin, the later one with the earlier start. */
  lemma WrongWayRound(q: seq<EdgeEvent>, all: seq<EdgeEvent>, n: nat, t: nat)
    requires q <= all && !NoneAfter(q, n, t)
    requires exists i :: |q| <= i < |all| && all[i].gpio == n && all[i].start == t
    ensures !PinOrdered(all, 0)
  {
    var j :| |q| <= j < |all| && all[j].gpio == n && all[j].start == t;
    var i :| 0 <= i < |q| && q[i].gpio == n && q[i].start > t;
    assert all[i] == q[i];
  }

  /** An action that carries a stamp carries one of the first 292000 years. */
  predicate Stamped(a: Action) {
    a.Edge? || a.Resync? || a.Configure? ==> a.at < 0x8000_0000_0000_0000
  }

  /** Exactly when a step that drops no event keeps the order: from a reachable state in which it is kept, the
      events of each pin stay in order, however ticks and sends go on after the action, if and only if the
      action stamps no pin with a time before the start of one of its events. */
  lemma PinOrderIff(s: State, a: Action)
    requires Inv(s) && Sound(s) && Step(s, a).fifo.lost == s.fifo.lost && Stamped(a)
    ensures KeepsPinOrder(Step(s, a)) <==> Timely(s, a)
  {
    var s' := Step(s, a);
    StepKeeps(s, a);
    if Timely(s, a) {
      StepSound(s, a);
      SoundKeepsOrder(s');
    } else {
      var n :| 0 <= n < GPIO_COUNT && Stamps(s, a, n) && !NoneAfter(s.fifo.accepted, n, a.at);
      StampIsRecorded(s, a, n);
      var acts := RecordComesOut(s', s.fifo.accepted, n, a.at);
      WrongWayRound(s.fifo.accepted, Run(s', acts).fifo.accepted, n, a.at);
    }
  }

  // ---- whole runs ----

  lemma {:induction false} PollLoses(s: State, at: nat, n: nat)
    requires Sized(s) && n <= GPIO_COUNT
    ensures s.fifo.lost <= PollFrom(s, at, n).fifo.lost
    decreases GPIO_COUNT - n
  {
    if n < GPIO_COUNT {
      PollLoses(PollPin(s, n, at), at, n + 1);
    }
  }

  lemma StepLoses(s: State, a: Action)
    requires Sized(s)
    ensures s.fifo.lost <= Step(s, a).fifo.lost
  {
    match a
    case Resync(raw, at) => ResyncLoses(s, raw, at, 0);
    case Tick(raw, at) => PollLoses(SettleIfDue(s, raw, at), at, 0);
    case _ =>
  }

  /** The order is kept after every action of the run. */
  ghost predicate AlwaysInOrder(s: State, acts: seq<Action>)
    requires Sized(s)
  {
    KeepsPinOrder(Run(s, acts)) && (acts != [] ==> AlwaysInOrder(s, acts[..|acts| - 1]))
  }

  /** Over a run that drops no event, the events of each pin are in the order of their starts all the time, and
      will be in every continuation by ticks and sends, if and only if every stamp is timely. */
  lemma {:induction false} AlwaysInOrderIff(s: State, acts: seq<Action>)
    requires Inv(s) && Sound(s) && Run(s, acts).fifo.lost == s.fifo.lost
    requires forall i :: 0 <= i < |acts| ==> Stamped(acts[i])
    ensures AlwaysInOrder(s, acts) <==> AllTimely(s, acts)
  {
    SoundKeepsOrder(s);
    if acts != [] {
      var before, last := acts[..|acts| - 1], acts[|acts| - 1];
      RunLoses(s, before);
      StepLoses(Run(s, before), last);
      AlwaysInOrderIff(s, before);
      if AllTimely(s, before) {
        TimelyRunIsSound(s, before);
        PinOrderIff(Run(s, before), last);
      }
    }
  }

  lemma {:induction false} RunLoses(s: State, acts: seq<Action>)
    requires Sized(s)
    ensures s.fifo.lost <= Run(s, acts).fifo.lost
  {
    if acts != [] {
      RunLoses(s, acts[..|acts| - 1]);
      StepLoses(Run(s, acts[..|acts| - 1]), acts[|acts| - 1]);
    }
  }
}
