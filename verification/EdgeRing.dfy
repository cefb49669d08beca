/** The ring of raw edges between the GPIO interrupt and the main loop (firmware/app/gpio_hw.c). The
    interrupt handler runs to completion but may strike between any two accesses of the main loop, so
    taking an edge out is modelled as the separate accesses it consists of. */
module EdgeRing {
  import opened Protocol
  import Q = EventQueue

  const SIZE := 256

  datatype RawEdge = RawEdge(gpio: nat, level: bool, time: nat)

  /** Where the main loop is inside gpio_hw_pop_edge: it loads the tail, compares it with the head, copies
      the slot and stores the new tail. */
  datatype Consumer =
    | Idle
    | Loaded(tail: nat)
    | NotEmpty(tail: nat)
    | Copied(tail: nat, edge: RawEdge)

  datatype Ring = Ring(
    slots: seq<RawEdge>, head: nat, tail: nat, overflow: bool, consumer: Consumer,
    accepted: seq<RawEdge>,  // log: edges the handler stored
    popped: seq<RawEdge>,    // log: edges the main loop took out
    refused: nat,            // log: edges the handler refused
    excused: nat)            // log: the refused edges that a taken overflow flag stood for

  datatype Action =
    | Irq(edge: RawEdge)
    | LoadTail
    | CompareHead
    | CopySlot
    | StoreTail
    | TakeOverflow

  function Init(slots: seq<RawEdge>): Ring {
    Ring(slots, 0, 0, false, Idle, [], [], 0, 0)
  }

  function Next(i: nat): nat {
    (i + 1) % SIZE
  }

  /** gpio_edge_irq */
  function Handle(r: Ring, e: RawEdge): Ring
    requires |r.slots| == SIZE && r.head < SIZE
  {
    if Next(r.head) == r.tail then r.(overflow := true, refused := r.refused + 1)
    else r.(slots := r.slots[r.head := e], head := Next(r.head), accepted := r.accepted + [e])
  }

  /** One access of the main loop or one run of the handler; an access out of turn does nothing. */
  function Step(r: Ring, a: Action): Ring
    requires |r.slots| == SIZE && r.head < SIZE && r.tail < SIZE
    requires r.consumer.NotEmpty? ==> r.consumer.tail < SIZE
  {
    match a
    case Irq(e) => Handle(r, e)
    case LoadTail => if r.consumer.Idle? then r.(consumer := Loaded(r.tail)) else r
    case CompareHead =>
      if r.consumer.Loaded? then
        r.(consumer := if r.consumer.tail == r.head then Idle else NotEmpty(r.consumer.tail))
      else r
    case CopySlot =>
      if r.consumer.NotEmpty? then r.(consumer := Copied(r.consumer.tail, r.slots[r.consumer.tail])) else r
    case StoreTail =>
      if r.consumer.Copied? then
        r.(tail := Next(r.consumer.tail), consumer := Idle, popped := r.popped + [r.consumer.edge])
      else r
    case TakeOverflow =>
      // Runs with interrupts disabled, and never inside gpio_hw_pop_edge.
      if r.consumer.Idle? then r.(overflow := false, excused := r.refused) else r
  }

  // ---- the invariant ----

  function Count(r: Ring): nat
    requires r.head < SIZE && r.tail < SIZE
  {
    (r.head - r.tail) % SIZE
  }

  function Contents(r: Ring): seq<RawEdge>
    requires |r.slots| == SIZE && r.head < SIZE && r.tail < SIZE
  {
    Q.Window(r.slots, r.tail, Count(r))
  }

  /** Popped edges followed by the contents are the accepted edges in order; a slot on its way out is the
      oldest one and stays as it is; an edge was refused after the last taking of the flag exactly when
      the flag is set. */
  ghost predicate Inv(r: Ring) {
    && |r.slots| == SIZE && r.head < SIZE && r.tail < SIZE
    && r.popped + Contents(r) == r.accepted
    && (r.consumer.Idle? || r.consumer.tail == r.tail)
    && (r.consumer.NotEmpty? || r.consumer.Copied? ==> Count(r) > 0)
    && (r.consumer.Copied? ==> r.consumer.edge == Contents(r)[0])
    && r.excused <= r.refused && (r.overflow <==> r.excused < r.refused)
  }

  lemma HandleKeeps(r: Ring, e: RawEdge)
    requires Inv(r)
    ensures var r' := Handle(r, e);
      Inv(r') && Contents(r) <= Contents(r') && |Contents(r')| <= |Contents(r)| + 1
  {
    var count := Count(r);
    if Next(r.head) != r.tail {
      assert count < SIZE - 1 && r.head == Q.Slot(r.tail, count, SIZE);
      Q.WindowAppend(r.slots, r.tail, count, e);
      var r' := Handle(r, e);
      assert Count(r') == count + 1;
      assert Contents(r') == Contents(r) + [e];
      assert r.popped + (Contents(r) + [e]) == r.popped + Contents(r) + [e];
    }
  }

  lemma OldestLeaves(r: Ring)
    requires |r.slots| == SIZE && r.head < SIZE && r.tail < SIZE && Count(r) > 0
    ensures var r' := r.(tail := Next(r.tail)); Count(r') == Count(r) - 1 && Contents(r') == Contents(r)[1..]
  {
    Q.WindowDrop(r.slots, r.tail, Count(r), 1);
    assert Next(r.tail) == Q.Slot(r.tail, 1, SIZE);
  }

  lemma StoreKeeps(r: Ring)
    requires Inv(r) && r.consumer.Copied?
    ensures Inv(Step(r, StoreTail))
  {
    OldestLeaves(r);
    var c := Contents(r);
    assert r.popped + [c[0]] + c[1..] == r.popped + c;
    assert Contents(Step(r, StoreTail)) == Contents(r.(tail := Next(r.tail)));
  }

  lemma StepKeeps(r: Ring, a: Action)
    requires Inv(r)
    ensures Inv(Step(r, a))
  {
    match a
    case Irq(e) => HandleKeeps(r, e);
    case StoreTail =>
      if r.consumer.Copied? {
        StoreKeeps(r);
      }
    case _ =>
  }

  function Run(r: Ring, acts: seq<Action>): (r': Ring)
    requires Inv(r)
    ensures Inv(r')
  {
    if acts == [] then r
    else
      StepKeeps(Run(r, acts[..|acts| - 1]), acts[|acts| - 1]);
      Step(Run(r, acts[..|acts| - 1]), acts[|acts| - 1])
  }

  // ---- what any interleaving guarantees ----

  function Stored(acts: seq<Action>): seq<RawEdge> {
    if acts == [] then []
    else Stored(acts[..|acts| - 1]) + if acts[|acts| - 1].Irq? then [acts[|acts| - 1].edge] else []
  }

  /** However the handler and the accesses of the main loop interleave, the edges taken out so far are a
      prefix of the accepted ones in order, the rest is in the ring, at most 255 edges wait there, and if
      no edge was refused the accepted ones are all that arrived. */
  lemma {:induction false} NothingLostInBetween(slots: seq<RawEdge>, acts: seq<Action>)
    requires |slots| == SIZE
    ensures var r := Run(Init(slots), acts);
      && r.popped + Contents(r) == r.accepted && |Contents(r)| < SIZE
      && |r.accepted| + r.refused == |Stored(acts)|
      && (r.refused == 0 ==> r.accepted == Stored(acts))
  {
    if acts != [] {
      NothingLostInBetween(slots, acts[..|acts| - 1]);
    }
  }

  /** The copied edge is the one that was oldest when the ring was found not empty: no interleaving of the
      handler can overwrite the slot on its way out. */
  lemma {:induction false} CopyIsNotTorn(r: Ring, before: seq<RawEdge>, between: seq<RawEdge>)
    requires Inv(r) && r.consumer.NotEmpty?
    ensures var r1 := Interrupts(r, before); var r2 := Interrupts(Step(r1, CopySlot), between);
      && Inv(r1) && r1.consumer == r.consumer && Inv(r2) && r2.consumer == Copied(r.tail, Contents(r)[0])
      && Step(r2, StoreTail).popped == r.popped + [Contents(r)[0]]
  {
    InterruptsKeep(r, before);
    var r1 := Interrupts(r, before);
    StepKeeps(r1, CopySlot);
    InterruptsKeep(Step(r1, CopySlot), between);
  }

  /** The handler runs for some edges in a row. */
  function Interrupts(r: Ring, edges: seq<RawEdge>): (r': Ring)
    requires Inv(r)
    ensures Inv(r')
  {
    if edges == [] then r
    else
      var r1 := Interrupts(r, edges[..|edges| - 1]);
      HandleKeeps(r1, edges[|edges| - 1]);
      Handle(r1, edges[|edges| - 1])
  }

  lemma {:induction false} InterruptsKeep(r: Ring, edges: seq<RawEdge>)
    requires Inv(r)
    ensures var r' := Interrupts(r, edges);
      r'.consumer == r.consumer && r'.tail == r.tail && r'.popped == r.popped && Contents(r) <= Contents(r')
  {
    if edges != [] {
      InterruptsKeep(r, edges[..|edges| - 1]);
      HandleKeeps(Interrupts(r, edges[..|edges| - 1]), edges[|edges| - 1]);
    }
  }

  /** A refused edge is never forgotten: the flag is set from the refusal until it is taken, and a taken
      flag that was set stands for at least one refusal since it was last taken. */
  lemma OverflowIsTakenOnce(slots: seq<RawEdge>, acts: seq<Action>)
    requires |slots| == SIZE
    ensures var r := Run(Init(slots), acts);
      && (r.refused > r.excused <==> r.overflow)
      && (r.consumer.Idle? ==>
            var r' := Step(r, TakeOverflow); !r'.overflow && r'.excused == r'.refused == r.refused)
  {
  }

  // ---- the ring as the firmware keeps it ----

  class EdgeBuffer {
    const slots: array<RawEdge>
    var head: nat
    var tail: nat
    var overflow: bool
    ghost var state: Ring

    ghost predicate Valid()
      reads this, slots
    {
      && slots.Length == SIZE && Inv(state)
      && state.slots == slots[..] && state.head == head && state.tail == tail && state.overflow == overflow
    }

    constructor ()
      ensures Valid() && fresh(slots) && state == Init(state.slots)
    {
      slots := new RawEdge[SIZE](_ => RawEdge(0, false, 0));
      head, tail, overflow := 0, 0, false;
      new;
      state := Init(slots[..]);
    }

    /** The interrupt handler. */
    method OnInterrupt(e: RawEdge)
      requires Valid()
      modifies this, slots
      ensures Valid() && state == Handle(old(state), e)
    {
      HandleKeeps(state, e);
      var next := (head + 1) % SIZE;
      if next == tail {
        overflow := true;
      } else {
        slots[head] := e;
        head := next;
      }
      state := Handle(state, e);
    }

    /** The handler strikes for each of the given edges. */
    method InterruptedBy(edges: seq<RawEdge>)
      requires Valid()
      modifies this, slots
      ensures Valid() && state == Interrupts(old(state), edges)
    {
      for k := 0 to |edges|
        invariant Valid() && state == Interrupts(old(state), edges[..k])
      {
        OnInterrupt(edges[k]);
        assert edges[..k + 1][..k] == edges[..k];
      }
      assert edges[..|edges|] == edges;
    }

    /** The second half of gpio_hw_pop_edge: copy the slot, then store the new tail. */
    method TakeOldest(i2: seq<RawEdge>, i3: seq<RawEdge>) returns (edge: RawEdge)
      requires Valid() && state.consumer.NotEmpty?
      modifies this, slots
      ensures Valid() && state.consumer.Idle?
      ensures edge == Contents(old(state))[0] && state.popped == old(state).popped + [edge]
    {
      InterruptsKeep(state, i2);
      InterruptedBy(i2);
      edge := slots[tail];
      StepKeeps(state, CopySlot);
      state := Step(state, CopySlot);
      InterruptsKeep(state, i3);
      InterruptedBy(i3);
      StepKeeps(state, StoreTail);
      tail := (tail + 1) % SIZE;
      state := Step(state, StoreTail);
    }

    /** gpio_hw_pop_edge, interrupted between its accesses by the given edges. It takes out the edge that was
        oldest when it compared tail and head, or finds the ring empty at that moment; everything the
        handler accepted meanwhile stays queued behind. */
    method PopEdge(i1: seq<RawEdge>, i2: seq<RawEdge>, i3: seq<RawEdge>) returns (edge: Option<RawEdge>)
      requires Valid() && state.consumer.Idle?
      modifies this, slots
      ensures Valid() && state.consumer.Idle?
      ensures var compared := Interrupts(old(state), i1);
        && (edge.None? <==> Contents(compared) == [])
        && (edge.None? ==> state == compared)
        && (edge.Some? ==> edge.value == Contents(compared)[0] && state.popped == old(state).popped + [edge.value])
    {
      var t := tail;
      state := Step(state, LoadTail);
      InterruptsKeep(state, i1);
      InterruptedBy(i1);
      LoadCommutes(old(state), i1);
      var empty := t == head;
      StepKeeps(state, CompareHead);
      state := Step(state, CompareHead);
      if empty {
        return None;
      }
      var oldest := TakeOldest(i2, i3);
      edge := Some(oldest);
    }

    method TakeOverflowFlag() returns (taken: bool)
      requires Valid() && state.consumer.Idle?
      modifies this
      ensures Valid() && state == Step(old(state), TakeOverflow) && taken == old(state).overflow
    {
      taken := overflow;
      overflow := false;
      state := Step(state, TakeOverflow);
    }
  }

  /** Loading the tail does not matter to the handler. */
  lemma {:induction false} LoadCommutes(r: Ring, edges: seq<RawEdge>)
    requires Inv(r) && r.consumer.Idle?
    ensures Inv(Step(r, LoadTail))
    ensures Interrupts(Step(r, LoadTail), edges) == Interrupts(r, edges).(consumer := Loaded(r.tail))
  {
    if edges != [] {
      LoadCommutes(r, edges[..|edges| - 1]);
    }
  }
}
