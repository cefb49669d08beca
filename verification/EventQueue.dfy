/** The fixed-size FIFO of confirmed edge events (firmware/core/src/event_queue.c). */
module EventQueue {
  import opened Protocol

  datatype EdgeEvent = EdgeEvent(gpio: nat, level: bool, start: nat)

  const QUEUE_SIZE := 32

  /** The slot i places after head in a ring of n slots: (head + i) % n. */
  function Slot(head: nat, i: nat, n: nat): (k: nat)
    requires head < n && i <= n
    ensures k < n
  {
    if head + i < n then head + i else head + i - n
  }

  /** The count items of a ring that begin at head. */
  function Window<T>(ring: seq<T>, head: nat, count: nat): (w: seq<T>)
    requires head < |ring| && count <= |ring|
    ensures |w| == count
  {
    seq(count, i requires 0 <= i < count => ring[Slot(head, i, |ring|)])
  }

  /** Writing the slot just past the window appends, because that slot is outside it. */
  lemma WindowAppend<T>(ring: seq<T>, head: nat, count: nat, x: T)
    requires head < |ring| && count < |ring|
    ensures var at := Slot(head, count, |ring|);
      Window(ring[at := x], head, count + 1) == Window(ring, head, count) + [x]
  {
    assert forall i :: 0 <= i < count ==> Slot(head, i, |ring|) != Slot(head, count, |ring|);
  }

  /** Moving head forward drops the oldest items. */
  lemma WindowDrop<T>(ring: seq<T>, head: nat, count: nat, k: nat)
    requires head < |ring| && k <= count <= |ring|
    ensures Window(ring, Slot(head, k, |ring|), count - k) == Window(ring, head, count)[k..]
  {
    var head' := Slot(head, k, |ring|);
    assert forall i :: 0 <= i < count - k ==> Slot(head', i, |ring|) == Slot(head, i + k, |ring|);
  }

  class EventQueue {
    const items: array<EdgeEvent>
    var head: nat
    var count: nat
    var overflowed: bool
    ghost var contents: seq<EdgeEvent>  // the queued events, oldest first

    ghost predicate Valid()
      reads this, items
    {
      && items.Length == QUEUE_SIZE && head < QUEUE_SIZE && count <= QUEUE_SIZE
      && contents == Window(items[..], head, count)
    }

    constructor ()
      ensures Valid() && fresh(items)
      ensures contents == [] && !overflowed
    {
      items := new EdgeEvent[QUEUE_SIZE](_ => EdgeEvent(0, false, 0));
      head, count, overflowed, contents := 0, 0, false, [];
    }

    /** Appends the event; a full ring refuses it and remembers that. */
    method Push(e: EdgeEvent) returns (ok: bool)
      requires Valid()
      modifies this, items
      ensures Valid()
      ensures ok <==> |old(contents)| < QUEUE_SIZE
      ensures contents == if ok then old(contents) + [e] else old(contents)
      ensures overflowed == (old(overflowed) || !ok)
    {
      if count >= QUEUE_SIZE {
        overflowed := true;
        return false;
      }
      WindowAppend(items[..], head, count, e);
      assert (head + count) % QUEUE_SIZE == Slot(head, count, QUEUE_SIZE);
      items[(head + count) % QUEUE_SIZE] := e;
      count := count + 1;
      contents := contents + [e];
      ok := true;
    }

    method ClearOverflow()
      requires Valid()
      modifies `overflowed
      ensures Valid() && !overflowed
    {
      overflowed := false;
    }

    method Peek(index: nat) returns (e: EdgeEvent)
      requires Valid() && index < count
      ensures e == contents[index]
    {
      assert (head + index) % QUEUE_SIZE == Slot(head, index, QUEUE_SIZE);
      e := items[(head + index) % QUEUE_SIZE];
    }

    /** Takes the n oldest out, or all of them. */
    method Drop(n: nat)
      requires Valid()
      modifies this
      ensures Valid() && overflowed == old(overflowed)
      ensures contents == old(contents)[if n > |old(contents)| then |old(contents)| else n..]
    {
      var k := if n > count then count else n;
      WindowDrop(items[..], head, count, k);
      assert (head + k) % QUEUE_SIZE == Slot(head, k, QUEUE_SIZE);
      head := (head + k) % QUEUE_SIZE;
      count := count - k;
      contents := contents[k..];
    }
  }
}
