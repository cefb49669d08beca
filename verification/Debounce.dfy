/** Chattering removal for one monitored pin (firmware/core/src/debounce.c): its steps as functions on
    values, the methods that carry them out in place, and what any run of steps guarantees. */
module Debounce {
  import opened Protocol

  datatype Deb = Deb(confirmed: bool, raw: bool, pending: bool, lastChange: nat, debounceUs: nat)

  function ResetTo(level: bool, ms: byte): Deb {
    Deb(level, level, false, 0, ms * 1000)
  }

  function SetTime(d: Deb, ms: byte, now: nat): Deb {
    d.(debounceUs := ms * 1000, lastChange := if d.pending then now else d.lastChange)
  }

  /** An electrical change; the time is the start of the change when it is confirmed at once. */
  function Edge(d: Deb, raw: bool, now: nat): (Deb, Option<nat>) {
    var d' := d.(raw := raw, lastChange := now);
    if raw == d.confirmed then (d'.(pending := false), None)
    else if d.debounceUs == 0 then (d'.(confirmed := raw, pending := false), Some(now))
    else (d'.(pending := true), None)
  }

  predicate Due(d: Deb, now: nat) {
    d.pending && d.lastChange <= now && d.debounceUs <= now - d.lastChange
  }

  function Poll(d: Deb, now: nat): (Deb, Option<nat>) {
    if Due(d, now) then (d.(confirmed := d.raw, pending := false), Some(d.lastChange))
    else (d, None)
  }

  // ---- the same steps in place ----

  /** The debouncers of all pins, each a struct in one array. */
  class Debouncers {
    const cells: array<Deb>
    ghost var views: seq<Deb>

    ghost predicate Valid()
      reads this, cells
    {
      views == cells[..]
    }

    constructor (count: nat)
      ensures Valid() && fresh(cells)
      ensures views == seq(count, _ => Deb(false, false, false, 0, 0))
    {
      cells := new Deb[count](_ => Deb(false, false, false, 0, 0));
      new;
      views := cells[..];
    }

    method Get(n: nat) returns (d: Deb)
      requires Valid() && n < |views|
      ensures d == views[n]
    {
      d := cells[n];
    }

    method Reset(n: nat, level: bool, ms: byte)
      requires Valid() && n < |views|
      modifies this, cells
      ensures Valid() && views == old(views)[n := ResetTo(level, ms)]
    {
      cells[n] := cells[n].(confirmed := level, raw := level);
      cells[n] := cells[n].(pending := false, lastChange := 0);
      cells[n] := cells[n].(debounceUs := ms * 1000);
      views := cells[..];
    }

    method ChangeTime(n: nat, ms: byte, now: nat)
      requires Valid() && n < |views|
      modifies this, cells
      ensures Valid() && views == old(views)[n := SetTime(old(views)[n], ms, now)]
    {
      cells[n] := cells[n].(debounceUs := ms * 1000);
      if cells[n].pending {
        cells[n] := cells[n].(lastChange := now);
      }
      views := cells[..];
    }

    method OnEdge(n: nat, level: bool, now: nat) returns (start: Option<nat>)
      requires Valid() && n < |views|
      modifies this, cells
      ensures Valid() && views == old(views)[n := Edge(old(views)[n], level, now).0]
      ensures start == Edge(old(views)[n], level, now).1
    {
      start := None;
      cells[n] := cells[n].(raw := level, lastChange := now);
      if level == cells[n].confirmed {
        cells[n] := cells[n].(pending := false);
      } else if cells[n].debounceUs == 0 {
        cells[n] := cells[n].(confirmed := level, pending := false);
        start := Some(now);
      } else {
        cells[n] := cells[n].(pending := true);
      }
      views := cells[..];
    }

    method OnPoll(n: nat, now: nat) returns (start: Option<nat>)
      requires Valid() && n < |views|
      modifies this, cells
      ensures Valid() && views == old(views)[n := Poll(old(views)[n], now).0]
      ensures start == Poll(old(views)[n], now).1
    {
      if !cells[n].pending || now < cells[n].lastChange {
        return None;
      }
      if now - cells[n].lastChange < cells[n].debounceUs {
        return None;
      }
      start := Some(cells[n].lastChange);
      cells[n] := cells[n].(confirmed := cells[n].raw, pending := false);
      views := cells[..];
    }
  }

  // ---- runs ----

  datatype Input = Change(level: bool, at: nat) | Tick(at: nat) | NewTime(ms: byte, at: nat)

  function Step(d: Deb, i: Input): (Deb, Option<nat>) {
    match i
    case Change(level, at) => Edge(d, level, at)
    case Tick(at) => Poll(d, at)
    case NewTime(ms, at) => (SetTime(d, ms, at), None)
  }

  function After(d: Deb, run: seq<Input>): Deb {
    if run == [] then d else Step(After(d, run[..|run| - 1]), run[|run| - 1]).0
  }

  /** The levels confirmed during a run, in order. */
  function Confirmations(d: Deb, run: seq<Input>): (levels: seq<bool>)
    ensures |levels| <= |run|
  {
    if run == [] then []
    else
      var before := After(d, run[..|run| - 1]);
      var (now, start) := Step(before, run[|run| - 1]);
      Confirmations(d, run[..|run| - 1]) + if start.Some? then [now.confirmed] else []
  }

  ghost predicate Consistent(d: Deb) {
    d.pending <==> d.raw != d.confirmed
  }

  /** In every reachable state a change is pending exactly when raw and confirmed differ. */
  lemma {:induction false} ConsistentAlways(d: Deb, run: seq<Input>)
    requires Consistent(d)
    ensures Consistent(After(d, run))
  {
    if run != [] {
      ConsistentAlways(d, run[..|run| - 1]);
    }
  }

  /** The k-th confirmation (from 0) negates the one before it, and the first negates the level the
      debouncer started from; the confirmed level is always the last one announced. */
  lemma {:induction false} ConfirmationsAlternate(d: Deb, run: seq<Input>)
    requires Consistent(d)
    ensures var c := Confirmations(d, run);
      && After(d, run).confirmed == (if c == [] then d.confirmed else c[|c| - 1])
      && forall k :: 0 <= k < |c| ==> c[k] == (if k % 2 == 0 then !d.confirmed else d.confirmed)
  {
    if run != [] {
      ConfirmationsAlternate(d, run[..|run| - 1]);
      ConsistentAlways(d, run[..|run| - 1]);
    }
  }

  predicate IsChange(i: Input) {
    i.Change?
  }

  ghost predicate TimeOrdered(run: seq<Input>) {
    forall i, j :: 0 <= i < j < |run| ==> run[i].at <= run[j].at
  }

  /** Input j of the run set the start of the pending change: it is the last electrical change or the last
      new debounce time, which restarts the wait. Nothing but ticks came after it. */
  ghost predicate StartsQuiet(run: seq<Input>, j: nat, start: nat) {
    && j < |run| && run[j].at == start && !run[j].Tick?
    && forall i :: j < i < |run| ==> run[i].Tick?
  }

  /** Input j of the run is its last electrical change, and it showed level. */
  ghost predicate LastShows(run: seq<Input>, j: nat, level: bool) {
    j < |run| && IsChange(run[j]) && run[j].level == level && forall i :: j < i < |run| ==> !IsChange(run[i])
  }

  /** What is known about the change that is pending after a run. */
  ghost predicate Explained(run: seq<Input>, d: Deb) {
    (exists j :: StartsQuiet(run, j, d.lastChange)) && exists j :: LastShows(run, j, d.raw)
  }

  lemma ExplainedExtends(run: seq<Input>, i: Input, d: Deb)
    requires Explained(run, d) && d.pending && !i.Change?
    ensures Step(d, i).0.pending ==> Explained(run + [i], Step(d, i).0)
  {
    var j :| StartsQuiet(run, j, d.lastChange);
    var k :| LastShows(run, k, d.raw);
    var longer := run + [i];
    assert LastShows(longer, k, d.raw);
    if i.NewTime? {
      assert StartsQuiet(longer, |run|, i.at);
    } else {
      assert StartsQuiet(longer, j, d.lastChange);
    }
  }

  lemma {:induction false} PendingHasStart(d0: Deb, run: seq<Input>)
    requires !d0.pending && After(d0, run).pending
    ensures Explained(run, After(d0, run))
  {
    var prefix, last := run[..|run| - 1], run[|run| - 1];
    if last.Change? {
      assert StartsQuiet(run, |run| - 1, last.at) && LastShows(run, |run| - 1, last.level);
    } else {
      PendingHasStart(d0, prefix);
      ExplainedExtends(prefix, last, After(d0, prefix));
      assert prefix + [last] == run;
    }
  }

  /** A level confirmed by polling after any run from a reset was the last electrical level seen; the
      announced start is the time of the last change or new debounce time, at least the debounce time
      ago. */
  lemma PolledLevelWasQuiet(level: bool, ms: byte, run: seq<Input>, now: nat)
    requires Poll(After(ResetTo(level, ms), run), now).1.Some?
    ensures var d := After(ResetTo(level, ms), run); var (d', start) := Poll(d, now);
      && start.value + d.debounceUs <= now
      && (exists j :: StartsQuiet(run, j, start.value))
      && (exists j :: LastShows(run, j, d'.confirmed)) && d'.confirmed == !d.confirmed
  {
    PendingHasStart(ResetTo(level, ms), run);
    ConsistentAlways(ResetTo(level, ms), run);
  }

  /** With ordered times, the starts of successive confirmations never go back. */
  lemma {:induction false} StartsAreOrdered(level: bool, ms: byte, run: seq<Input>, j: nat, k: nat)
    requires TimeOrdered(run) && j < k < |run|
    requires var d := ResetTo(level, ms);
      Step(After(d, run[..j]), run[j]).1.Some? && Step(After(d, run[..k]), run[k]).1.Some?
    ensures var d := ResetTo(level, ms);
      Step(After(d, run[..j]), run[j]).1.value <= Step(After(d, run[..k]), run[k]).1.value
  {
    var d := ResetTo(level, ms);
    LastChangeBounded(level, ms, run, j);
    ConfirmedEarlier(level, ms, run, j, k);
  }

  lemma {:induction false} LastChangeBounded(level: bool, ms: byte, run: seq<Input>, j: nat)
    requires TimeOrdered(run) && j < |run|
    ensures After(ResetTo(level, ms), run[..j]).lastChange <= run[j].at
  {
    if j > 0 {
      LastChangeBounded(level, ms, run, j - 1);
      assert run[..j][..j - 1] == run[..j - 1];
    }
  }

  /** Once input j has confirmed a level, a change pending later began no earlier than input j. */
  lemma {:induction false} ConfirmedEarlier(level: bool, ms: byte, run: seq<Input>, j: nat, k: nat)
    requires TimeOrdered(run) && j < k < |run|
    requires Step(After(ResetTo(level, ms), run[..j]), run[j]).1.Some?
    ensures var d := After(ResetTo(level, ms), run[..k]); d.pending ==> run[j].at <= d.lastChange
  {
    assert run[..k][..k - 1] == run[..k - 1];
    if j + 1 < k {
      ConfirmedEarlier(level, ms, run, j, k - 1);
    }
  }
}
