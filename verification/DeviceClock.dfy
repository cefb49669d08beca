/** Converting device times (microseconds) to host times (nanoseconds): of the samples in the
    current and the previous window, the one that arrived with the least delay counts. */
module DeviceClock {
  import opened Protocol

  const WINDOW := 30_000_000_000

  datatype Sample = Sample(host: int, device: nat)

  datatype Clock = Clock(cur: Option<Sample>, prev: Option<Sample>, curStart: int)

  const EMPTY := Clock(None, None, 0)

  /** How much later than the device's own time the host saw a sample, up to a constant. */
  function Offset(s: Sample): int {
    s.host - s.device * 1000
  }

  /** Whether a has a smaller host-minus-device difference than b. */
  predicate Closer(a: Sample, b: Sample) {
    a.host - b.host < (a.device - b.device) * 1000
  }

  predicate SameWindow(c: Clock, host: int) {
    c.cur.Some? && host - c.curStart < WINDOW
  }

  function Add(c: Clock, s: Sample): Clock {
    if !SameWindow(c, s.host) then Clock(Some(s), c.cur, s.host)
    else if Closer(s, c.cur.value) then c.(cur := Some(s))
    else c
  }

  function Best(c: Clock): Sample
    requires c.cur.Some?
  {
    if c.prev.Some? && Closer(c.prev.value, c.cur.value) then c.prev.value else c.cur.value
  }

  /** The host time of a device time. */
  function At(c: Clock, device: nat): int
    requires c.cur.Some?
  {
    Best(c).host + (device - Best(c).device) * 1000
  }

  class ClockEstimate {
    var cur: Option<Sample>
    var prev: Option<Sample>
    var curStart: int

    ghost function View(): Clock
      reads this
    {
      Clock(cur, prev, curStart)
    }

    constructor ()
      ensures View() == EMPTY
    {
      cur, prev, curStart := None, None, 0;
    }

    method AddSample(host: int, device: nat)
      modifies this
      ensures View() == Add(old(View()), Sample(host, device))
    {
      var sample := Sample(host, device);
      if cur.Some? && host - curStart < WINDOW {
        if Closer(sample, cur.value) {
          cur := Some(sample);
        }
      } else {
        prev := cur;
        cur := Some(sample);
        curStart := host;
      }
    }

    method InstantAt(device: nat) returns (host: int)
      requires cur.Some?
      ensures host == At(View(), device)
    {
      var best := cur.value;
      if prev.Some? && Closer(prev.value, best) {
        best := prev.value;
      }
      host := best.host + (device - best.device) * 1000;
    }
  }

  // ---- what the estimate keeps of a history of samples ----

  function After(history: seq<Sample>): (c: Clock)
    ensures c.cur.Some? <==> history != []
  {
    if history == [] then EMPTY else Add(After(history[..|history| - 1]), history[|history| - 1])
  }

  /** Where the current and the previous group of samples begin: a sample opens a new group when none is
      open or the open one is a window old. */
  function Groups(history: seq<Sample>): (r: (nat, nat))
    ensures r.0 <= r.1 <= |history|
    ensures history != [] ==> r.1 < |history|
  {
    if history == [] then (0, 0)
    else
      var before, last := history[..|history| - 1], history[|history| - 1];
      var (prev, cur) := Groups(before);
      if before != [] && last.host - history[cur].host < WINDOW then (prev, cur) else (cur, |before|)
  }

  ghost predicate Least(s: Sample, group: seq<Sample>) {
    s in group && forall i :: 0 <= i < |group| ==> Offset(s) <= Offset(group[i])
  }

  lemma LeastExtends(s: Sample, group: seq<Sample>, next: Sample)
    requires Least(s, group)
    ensures Least(if Closer(next, s) then next else s, group + [next])
  {
    var longer := group + [next];
    assert longer[|group|] == next;
    var i :| 0 <= i < |group| && group[i] == s;
    assert longer[i] == s;
  }

  /** cur is a least sample of the current group and prev one of the previous group. */
  ghost predicate Keeps(c: Clock, history: seq<Sample>, prev: nat, cur: nat)
    requires prev <= cur < |history|
  {
    && c.cur.Some? && Least(c.cur.value, history[cur..]) && c.curStart == history[cur].host
    && (c.prev.Some? <==> cur > 0)
    && (c.prev.Some? ==> Least(c.prev.value, history[prev..cur]))
  }

  /** A sample in the same window joins the current group. */
  lemma JoinsGroup(c: Clock, history: seq<Sample>, prev: nat, cur: nat, s: Sample)
    requires prev <= cur < |history| && Keeps(c, history, prev, cur) && s.host - history[cur].host < WINDOW
    ensures Keeps(Add(c, s), history + [s], prev, cur)
  {
    LeastExtends(c.cur.value, history[cur..], s);
    assert (history + [s])[cur..] == history[cur..] + [s];
    assert (history + [s])[prev..cur] == history[prev..cur];
  }

  /** A later one opens a new group. */
  lemma OpensGroup(c: Clock, history: seq<Sample>, prev: nat, cur: nat, s: Sample)
    requires prev <= cur < |history| && Keeps(c, history, prev, cur) && s.host - history[cur].host >= WINDOW
    ensures Keeps(Add(c, s), history + [s], cur, |history|)
  {
    assert (history + [s])[|history|..] == [s];
    assert (history + [s])[cur..|history|] == history[cur..];
  }

  /** Over any history the two samples kept are least samples of the current and the previous group. */
  lemma {:induction false} KeepsLeastSamples(history: seq<Sample>)
    requires history != []
    ensures var (prev, cur) := Groups(history); Keeps(After(history), history, prev, cur)
  {
    var before, last := history[..|history| - 1], history[|history| - 1];
    assert history == before + [last];
    if before == [] {
      assert history[0..] == [last];
    } else {
      KeepsLeastSamples(before);
      SampleAdded(before, last);
    }
  }

  lemma SampleAdded(before: seq<Sample>, s: Sample)
    requires before != [] && var (prev, cur) := Groups(before); Keeps(After(before), before, prev, cur)
    ensures var (prev, cur) := Groups(before + [s]); Keeps(After(before + [s]), before + [s], prev, cur)
  {
    var (prev, cur) := Groups(before);
    assert (before + [s])[..|before|] == before;
    if s.host - before[cur].host < WINDOW {
      JoinsGroup(After(before), before, prev, cur, s);
    } else {
      OpensGroup(After(before), before, prev, cur, s);
    }
  }

  /** The estimate is the one of a least sample among all samples of both groups. */
  lemma BestIsLeast(history: seq<Sample>)
    requires history != []
    ensures Least(Best(After(history)), history[Groups(history).0..])
  {
    KeepsLeastSamples(history);
    var (prev, cur) := Groups(history);
    var kept := history[prev..];
    assert kept == history[prev..cur] + history[cur..];
    var best := Best(After(history));
    assert best in kept;
    forall i | 0 <= i < |kept| ensures Offset(best) <= Offset(kept[i]) {
      if i < cur - prev {
        assert kept[i] == history[prev..cur][i];
      } else {
        assert kept[i] == history[cur..][i - (cur - prev)];
      }
    }
    if prev == cur {
      assert cur == 0;
    }
  }

  /** Sample i reached the host latency[i] after the device stamped it; the clocks differ by a constant. */
  ghost predicate Latencies(history: seq<Sample>, offset: int, latency: seq<nat>) {
    |latency| == |history| && forall i :: 0 <= i < |history| ==> Offset(history[i]) == offset + latency[i]
  }

  /** Without drift, the estimate of any device time is late by exactly the latency of one sample k of the
      current and previous groups, the smallest there; as latencies are not negative, it is never early. */
  lemma NeverEarly(history: seq<Sample>, offset: int, latency: seq<nat>, device: nat) returns (k: nat)
    requires history != [] && Latencies(history, offset, latency)
    ensures Groups(history).0 <= k < |history|
    ensures At(After(history), device) == device * 1000 + offset + latency[k]
    ensures forall i :: Groups(history).0 <= i < |history| ==> latency[k] <= latency[i]
  {
    BestIsLeast(history);
    var first := Groups(history).0;
    var best, kept := Best(After(history)), history[first..];
    var j :| 0 <= j < |kept| && kept[j] == best;
    k := first + j;
    forall i | first <= i < |history| ensures latency[k] <= latency[i] {
      assert kept[i - first] == history[i] && Offset(history[i]) == offset + latency[i];
    }
  }
}
