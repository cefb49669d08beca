/** Walking through edge events: what it means that queued events lead from one level of a pin to
    another without a gap or a repeat. */
module Replay {
  import opened Protocol
  import opened EventQueue
  import opened EngineSpec

  /** The events of pin n in q strictly alternate, the first negates cur, and they end at fin. */
  predicate Alternates(cur: bool, q: seq<EdgeEvent>, n: nat, fin: bool)
    decreases |q|
  {
    if q == [] then cur == fin
    else if q[0].gpio == n then q[0].level != cur && Alternates(q[0].level, q[1..], n, fin)
    else Alternates(cur, q[1..], n, fin)
  }

  function LevelAfter(cur: bool, q: seq<EdgeEvent>, n: nat): bool
    decreases |q|
  {
    if q == [] then cur else LevelAfter(if q[0].gpio == n then q[0].level else cur, q[1..], n)
  }

  lemma {:induction false} ReflectLevel(levels: set<nat>, q: seq<EdgeEvent>, n: nat)
    ensures n in Reflect(levels, q) <==> LevelAfter(n in levels, q, n)
    decreases |q|
  {
    if q != [] {
      ReflectLevel(WithBit(levels, q[0].gpio, q[0].level), q[1..], n);
    }
  }

  lemma {:induction false} AlternatesAppend(cur: bool, q: seq<EdgeEvent>, n: nat, fin: bool, e: EdgeEvent)
    requires Alternates(cur, q, n, fin)
    ensures e.gpio == n && e.level == !fin ==> Alternates(cur, q + [e], n, !fin)
    ensures e.gpio != n ==> Alternates(cur, q + [e], n, fin)
    decreases |q|
  {
    if q != [] {
      AlternatesAppend(if q[0].gpio == n then q[0].level else cur, q[1..], n, fin, e);
      assert (q + [e])[1..] == q[1..] + [e];
    } else {
      assert (q + [e])[1..] == [];
    }
  }

  /** A batch taken from the front ends at the level the rest starts from. */
  lemma {:induction false} AlternatesSplit(cur: bool, q: seq<EdgeEvent>, k: nat, n: nat, fin: bool)
    requires k <= |q| && Alternates(cur, q, n, fin)
    ensures var mid := LevelAfter(cur, q[..k], n);
      Alternates(cur, q[..k], n, mid) && Alternates(mid, q[k..], n, fin)
    decreases |q|
  {
    if k == 0 {
      assert q[..0] == [] && q[0..] == q;
    } else {
      AlternatesSplit(if q[0].gpio == n then q[0].level else cur, q[1..], k - 1, n, fin);
      assert q[..k][1..] == q[1..][..k - 1] && q[k..] == q[1..][k - 1..];
    }
  }

  lemma {:induction false} AlternatesAbsent(cur: bool, q: seq<EdgeEvent>, n: nat)
    requires !HasEvent(q, n)
    ensures Alternates(cur, q, n, cur)
    decreases |q|
  {
    if q != [] {
      assert q[0].gpio != n && forall i :: 0 <= i < |q| - 1 ==> q[1..][i] == q[i + 1];
      AlternatesAbsent(cur, q[1..], n);
    }
  }

  /** What Alternates says about positions: neighbouring events of the pin carry opposite levels. */
  lemma {:induction false} AlternatesNeighbours(cur: bool, q: seq<EdgeEvent>, n: nat, fin: bool, i: nat, j: nat)
    requires Alternates(cur, q, n, fin) && i < j < |q| && q[i].gpio == n && q[j].gpio == n
    requires forall m :: i < m < j ==> q[m].gpio != n
    ensures q[j].level == !q[i].level
    decreases |q|
  {
    if i > 0 {
      AlternatesNeighbours(if q[0].gpio == n then q[0].level else cur, q[1..], n, fin, i - 1, j - 1);
    } else {
      FirstOfPin(q[0].level, q[1..], n, fin, j - 1);
    }
  }

  lemma {:induction false} FirstOfPin(cur: bool, q: seq<EdgeEvent>, n: nat, fin: bool, j: nat)
    requires Alternates(cur, q, n, fin) && j < |q| && q[j].gpio == n
    requires forall m :: 0 <= m < j ==> q[m].gpio != n
    ensures q[j].level == !cur
    decreases |q|
  {
    if j > 0 {
      assert q[0].gpio != n;
      FirstOfPin(cur, q[1..], n, fin, j - 1);
    }
  }
}
