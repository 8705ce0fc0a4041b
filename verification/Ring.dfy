/**
  The ring of recent latencies a pair keeps, its percentiles, and the health they
  come to against the pair's budget.
 */
module Rings {
  import opened Tallies

  const RING: nat := 256

  /** The last `RING` of a history, or all of it. */
  function Last(history: seq<nat>): (last: seq<nat>)
    ensures |last| <= RING
  {
    if |history| <= RING then history else history[|history| - RING..]
  }

  /** The ring read from its oldest sample on is the last of what was recorded. */
  ghost predicate Holds(samples: seq<nat>, next: nat, history: seq<nat>) {
    && next < RING && |samples| == |Last(history)|
    && (|samples| < RING ==> next == 0)
    && (next <= |samples| && samples[next..] + samples[..next] == Last(history))
  }

  class Ring {
    var samples: seq<nat>
    var next: nat
    ghost var history: seq<nat>

    ghost predicate Valid()
      reads this
    {
      Holds(samples, next, history)
    }

    constructor ()
      ensures Valid() && history == []
    {
      samples, next, history := [], 0, [];
    }

    method Record(micros: nat)
      requires Valid()
      modifies this
      ensures Valid() && history == old(history) + [micros]
    {
      if |samples| < RING {
        samples := samples + [micros];
      } else {
        Overwrites(samples, next, history, micros);
        samples := samples[next := micros];
        next := (next + 1) % RING;
      }
      history := history + [micros];
    }

    /** The `p`-th percentile of what is held; nothing held is zero. */
    method Percentile(p: nat) returns (value: nat)
      requires p <= 100
      ensures samples == [] ==> value == 0
      ensures samples != [] ==> value == PercentileOf(samples, p) && IsPercentile(samples, p, value)
    {
      if samples == [] {
        return 0;
      }
      var sorted := Sorted(samples);
      SortedIs(samples);
      RankIs(p, |samples|);
      value := sorted[Rank(p, |samples|)];
      PercentileIs(samples, p);
    }
  }

  lemma Overwrites(samples: seq<nat>, next: nat, history: seq<nat>, x: nat)
    requires Holds(samples, next, history) && |samples| == RING
    ensures Holds(samples[next := x], (next + 1) % RING, history + [x])
  {
    var samples' := samples[next := x];
    var all := history + [x];
    assert |history| >= RING;
    assert Last(all) == Last(history)[1..] + [x];
    if next + 1 < RING {
      assert samples'[next + 1..] == samples[next..][1..];
      assert samples'[..next + 1] == samples[..next] + [x];
    } else {
      assert samples' == samples[..next] + [x];
    }
  }

  /** The ring's contents, whatever their order, are the last samples recorded. */
  lemma RingIsTheLast(samples: seq<nat>, next: nat, history: seq<nat>)
    requires Holds(samples, next, history)
    ensures multiset(samples) == multiset(Last(history))
    ensures |samples| == if |history| < 256 then |history| else 256
  {
    assert samples == samples[..next] + samples[next..];
    assert multiset(samples) == multiset(samples[next..] + samples[..next]);
  }

  // Percentiles.

  ghost predicate Ordered(s: seq<nat>) {
    forall i, j :: 0 <= i <= j < |s| ==> s[i] <= s[j]
  }

  function Insert(s: seq<nat>, x: nat): seq<nat> {
    if s == [] || x <= s[0] then [x] + s else [s[0]] + Insert(s[1..], x)
  }

  function Sorted(s: seq<nat>): seq<nat> {
    if s == [] then [] else Insert(Sorted(s[1..]), s[0])
  }

  lemma OrderedCons(x: nat, s: seq<nat>)
    requires Ordered(s) && (s == [] || x <= s[0])
    ensures Ordered([x] + s)
  {
  }

  lemma {:induction false} InsertOrders(s: seq<nat>, x: nat)
    requires Ordered(s)
    ensures Ordered(Insert(s, x)) && Insert(s, x)[0] == if s == [] || x <= s[0] then x else s[0]
  {
    if s == [] || x <= s[0] {
      OrderedCons(x, s);
    } else {
      InsertOrders(s[1..], x);
      OrderedCons(s[0], Insert(s[1..], x));
    }
  }

  lemma {:induction false} InsertKeeps(s: seq<nat>, x: nat)
    ensures |Insert(s, x)| == |s| + 1 && multiset(Insert(s, x)) == multiset(s) + multiset{x}
  {
    if s != [] && x > s[0] {
      InsertKeeps(s[1..], x);
      assert s == [s[0]] + s[1..];
    }
  }

  lemma {:induction false} SortedIs(s: seq<nat>)
    ensures Ordered(Sorted(s)) && |Sorted(s)| == |s| && multiset(Sorted(s)) == multiset(s)
  {
    if s != [] {
      SortedIs(s[1..]);
      InsertOrders(Sorted(s[1..]), s[0]);
      InsertKeeps(Sorted(s[1..]), s[0]);
      assert s == [s[0]] + s[1..];
    }
  }

  function Rank(p: nat, n: nat): nat
    requires n > 0
  {
    (p * (n - 1)) / 100
  }

  lemma RankIs(p: nat, n: nat)
    requires n > 0 && p <= 100
    ensures Rank(p, n) < n
  {
    Times(p, 100, n - 1);
  }

  lemma RankGrows(p: nat, q: nat, n: nat)
    requires n > 0 && p <= q
    ensures Rank(p, n) <= Rank(q, n)
  {
    Times(p, q, n - 1);
  }

  lemma Times(p: nat, q: nat, m: nat)
    requires p <= q
    ensures p * m <= q * m
  {
  }

  function PercentileOf(samples: seq<nat>, p: nat): nat
    requires samples != [] && p <= 100
  {
    SortedIs(samples);
    RankIs(p, |samples|);
    Sorted(samples)[Rank(p, |samples|)]
  }

  /** How many samples are within a limit. */
  function Within(s: seq<nat>, limit: nat): nat {
    if s == [] then 0 else Within(s[1..], limit) + if s[0] <= limit then 1 else 0
  }

  lemma {:induction false} InsertWithin(s: seq<nat>, x: nat, limit: nat)
    ensures Within(Insert(s, x), limit) == Within(s, limit) + if x <= limit then 1 else 0
  {
    if s != [] && x > s[0] {
      InsertWithin(s[1..], x, limit);
    }
  }

  lemma {:induction false} SortedWithin(s: seq<nat>, limit: nat)
    ensures Within(Sorted(s), limit) == Within(s, limit)
  {
    if s != [] {
      SortedWithin(s[1..], limit);
      InsertWithin(Sorted(s[1..]), s[0], limit);
    }
  }

  /** In an ordered sequence the samples within a limit are the first ones. */
  lemma {:induction false} OrderedWithin(s: seq<nat>, rank: nat, limit: nat)
    requires Ordered(s) && rank < |s|
    ensures s[rank] <= limit <==> rank < Within(s, limit)
  {
    if rank > 0 {
      OrderedWithin(s[1..], rank - 1, limit);
      assert s[0] <= s[rank];
      if s[0] > limit { NoneWithin(s[1..], limit); }
    } else if s[0] > limit {
      NoneWithin(s[1..], limit);
    }
  }

  lemma {:induction false} NoneWithin(s: seq<nat>, limit: nat)
    requires forall i :: 0 <= i < |s| ==> s[i] > limit
    ensures Within(s, limit) == 0
  {
    if s != [] { NoneWithin(s[1..], limit); }
  }

  /** A held sample, within a limit exactly when more than `p` in a hundred of the
      others are: one value and no other. */
  ghost predicate IsPercentile(samples: seq<nat>, p: nat, value: nat) {
    && value in samples
    && forall limit: nat :: value <= limit <==> p * (|samples| - 1) < 100 * Within(samples, limit)
  }

  lemma HundredthsBelow(x: nat, n: nat)
    ensures x / 100 < n <==> x < 100 * n
  {
  }

  lemma PercentileWithin(samples: seq<nat>, p: nat, limit: nat)
    requires samples != [] && p <= 100
    ensures PercentileOf(samples, p) <= limit <==> p * (|samples| - 1) < 100 * Within(samples, limit)
  {
    SortedIs(samples);
    RankIs(p, |samples|);
    SortedWithin(samples, limit);
    OrderedWithin(Sorted(samples), Rank(p, |samples|), limit);
    HundredthsBelow(p * (|samples| - 1), Within(samples, limit));
  }

  /** A percentile is an order statistic, told by counting and not by any rank. */
  lemma PercentileIs(samples: seq<nat>, p: nat)
    requires samples != [] && p <= 100
    ensures IsPercentile(samples, p, PercentileOf(samples, p))
  {
    SortedIs(samples);
    RankIs(p, |samples|);
    assert PercentileOf(samples, p) in multiset(Sorted(samples));
    forall limit: nat ensures PercentileOf(samples, p) <= limit <==> p * (|samples| - 1) < 100 * Within(samples, limit) {
      PercentileWithin(samples, p, limit);
    }
  }

  lemma PercentileGrows(samples: seq<nat>, p: nat, q: nat)
    requires samples != [] && p <= q <= 100
    ensures PercentileOf(samples, p) <= PercentileOf(samples, q)
  {
    SortedIs(samples);
    RankGrows(p, q, |samples|);
    RankIs(q, |samples|);
  }

  lemma {:induction false} WithinJoin(s: seq<nat>, t: seq<nat>, limit: nat)
    ensures Within(s + t, limit) == Within(s, limit) + Within(t, limit)
  {
    if s == [] {
      assert s + t == t;
    } else {
      WithinJoin(s[1..], t, limit);
      assert (s + t)[1..] == s[1..] + t;
    }
  }

  /** Only what is held decides, not where in the ring it lies. */
  lemma WithinTheRing(samples: seq<nat>, next: nat, history: seq<nat>, limit: nat)
    requires Holds(samples, next, history)
    ensures Within(samples, limit) == Within(Last(history), limit)
  {
    assert samples == samples[..next] + samples[next..];
    WithinJoin(samples[..next], samples[next..], limit);
    WithinJoin(samples[next..], samples[..next], limit);
  }

  /** The health of a pair from its ring: warming up, or by its percentile. */
  function HealthOf(samples: seq<nat>, budget: nat): (Health, nat) {
    if samples == [] then (Fine, 0)
    else
      var p99 := PercentileOf(samples, 99);
      if p99 <= budget then (Fine, 0) else if p99 <= budget * 2 then (Stressed, 45) else (Done, 90)
  }

  /** More than ninety-nine in a hundred of the others are within a limit. */
  predicate MostWithin(samples: seq<nat>, limit: nat) {
    99 * (|samples| - 1) < 100 * Within(samples, limit)
  }

  /** A pair's health is how many of its last samples are within one budget and
      within two. */
  lemma HealthIsByCount(samples: seq<nat>, next: nat, history: seq<nat>, budget: nat)
    requires Holds(samples, next, history)
    ensures var last := Last(history);
            HealthOf(samples, budget) ==
              if last == [] || MostWithin(last, budget) then (Fine, 0)
              else if MostWithin(last, 2 * budget) then (Stressed, 45)
              else (Done, 90)
  {
    if samples != [] {
      PercentileWithin(samples, 99, budget);
      PercentileWithin(samples, 99, budget * 2);
      WithinTheRing(samples, next, history, budget);
      WithinTheRing(samples, next, history, budget * 2);
    }
  }
}
