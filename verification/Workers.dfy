/**
  The slice of the matrix a round drives and the cursor that rotates under it,
  and the driver that judges items from several threads at once.
 */
module Workers {
  import opened Options

  /** A round's part of the pairs: as many as its bound allows, going round from
      the cursor, or all when it has none. */
  function Slice<T>(pairs: seq<T>, cursor: nat, count: Option<nat>): seq<T> {
    if count.None? then pairs
    else if pairs == [] then []
    else
      var n := if count.value < |pairs| then count.value else |pairs|;
      seq(n, step requires 0 <= step < n => pairs[(cursor + step) % |pairs|])
  }

  /** The cursor after a round drove `driven` of `pairs`. */
  function Advanced<T>(pairs: seq<T>, cursor: nat, driven: nat): nat {
    (cursor + driven) % (if pairs == [] then 1 else |pairs|)
  }

  /** The cursor before round `t`, and everything driven before it, in order. */
  function Cursor<T>(pairs: seq<T>, k: nat, t: nat): nat {
    if t == 0 then 0
    else Advanced(pairs, Cursor(pairs, k, t - 1), |Slice(pairs, Cursor(pairs, k, t - 1), Some(k))|)
  }

  function Driven<T>(pairs: seq<T>, k: nat, t: nat): seq<T> {
    if t == 0 then [] else Driven(pairs, k, t - 1) + Slice(pairs, Cursor(pairs, k, t - 1), Some(k))
  }

  function PerRound<T>(pairs: seq<T>, k: nat): nat {
    if k < |pairs| then k else |pairs|
  }

  lemma {:induction false} AtLeastOne(m: nat, d: nat)
    requires d >= 1
    ensures m * d >= m
  {
    if d > 1 {
      AtLeastOne(m, d - 1);
      assert m * d == m * (d - 1) + m;
    }
  }

  lemma SameQuotient(m: nat, q: nat, r: nat, p: nat, s: nat)
    requires r < m && s < m && m * q + r == m * p + s
    ensures q <= p
  {
    if q > p {
      assert m * q == m * p + m * (q - p);
      AtLeastOne(m, q - p);
    }
  }

  lemma ModUnique(a: nat, m: nat, q: nat, r: nat)
    requires r < m && a == m * q + r
    ensures a % m == r && a / m == q
  {
    var p, s := a / m, a % m;
    assert a == m * p + s;
    SameQuotient(m, q, r, p, s);
    SameQuotient(m, p, s, q, r);
  }

  lemma ModAdd(a: nat, b: nat, m: nat)
    requires m > 0
    ensures (a % m + b) % m == (a + b) % m
  {
    var c := a % m + b;
    assert a + b == m * (a / m + c / m) + c % m by {
      assert a == m * (a / m) + a % m && c == m * (c / m) + c % m;
      assert m * (a / m + c / m) == m * (a / m) + m * (c / m);
    }
    ModUnique(a + b, m, a / m + c / m, c % m);
  }

  lemma ModNext(n: nat, m: nat)
    requires m > 0
    ensures if n % m + 1 < m then (n + 1) / m == n / m && (n + 1) % m == n % m + 1
            else (n + 1) / m == n / m + 1 && (n + 1) % m == 0
  {
    var q, r := n / m, n % m;
    assert n == m * q + r;
    if r + 1 < m {
      ModUnique(n + 1, m, q, r + 1);
    } else {
      assert m * (q + 1) == m * q + m;
      ModUnique(n + 1, m, q + 1, 0);
    }
  }

  lemma ModDiffers(a: nat, d: nat, m: nat)
    requires 0 < d < m
    ensures (a + d) % m != a % m
  {
    var q, r := a / m, a % m;
    assert a == m * q + r;
    if r + d < m {
      ModUnique(a + d, m, q, r + d);
    } else {
      assert m * (q + 1) == m * q + m;
      ModUnique(a + d, m, q + 1, r + d - m);
    }
  }

  lemma AdvancedFollows<T>(pairs: seq<T>, cursor: nat, before: nat, driven: nat)
    requires pairs != [] && cursor == before % |pairs|
    ensures Advanced(pairs, cursor, driven) == (before + driven) % |pairs|
  {
    ModAdd(before, driven, |pairs|);
  }

  lemma {:induction false} CursorFollows<T>(pairs: seq<T>, k: nat, t: nat)
    requires pairs != []
    ensures Cursor(pairs, k, t) == |Driven(pairs, k, t)| % |pairs|
  {
    if t > 0 {
      CursorFollows(pairs, k, t - 1);
      var slice := Slice(pairs, Cursor(pairs, k, t - 1), Some(k));
      AdvancedFollows(pairs, Cursor(pairs, k, t - 1), |Driven(pairs, k, t - 1)|, |slice|);
      assert |Driven(pairs, k, t)| == |Driven(pairs, k, t - 1)| + |slice|;
    }
  }

  /** The first `n` of `pairs` repeated from its start, with no gap and no overlap. */
  function Around<T>(pairs: seq<T>, n: nat): seq<T>
    requires pairs != []
  {
    seq(n, i requires 0 <= i < n => pairs[i % |pairs|])
  }

  ghost predicate Repeats<T>(pairs: seq<T>, s: seq<T>)
    requires pairs != []
  {
    s == Around(pairs, |s|)
  }

  /** The rounds go round: the whole history is the share repeated. */
  lemma {:induction false} GoesRound<T>(pairs: seq<T>, k: nat, t: nat)
    requires pairs != []
    ensures Repeats(pairs, Driven(pairs, k, t))
  {
    if t > 0 {
      GoesRound(pairs, k, t - 1);
      RoundContinues(pairs, k, t, Driven(pairs, k, t - 1));
    }
  }

  lemma DrivenNext<T>(pairs: seq<T>, k: nat, t: nat)
    requires t > 0
    ensures Driven(pairs, k, t) == Driven(pairs, k, t - 1) + Slice(pairs, Cursor(pairs, k, t - 1), Some(k))
  {
  }

  lemma RoundContinues<T>(pairs: seq<T>, k: nat, t: nat, driven: seq<T>)
    requires pairs != [] && t > 0 && driven == Driven(pairs, k, t - 1) && Repeats(pairs, driven)
    ensures Repeats(pairs, Driven(pairs, k, t))
  {
    CursorFollows(pairs, k, t - 1);
    SliceContinues(pairs, driven, k, Cursor(pairs, k, t - 1));
    DrivenNext(pairs, k, t);
  }

  lemma OneTimesMore(t: nat, c: nat)
    requires t > 0
    ensures t * c == (t - 1) * c + c
  {
  }

  lemma {:induction false} DrivenLength<T>(pairs: seq<T>, k: nat, t: nat)
    ensures |Driven(pairs, k, t)| == t * PerRound(pairs, k)
  {
    if t > 0 {
      DrivenLength(pairs, k, t - 1);
      OneTimesMore(t, PerRound(pairs, k));
    }
  }

  lemma SliceContinues<T>(pairs: seq<T>, driven: seq<T>, k: nat, cursor: nat)
    requires pairs != [] && cursor == |driven| % |pairs| && Repeats(pairs, driven)
    ensures Repeats(pairs, driven + Slice(pairs, cursor, Some(k)))
  {
    var slice := Slice(pairs, cursor, Some(k));
    forall step | 0 <= step < |slice| ensures slice[step] == pairs[(|driven| + step) % |pairs|] {
      ModAdd(|driven|, step, |pairs|);
    }
    Continues(pairs, driven, slice);
  }

  lemma Continues<T>(pairs: seq<T>, driven: seq<T>, slice: seq<T>)
    requires pairs != [] && Repeats(pairs, driven)
    requires forall step :: 0 <= step < |slice| ==> slice[step] == pairs[(|driven| + step) % |pairs|]
    ensures Repeats(pairs, driven + slice)
  {
    var all := driven + slice;
    forall i | 0 <= i < |all| ensures all[i] == pairs[i % |pairs|] {
      if i < |driven| {
        assert all[i] == Around(pairs, |driven|)[i];
      } else {
        assert all[i] == slice[i - |driven|];
      }
    }
  }

  function Occurrences<T(==)>(s: seq<T>, x: T): nat {
    if s == [] then 0 else Occurrences(s[..|s| - 1], x) + if s[|s| - 1] == x then 1 else 0
  }

  ghost predicate AllDifferent<T>(s: seq<T>) {
    forall i, j :: 0 <= i < j < |s| ==> s[i] != s[j]
  }

  /** How often place `j` comes up in the first `n` of a share going round. */
  lemma {:induction false} RoundCount<T>(pairs: seq<T>, s: seq<T>, j: nat)
    requires j < |pairs| && AllDifferent(pairs) && Repeats(pairs, s)
    ensures Occurrences(s, pairs[j]) == |s| / |pairs| + if j < |s| % |pairs| then 1 else 0
  {
    var m := |pairs|;
    if s == [] {
      ModUnique(0, m, 0, 0);
    } else {
      var n := |s| - 1;
      assert s[..n] == Around(pairs, n);
      RoundCount(pairs, s[..n], j);
      ModNext(n, m);
      assert s[n] == pairs[n % m];
      assert s[n] == pairs[j] <==> n % m == j;
    }
  }

  /** Fair rotation: after `t` rounds every pair of a share has been driven the
      average number of times, rounded down or up. */
  lemma Fair<T>(pairs: seq<T>, k: nat, t: nat, j: nat)
    requires j < |pairs| && AllDifferent(pairs)
    ensures var total := t * PerRound(pairs, k);
            Occurrences(Driven(pairs, k, t), pairs[j]) ==
              total / |pairs| + if j < total % |pairs| then 1 else 0
  {
    GoesRound(pairs, k, t);
    DrivenLength(pairs, k, t);
    RoundCount(pairs, Driven(pairs, k, t), j);
  }

  lemma DifferentPlaces(cursor: nat, i: nat, j: nat, m: nat)
    requires i < j < m
    ensures (cursor + i) % m != (cursor + j) % m
  {
    ModDiffers(cursor + i, j - i, m);
  }

  /** And never twice in one round. */
  lemma NeverTwice<T>(pairs: seq<T>, k: nat, cursor: nat)
    requires AllDifferent(pairs)
    ensures AllDifferent(Slice(pairs, cursor, Some(k)))
  {
    var slice := Slice(pairs, cursor, Some(k));
    forall i, j | 0 <= i < j < |slice| ensures slice[i] != slice[j] {
      DifferentPlaces(cursor, i, j, |pairs|);
    }
  }

  /** A round with no bound, or with one the pairs fit, drives each of them as often
      as it stands there, from wherever the cursor is. */
  lemma WholeRound<T>(pairs: seq<T>, cursor: nat, count: Option<nat>)
    requires count.None? || count.value >= |pairs|
    ensures multiset(Slice(pairs, cursor, count)) == multiset(pairs)
  {
    if count.Some? && pairs != [] {
      var m, at := |pairs|, cursor % |pairs|;
      var slice := Slice(pairs, cursor, count);
      forall step | 0 <= step < m ensures slice[step] == (pairs[at..] + pairs[..at])[step] {
        ModAdd(cursor, step, m);
        if at + step < m { ModUnique(at + step, m, 0, at + step); } else { ModUnique(at + step, m, 1, at + step - m); }
      }
      assert slice == pairs[at..] + pairs[..at];
      assert pairs == pairs[..at] + pairs[at..];
    }
  }
}
