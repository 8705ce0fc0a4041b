/**
  The names handoffs are delivered under: what sorting them sorts, and when no
  two of them are alike.
 */
module FileNames {
  import opened Bytes
  import opened Contracts
  import opened Handoffs

  const DASH: Byte := 45
  const TEN_DIGITS: nat := 10_000_000_000

  function Zeros(n: nat): seq<Byte> {
    seq(n, _ => ZERO)
  }

  /** A number printed ten digits wide, zeros before it. */
  function Padded(n: nat): (d: seq<Byte>)
    ensures |d| >= 10 && forall i :: 0 <= i < |d| ==> IsDigit(d[i])
  {
    var d := Decimal(n);
    if |d| < 10 then Zeros(10 - |d|) + d else d
  }

  function Counted(h: Handoff, sequence: U64): seq<Byte> {
    Padded(sequence) + ([DASH] + h.transport + [DASH] + Name(h.contract))
  }

  function FileName(h: Handoff, sequence: U64): seq<Byte> {
    Padded(h.round) + ([DASH] + (h.from + [DASH] + Counted(h, sequence)))
  }

  /** How names sort: byte by byte, a name before the longer ones it starts. */
  predicate Less(a: seq<Byte>, b: seq<Byte>) {
    b != [] && (a == [] || a[0] < b[0] || (a[0] == b[0] && Less(a[1..], b[1..])))
  }

  /** What a name ends in once its handoff is whole. */
  const READY: seq<Byte> := [46, 104, 97, 110, 100, 111, 102, 102]

  predicate SortsBefore(a: seq<Byte>, b: seq<Byte>) {
    Less(a + READY, b + READY)
  }

  function Power(k: nat): nat {
    if k == 0 then 1 else 10 * Power(k - 1)
  }

  lemma {:induction false} DecimalWidth(n: nat, k: nat)
    requires k >= 1 && n < Power(k)
    ensures |Decimal(n)| <= k
  {
    if n >= 10 { DecimalWidth(n / 10, k - 1); }
  }

  lemma {:induction false} ZerosBefore(k: nat, d: seq<Byte>)
    requires forall i :: 0 <= i < |d| ==> IsDigit(d[i])
    ensures Value(Zeros(k) + d) == Value(d)
    decreases k + |d|
  {
    var s := Zeros(k) + d;
    if d != [] {
      ZerosBefore(k, d[..|d| - 1]);
      assert s[..|s| - 1] == Zeros(k) + d[..|d| - 1];
    } else if k > 0 {
      ZerosBefore(k - 1, []);
      assert s[..|s| - 1] == Zeros(k - 1) + [];
    }
  }

  /** What fits ten digits is printed as exactly ten, and reads back. */
  lemma PaddedFits(n: nat)
    requires n < TEN_DIGITS
    ensures |Padded(n)| == 10 && Value(Padded(n)) == n
  {
    assert Power(10) == TEN_DIGITS by {
      assert Power(5) == 100_000;
      assert Power(10) == 10 * (10 * (10 * (10 * (10 * Power(5)))));
    }
    DecimalWidth(n, 10);
    DecimalValue(n);
    if |Decimal(n)| < 10 { ZerosBefore(10 - |Decimal(n)|, Decimal(n)); }
  }

  /** Digit strings of one width that first differ at `k` differ in value the
      same way. */
  lemma {:induction false} FirstDigitDecides(p: seq<Byte>, q: seq<Byte>, k: nat)
    requires |p| == |q| && k < |p| && p[..k] == q[..k] && p[k] < q[k]
    requires forall i :: 0 <= i < |p| ==> IsDigit(p[i]) && IsDigit(q[i])
    ensures Value(p) < Value(q)
  {
    var n := |p| - 1;
    if k == n {
      assert p[..n] == q[..n];
    } else {
      assert p[..n][..k] == p[..k] && q[..n][..k] == q[..k];
      FirstDigitDecides(p[..n], q[..n], k);
      assert IsDigit(p[n]) && IsDigit(q[n]);
    }
  }

  /** Two names differ somewhere, or one starts the other: where they first differ
      says which is before. */
  ghost predicate FirstDiffer(a: seq<Byte>, b: seq<Byte>, k: nat) {
    k <= |a| && k < |b| && a[..k] == b[..k] && (k < |a| ==> a[k] < b[k])
  }

  lemma {:induction false} FirstDifferIsLess(a: seq<Byte>, b: seq<Byte>, k: nat)
    requires FirstDiffer(a, b, k)
    ensures Less(a, b)
  {
    if k > 0 {
      assert a[0] == a[..k][0] == b[..k][0] == b[0];
      assert a[1..][..k - 1] == a[..k][1..] && b[1..][..k - 1] == b[..k][1..];
      FirstDifferIsLess(a[1..], b[1..], k - 1);
    }
  }

  lemma {:induction false} LessFirstDiffers(a: seq<Byte>, b: seq<Byte>) returns (k: nat)
    requires Less(a, b)
    ensures FirstDiffer(a, b, k)
  {
    if a == [] || a[0] < b[0] {
      k := 0;
    } else {
      var rest := LessFirstDiffers(a[1..], b[1..]);
      k := rest + 1;
      assert a[..k] == [a[0]] + a[1..][..rest] && b[..k] == [b[0]] + b[1..][..rest];
    }
  }

  /** A name is before another exactly where they first differ it is smaller. */
  lemma LessExactly(a: seq<Byte>, b: seq<Byte>)
    ensures Less(a, b) <==> exists k: nat :: FirstDiffer(a, b, k)
  {
    if Less(a, b) {
      var k := LessFirstDiffers(a, b);
    }
    if exists k: nat :: FirstDiffer(a, b, k) {
      var k: nat :| FirstDiffer(a, b, k);
      FirstDifferIsLess(a, b, k);
    }
  }

  lemma {:induction false} LessIsOneWay(a: seq<Byte>, b: seq<Byte>)
    requires Less(a, b)
    ensures !Less(b, a)
  {
    if a != [] && a[0] == b[0] { LessIsOneWay(a[1..], b[1..]); }
  }

  /** Of two different numbers of one width the smaller is before, whatever follows. */
  lemma SmallerIsBefore(p: seq<Byte>, x: seq<Byte>, q: seq<Byte>, y: seq<Byte>)
    requires |p| == |q| && (forall i :: 0 <= i < |p| ==> IsDigit(p[i]) && IsDigit(q[i])) && Value(p) != Value(q)
    ensures Less(p + x, q + y) <==> Value(p) < Value(q)
  {
    var k := FirstDifference(p, q);
    assert (p + x)[..k] == p[..k] && (q + y)[..k] == q[..k];
    if p[k] < q[k] {
      FirstDigitDecides(p, q, k);
      assert FirstDiffer(p + x, q + y, k);
      FirstDifferIsLess(p + x, q + y, k);
    } else {
      FirstDigitDecides(q, p, k);
      assert FirstDiffer(q + y, p + x, k);
      FirstDifferIsLess(q + y, p + x, k);
      LessIsOneWay(q + y, p + x);
    }
  }

  lemma {:induction false} FirstDifference(p: seq<Byte>, q: seq<Byte>) returns (k: nat)
    requires |p| == |q| && p != q
    ensures k < |p| && p[..k] == q[..k] && p[k] != q[k]
  {
    if p[0] != q[0] {
      k := 0;
    } else {
      assert p == [p[0]] + p[1..] && q == [q[0]] + q[1..];
      var rest := FirstDifference(p[1..], q[1..]);
      k := rest + 1;
      assert p[..k] == [p[0]] + p[1..][..rest] && q[..k] == [q[0]] + q[1..][..rest];
    }
  }

  /** Of two rounds that fit ten digits the earlier one's names are before. */
  lemma NamesSortByRound(h: Handoff, n: U64, g: Handoff, m: U64)
    requires h.round < TEN_DIGITS && g.round < TEN_DIGITS && h.round != g.round
    ensures SortsBefore(FileName(h, n), FileName(g, m)) <==> h.round < g.round
  {
    PaddedFits(h.round);
    PaddedFits(g.round);
    var x, y := [DASH] + (h.from + [DASH] + Counted(h, n)), [DASH] + (g.from + [DASH] + Counted(g, m));
    assert FileName(h, n) + READY == Padded(h.round) + (x + READY);
    assert FileName(g, m) + READY == Padded(g.round) + (y + READY);
    SmallerIsBefore(Padded(h.round), x + READY, Padded(g.round), y + READY);
  }

  lemma {:induction false} SameStart(p: seq<Byte>, x: seq<Byte>, y: seq<Byte>)
    ensures Less(p + x, p + y) <==> Less(x, y)
  {
    if p == [] {
      assert p + x == x && p + y == y;
    } else {
      assert (p + x)[1..] == p[1..] + x && (p + y)[1..] == p[1..] + y;
      SameStart(p[1..], x, y);
    }
  }

  /** Within a round one sender's names stand in the order it sent them. */
  lemma NamesSortByCount(h: Handoff, n: U64, g: Handoff, m: U64)
    requires h.round == g.round && h.from == g.from && n < TEN_DIGITS && m < TEN_DIGITS && n != m
    ensures SortsBefore(FileName(h, n), FileName(g, m)) <==> n < m
  {
    PaddedFits(n);
    PaddedFits(m);
    NameIs(h, n);
    NameIs(g, m);
    SameStart(BeforeCount(h), Padded(n) + AfterCount(h), Padded(m) + AfterCount(g));
    SmallerIsBefore(Padded(n), AfterCount(h), Padded(m), AfterCount(g));
  }

  function BeforeCount(h: Handoff): seq<Byte> {
    Padded(h.round) + ([DASH] + (h.from + [DASH]))
  }

  function AfterCount(h: Handoff): seq<Byte> {
    [DASH] + h.transport + [DASH] + Name(h.contract) + READY
  }

  lemma NameIs(h: Handoff, n: U64)
    ensures FileName(h, n) + READY == BeforeCount(h) + (Padded(n) + AfterCount(h))
  {
    assert Counted(h, n) + READY == Padded(n) + AfterCount(h);
    assert FileName(h, n) == BeforeCount(h) + Counted(h, n);
  }

  /** Two senders one of whose names, dash and all, does not start the other. */
  predicate Apart(one: seq<Byte>, other: seq<Byte>) {
    one == other || (!(one + [DASH] <= other) && !(other + [DASH] <= one))
  }

  lemma ShorterStarts(f: seq<Byte>, x: seq<Byte>, g: seq<Byte>, y: seq<Byte>)
    requires |f| < |g| && f + [DASH] + x == g + [DASH] + y
    ensures f + [DASH] <= g
  {
    var a, b := f + [DASH] + x, g + [DASH] + y;
    assert f + [DASH] == a[..|f| + 1] == b[..|f| + 1] == g[..|f| + 1];
  }

  lemma SenderTold(f: seq<Byte>, x: seq<Byte>, g: seq<Byte>, y: seq<Byte>)
    requires Apart(f, g) && f + [DASH] + x == g + [DASH] + y
    ensures f == g && x == y
  {
    if |f| < |g| {
      ShorterStarts(f, x, g, y);
    } else if |g| < |f| {
      ShorterStarts(g, y, f, x);
    } else {
      SameWidth(f + [DASH], x, g + [DASH], y);
      SameWidth(f, [DASH], g, [DASH]);
    }
  }

  lemma SameWidth(p: seq<Byte>, x: seq<Byte>, q: seq<Byte>, y: seq<Byte>)
    requires |p| == |q| && p + x == q + y
    ensures p == q && x == y
  {
    assert p == (p + x)[..|p|] == (q + y)[..|p|] == q;
    assert x == (p + x)[|p|..] == (q + y)[|p|..] == y;
  }

  lemma PaddedTells(n: nat, m: nat)
    requires n < TEN_DIGITS && m < TEN_DIGITS && Padded(n) == Padded(m)
    ensures n == m
  {
    PaddedFits(n);
    PaddedFits(m);
  }

  function Pair(h: Handoff): seq<Byte> {
    h.transport + [DASH] + Name(h.contract)
  }

  lemma CountedIs(h: Handoff, n: U64)
    ensures Counted(h, n) == Padded(n) + ([DASH] + Pair(h))
  {
    assert [DASH] + h.transport + [DASH] + Name(h.contract) == [DASH] + Pair(h);
  }

  lemma CountedTells(h: Handoff, n: U64, g: Handoff, m: U64)
    requires n < TEN_DIGITS && m < TEN_DIGITS && Counted(h, n) == Counted(g, m)
    ensures n == m && Pair(h) == Pair(g)
  {
    PaddedFits(n);
    PaddedFits(m);
    CountedIs(h, n);
    CountedIs(g, m);
    SameWidth(Padded(n), [DASH] + Pair(h), Padded(m), [DASH] + Pair(g));
    SameWidth([DASH], Pair(h), [DASH], Pair(g));
    PaddedTells(n, m);
  }

  lemma PairTells(h: Handoff, g: Handoff)
    requires Apart(h.transport, g.transport) && Pair(h) == Pair(g)
    ensures h.transport == g.transport && h.contract == g.contract
  {
    SenderTold(h.transport, Name(h.contract), g.transport, Name(g.contract));
    NamesDiffer(h.contract, g.contract);
  }

  /** A name tells its round, its sender and its sequence: with senders apart and
      numbers that fit ten digits, names are alike only from one sender's one count.
      With transports apart it tells its pair too. */
  lemma NamesTellSenders(h: Handoff, n: U64, g: Handoff, m: U64)
    requires Apart(h.from, g.from) && FileName(h, n) == FileName(g, m)
    requires h.round < TEN_DIGITS && g.round < TEN_DIGITS && n < TEN_DIGITS && m < TEN_DIGITS
    ensures h.round == g.round && h.from == g.from && n == m
    ensures Apart(h.transport, g.transport) ==> h.transport == g.transport && h.contract == g.contract
  {
    PaddedFits(h.round);
    PaddedFits(g.round);
    var a, b := h.from + [DASH] + Counted(h, n), g.from + [DASH] + Counted(g, m);
    SameWidth(Padded(h.round), [DASH] + a, Padded(g.round), [DASH] + b);
    PaddedTells(h.round, g.round);
    SameWidth([DASH], a, [DASH], b);
    SenderTold(h.from, Counted(h, n), g.from, Counted(g, m));
    CountedTells(h, n, g, m);
    if Apart(h.transport, g.transport) { PairTells(h, g); }
  }
}
