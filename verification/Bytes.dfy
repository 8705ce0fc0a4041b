/**
  Bytes as files hold them: UTF-8 text, decimal numbers as they are printed and
  parsed, and splitting on a byte.
 */
module Bytes {
  import opened Options

  type Byte = n: int | 0 <= n < 256

  const SPACE: Byte := 32
  const NEWLINE: Byte := 10
  const PLUS: Byte := 43
  const ZERO: Byte := 48
  const TWO_64: nat := 0x1_0000_0000_0000_0000

  type U64 = n: nat | n < TWO_64

  predicate Continues(b: Byte) {
    0x80 <= b < 0xC0
  }

  /** How many bytes the scalar value `s` starts with takes; 0 when it starts
      with none. */
  function ScalarLength(s: seq<Byte>): (n: nat)
    requires s != []
    ensures n <= |s|
  {
    if s[0] < 0x80 then 1
    else if 0xC2 <= s[0] <= 0xDF && |s| >= 2 && Continues(s[1]) then 2
    else if 0xE0 <= s[0] <= 0xEF && |s| >= 3 && Continues(s[1]) && Continues(s[2])
            && (s[0] == 0xE0 ==> s[1] >= 0xA0) && (s[0] == 0xED ==> s[1] <= 0x9F) then 3
    else if 0xF0 <= s[0] <= 0xF4 && |s| >= 4 && Continues(s[1]) && Continues(s[2]) && Continues(s[3])
            && (s[0] == 0xF0 ==> s[1] >= 0x90) && (s[0] == 0xF4 ==> s[1] <= 0x8F) then 4
    else 0
  }

  predicate Utf8(s: seq<Byte>) {
    s == [] || (ScalarLength(s) > 0 && Utf8(s[ScalarLength(s)..]))
  }

  type Text = s: seq<Byte> | Utf8(s)

  lemma {:induction false} Utf8Concat(a: seq<Byte>, b: seq<Byte>)
    requires Utf8(a) && Utf8(b)
    ensures Utf8(a + b)
  {
    if a == [] {
      assert a + b == b;
    } else {
      var n := ScalarLength(a);
      Utf8Concat(a[n..], b);
      assert ScalarLength(a + b) == n && (a + b)[n..] == a[n..] + b;
    }
  }

  predicate IsAscii(s: seq<Byte>) {
    forall i :: 0 <= i < |s| ==> s[i] < 0x80
  }

  lemma {:induction false} AsciiIsUtf8(s: seq<Byte>)
    requires IsAscii(s)
    ensures Utf8(s)
  {
    if s != [] { AsciiIsUtf8(s[1..]); }
  }

  /** Text cut at an ASCII byte is text on both sides. */
  lemma {:induction false} Utf8Split(a: seq<Byte>, at: Byte, b: seq<Byte>)
    requires at < 0x80 && Utf8(a + [at] + b)
    ensures Utf8(a) && Utf8(b)
  {
    var s := a + [at] + b;
    if a == [] {
      assert s[1..] == b;
    } else {
      var n := ScalarLength(s);
      assert s[|a|] == at && forall i :: 0 < i < n ==> Continues(s[i]);
      assert ScalarLength(a) == n;
      assert s[n..] == a[n..] + [at] + b;
      Utf8Split(a[n..], at, b);
    }
  }

  /** The first place `b` stands at, or the length when it stands nowhere. */
  function Find(s: seq<Byte>, b: Byte): (at: nat)
    ensures at <= |s| && (at < |s| ==> s[at] == b)
    ensures forall i :: 0 <= i < at ==> s[i] != b
  {
    if s == [] || s[0] == b then 0 else 1 + Find(s[1..], b)
  }

  lemma FindFirst(a: seq<Byte>, b: Byte, rest: seq<Byte>)
    requires b !in a
    ensures Find(a + [b] + rest, b) == |a|
  {
    assert (a + [b] + rest)[|a|] == b;
    assert forall i :: 0 <= i < |a| ==> (a + [b] + rest)[i] == a[i] != b;
  }

  lemma FindCuts(s: seq<Byte>, b: Byte, at: nat)
    requires at == Find(s, b) && at < |s|
    ensures b !in s[..at] && s == s[..at] + [b] + s[at + 1..]
  {
    assert s[at..] == [s[at]] + s[at + 1..];
    assert forall x :: x in s[..at] ==> x != b;
  }

  /** The words between single spaces, empty ones among them. */
  function Words(s: seq<Byte>): (words: seq<seq<Byte>>)
    ensures |words| >= 1
    decreases |s|
  {
    var at := Find(s, SPACE);
    if at == |s| then [s] else [s[..at]] + Words(s[at + 1..])
  }

  lemma WordsFirst(a: seq<Byte>, rest: seq<Byte>)
    requires SPACE !in a
    ensures Words(a + [SPACE] + rest) == [a] + Words(rest)
  {
    var s := a + [SPACE] + rest;
    FindFirst(a, SPACE, rest);
    assert s[..|a|] == a && s[|a| + 1..] == rest;
  }

  /** The words with a single space between them. */
  function Join(words: seq<seq<Byte>>): seq<Byte>
    requires words != []
  {
    if |words| == 1 then words[0] else words[0] + [SPACE] + Join(words[1..])
  }

  lemma FindNone(s: seq<Byte>, b: Byte)
    requires b !in s
    ensures Find(s, b) == |s|
  {
    assert forall i :: 0 <= i < |s| ==> s[i] in s;
  }

  lemma {:induction false} WordsOfJoin(words: seq<seq<Byte>>)
    requires words != [] && forall w :: w in words ==> SPACE !in w
    ensures Words(Join(words)) == words
  {
    if |words| == 1 {
      assert words[0] in words;
      FindNone(words[0], SPACE);
      assert words == [words[0]];
    } else {
      WordsOfJoin(words[1..]);
      WordsFirst(words[0], Join(words[1..]));
    }
  }

  lemma {:induction false} JoinIsText(words: seq<seq<Byte>>)
    requires words != [] && forall w :: w in words ==> Utf8(w)
    ensures Utf8(Join(words))
  {
    if |words| > 1 {
      JoinIsText(words[1..]);
      AsciiIsUtf8([SPACE]);
      Utf8Concat(words[0], [SPACE]);
      Utf8Concat(words[0] + [SPACE], Join(words[1..]));
    }
  }

  lemma {:induction false} JoinHolds(words: seq<seq<Byte>>, b: Byte)
    requires words != [] && b != SPACE && forall w :: w in words ==> b !in w
    ensures b !in Join(words)
  {
    if |words| > 1 { JoinHolds(words[1..], b); }
  }

  lemma {:induction false} WordsAreText(s: seq<Byte>)
    requires Utf8(s)
    ensures forall w :: w in Words(s) ==> Utf8(w) && SPACE !in w && forall b :: b in w ==> b in s
    decreases |s|
  {
    var at := Find(s, SPACE);
    if at < |s| {
      assert s == s[..at] + [SPACE] + s[at + 1..];
      Utf8Split(s[..at], SPACE, s[at + 1..]);
      WordsAreText(s[at + 1..]);
    }
  }

  predicate IsDigit(b: Byte) {
    ZERO <= b < ZERO + 10
  }

  predicate AllDigits(d: seq<Byte>) {
    forall i :: 0 <= i < |d| ==> IsDigit(d[i])
  }

  /** A number as it is printed. */
  function Decimal(n: nat): (d: seq<Byte>)
    ensures d != [] && forall i :: 0 <= i < |d| ==> IsDigit(d[i])
  {
    (if n < 10 then [] else Decimal(n / 10)) + [ZERO + n % 10]
  }

  function Value(d: seq<Byte>): nat
    requires forall i :: 0 <= i < |d| ==> IsDigit(d[i])
  {
    if d == [] then 0 else assert IsDigit(d[|d| - 1]); Value(d[..|d| - 1]) * 10 + (d[|d| - 1] - ZERO)
  }

  lemma {:induction false} DecimalValue(n: nat)
    ensures Value(Decimal(n)) == n
  {
    var d := Decimal(n);
    if n >= 10 {
      DecimalValue(n / 10);
      assert d[..|d| - 1] == Decimal(n / 10);
    } else {
      assert d[..|d| - 1] == [];
    }
  }

  /** A word read as an unsigned number: digits, a plus before them allowed,
      and no more than 64 bits of them. */
  function Parse(word: seq<Byte>): (n: Option<U64>)
  {
    var d := if word != [] && word[0] == PLUS then word[1..] else word;
    if d != [] && AllDigits(d) && Value(d) < TWO_64 then Some(Value(d)) else None
  }

  lemma ParseDecimal(n: U64)
    ensures Parse(Decimal(n)) == Some(n)
  {
    DecimalValue(n);
    assert IsDigit(Decimal(n)[0]);
  }

  lemma {:induction false} JoinOfWords(s: seq<Byte>)
    ensures Join(Words(s)) == s
    decreases |s|
  {
    var at := Find(s, SPACE);
    if at < |s| {
      JoinOfWords(s[at + 1..]);
      assert Words(s)[1..] == Words(s[at + 1..]);
    }
  }

  /** A word that says a number: its digits, perhaps after a plus. */
  ghost predicate SaysNumber(word: seq<Byte>, n: nat) {
    exists d: seq<Byte> :: (word == d || word == [PLUS] + d) && Digits(d, n)
  }

  predicate Digits(d: seq<Byte>, n: nat) {
    d != [] && AllDigits(d) && Value(d) == n
  }

  lemma ParsesExactly(word: seq<Byte>, n: U64)
    ensures Parse(word) == Some(n) <==> SaysNumber(word, n)
  {
    if Parse(word) == Some(n) {
      if word[0] == PLUS {
        assert word == [PLUS] + word[1..] && Digits(word[1..], n);
      } else {
        assert Digits(word, n);
      }
    }
    if SaysNumber(word, n) {
      var d: seq<Byte> :| (word == d || word == [PLUS] + d) && Digits(d, n);
      assert IsDigit(d[0]) && ([PLUS] + d)[1..] == d;
    }
  }
}
