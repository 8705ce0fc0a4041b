/**
  The handoff file: six words on its first line, which say what it carries and how
  long that is, and after it the payload untouched.
 */
module Handoffs {
  import opened Options
  import opened Bytes
  import opened Contracts

  /** No vector is longer. */
  type Payload = s: seq<Byte> | |s| < TWO_64

  datatype Handoff = Handoff(transport: Bytes.Text, contract: Contract, round: U64, from: Bytes.Text, bytes: Payload)

  const MAGIC_WORD: string := "xmip-handoff-1"

  lemma MagicIsPlain()
    ensures Plain(MAGIC_WORD)
  {
  }

  function Magic(): (magic: Bytes.Text)
    ensures SPACE !in magic && NEWLINE !in magic
  {
    MagicIsPlain();
    Ascii(MAGIC_WORD)
  }

  function Fields(h: Handoff): seq<seq<Byte>> {
    [Magic(), h.transport, Name(h.contract), Decimal(h.round), h.from, Decimal(|h.bytes|)]
  }

  function Header(h: Handoff): seq<Byte> {
    Join(Fields(h))
  }

  function Encode(h: Handoff): seq<Byte> {
    Header(h) + [NEWLINE] + h.bytes
  }

  function Decode(raw: seq<Byte>): (h: Option<Handoff>)
  {
    var end := Find(raw, NEWLINE);
    if end == |raw| || !Utf8(raw[..end]) then None else
    var words := Words(raw[..end]);
    WordsAreText(raw[..end]);
    FromFields(words, raw[end + 1..])
  }

  /** The handoff a header's words and the bytes after it are, if they are one. */
  function FromFields(words: seq<seq<Byte>>, bytes: seq<Byte>): (h: Option<Handoff>)
    requires |words| >= 6 ==> Utf8(words[1]) && Utf8(words[4])
  {
    if |words| < 6 || words[0] != Magic() then None else
    var contract, round, length := Named(words[2]), Parse(words[3]), Parse(words[5]);
    if contract.None? || round.None? || length.None? || |bytes| != length.value then None else
    Some(Handoff(words[1], contract.value, round.value, words[4], bytes))
  }

  predicate Clean(text: seq<Byte>) {
    SPACE !in text && NEWLINE !in text
  }

  lemma DigitsAreText(n: nat)
    ensures Clean(Decimal(n)) && Utf8(Decimal(n))
  {
    forall b | b in Decimal(n) ensures IsDigit(b) {}
    AsciiIsUtf8(Decimal(n));
  }

  lemma HeaderIsText(h: Handoff)
    ensures Utf8(Header(h))
  {
    DigitsAreText(h.round);
    DigitsAreText(|h.bytes|);
    JoinIsText(Fields(h));
  }

  lemma HeaderWords(h: Handoff)
    requires Clean(h.transport) && Clean(h.from)
    ensures NEWLINE !in Header(h) && Words(Header(h)) == Fields(h)
  {
    DigitsAreText(h.round);
    DigitsAreText(|h.bytes|);
    JoinHolds(Fields(h), NEWLINE);
    WordsOfJoin(Fields(h));
  }

  lemma EncodeSplits(h: Handoff)
    requires Clean(h.transport) && Clean(h.from)
    ensures Find(Encode(h), NEWLINE) == |Header(h)|
    ensures Encode(h)[..|Header(h)|] == Header(h) && Encode(h)[|Header(h)| + 1..] == h.bytes
  {
    HeaderWords(h);
    FindFirst(Header(h), NEWLINE, h.bytes);
  }

  lemma DecodedIsClean(raw: seq<Byte>)
    ensures var h := Decode(raw); h.Some? ==> Clean(h.value.transport) && Clean(h.value.from)
  {
    if Decode(raw).Some? {
      var header := raw[..Find(raw, NEWLINE)];
      WordsAreText(header);
      assert NEWLINE !in header;
      assert Words(header)[1] in Words(header) && Words(header)[4] in Words(header);
    }
  }

  /** A handoff reads back as it was written exactly when its transport and its
      sender hold no space and no line break, whatever its bytes are. */
  lemma RoundTrip(h: Handoff)
    ensures Decode(Encode(h)) == Some(h) <==> Clean(h.transport) && Clean(h.from)
  {
    DecodedIsClean(Encode(h));
    if Clean(h.transport) && Clean(h.from) {
      CleanReadsBack(h);
    }
  }

  lemma CleanReadsBack(h: Handoff)
    requires Clean(h.transport) && Clean(h.from)
    ensures Decode(Encode(h)) == Some(h)
  {
    EncodeSplits(h);
    HeaderIsText(h);
    HeaderWords(h);
    FieldsReadBack(h);
  }

  lemma FieldsReadBack(h: Handoff)
    ensures FromFields(Fields(h), h.bytes) == Some(h)
  {
    NamedName(h.contract);
    ParseDecimal(h.round);
    ParseDecimal(|h.bytes|);
    WordsReadBack(Fields(h), h);
  }

  lemma WordsReadBack(w: seq<seq<Byte>>, h: Handoff)
    requires |w| == 6 && w[0] == Magic() && w[1] == h.transport && w[4] == h.from
    requires Named(w[2]) == Some(h.contract) && Parse(w[3]) == Some(h.round) && Parse(w[5]) == Some(|h.bytes|)
    ensures FromFields(w, h.bytes) == Some(h)
  {
  }

  lemma LengthIsHeld(w: seq<seq<Byte>>, bytes: seq<Byte>, n: U64)
    requires |w| == 6 && Utf8(w[1]) && Utf8(w[4]) && Parse(w[5]) == Some(n) && |bytes| != n
    ensures FromFields(w, bytes).None?
  {
  }

  /** A torn file is never taken for a handoff: no proper prefix of one reads
      back as anything. */
  lemma TornIsRefused(h: Handoff, n: nat)
    requires Clean(h.transport) && Clean(h.from) && n < |Encode(h)|
    ensures Decode(Encode(h)[..n]).None?
  {
    var torn, header := Encode(h)[..n], Header(h);
    HeaderWords(h);
    if n <= |header| {
      assert forall i :: 0 <= i < n ==> torn[i] == header[i];
    } else {
      TornAfterTheHeader(h, h.bytes[..n - |header| - 1]);
      assert torn == header + [NEWLINE] + h.bytes[..n - |header| - 1];
    }
  }

  lemma TornAfterTheHeader(h: Handoff, bytes: seq<Byte>)
    requires Clean(h.transport) && Clean(h.from) && |bytes| < |h.bytes|
    ensures Decode(Header(h) + [NEWLINE] + bytes).None?
  {
    var header, raw := Header(h), Header(h) + [NEWLINE] + bytes;
    HeaderWords(h);
    FindFirst(header, NEWLINE, bytes);
    assert raw[..|header|] == header && raw[|header| + 1..] == bytes;
    ParseDecimal(|h.bytes|);
    LengthIsHeld(Fields(h), bytes, |h.bytes|);
  }

  lemma {:induction false} JoinTwo(a: seq<seq<Byte>>, b: seq<seq<Byte>>)
    requires a != [] && b != []
    ensures Join(a + b) == Join(a) + [SPACE] + Join(b)
  {
    if |a| == 1 {
      assert (a + b)[1..] == b;
    } else {
      JoinTwo(a[1..], b);
      assert (a + b)[1..] == a[1..] + b;
    }
  }

  /** The words that count are the first six; what follows them is not looked at. */
  lemma FirstSixWords(words: seq<seq<Byte>>, bytes: seq<Byte>)
    requires |words| >= 6 && Utf8(words[1]) && Utf8(words[4])
    ensures FromFields(words, bytes) == FromFields(words[..6], bytes)
  {
  }

  /** A header that is spelled by clean words is read as those words. */
  lemma HeaderIsRead(header: seq<Byte>, words: seq<seq<Byte>>, bytes: seq<Byte>)
    requires words != [] && header == Join(words) && Utf8(header)
    requires forall w :: w in words ==> Clean(w)
    requires |words| >= 6 ==> Utf8(words[1]) && Utf8(words[4])
    ensures Decode(header + [NEWLINE] + bytes) == FromFields(words, bytes)
  {
    WordsOfJoin(words);
    JoinHolds(words, NEWLINE);
    FindFirst(header, NEWLINE, bytes);
    var raw := header + [NEWLINE] + bytes;
    assert raw[..|header|] == header && raw[|header| + 1..] == bytes;
  }

  /** A transport that spells out another handoff's fields, spaces and all, makes a
      header of those fields and of what is left of its own. */
  lemma SpelledHeader(h: Handoff, other: Handoff)
    requires h.transport == Join(Fields(other)[1..])
    ensures Header(h) == Join(Fields(other) + Fields(h)[2..])
  {
    var rest, more := Fields(other)[1..], Fields(h)[2..];
    assert Fields(h)[1..] == [h.transport] + more;
    assert (Fields(other) + more)[1..] == rest + more;
    JoinTwo([h.transport], more);
    JoinTwo(rest, more);
  }

  lemma FieldsAreClean(h: Handoff)
    requires Clean(h.transport) && Clean(h.from)
    ensures forall w :: w in Fields(h) ==> Clean(w)
  {
    DigitsAreText(h.round);
    DigitsAreText(|h.bytes|);
  }

  lemma LastFieldsAreClean(h: Handoff)
    requires Clean(h.from)
    ensures forall w :: w in Fields(h)[2..] ==> Clean(w)
  {
    DigitsAreText(h.round);
    DigitsAreText(|h.bytes|);
  }

  /** Why a transport must hold no space: one that spells out another handoff's fields
      is read as that other handoff, payload and all. */
  lemma SpacedTransportMisleads(h: Handoff, other: Handoff)
    requires Clean(other.transport) && Clean(other.from) && Clean(h.from) && other.bytes == h.bytes
    requires h.transport == Join(Fields(other)[1..])
    ensures Decode(Encode(h)) == Some(other)
  {
    var words := Fields(other) + Fields(h)[2..];
    SpelledHeader(h, other);
    HeaderIsText(h);
    FieldsAreClean(other);
    LastFieldsAreClean(h);
    HeaderIsRead(Header(h), words, h.bytes);
    FirstSixWords(words, h.bytes);
    assert words[..6] == Fields(other);
    FieldsReadBack(other);
  }

  /** The bytes are a header of these words, a line break and the payload, and the
      first six of the words say what `h` is. */
  ghost predicate Spells(raw: seq<Byte>, words: seq<seq<Byte>>, h: Handoff) {
    && |words| >= 6 && (forall w :: w in words ==> Clean(w)) && Utf8(Join(words))
    && raw == Join(words) + [NEWLINE] + h.bytes
    && words[0] == Ascii("xmip-handoff-1") && words[1] == h.transport && words[2] == Name(h.contract)
    && SaysNumber(words[3], h.round) && words[4] == h.from && SaysNumber(words[5], |h.bytes|)
  }

  /** What bytes read back as: a handoff exactly when they spell it. */
  lemma DecodesExactly(raw: seq<Byte>, h: Handoff)
    ensures Decode(raw) == Some(h) <==> exists words :: Spells(raw, words, h)
  {
    if Decode(raw) == Some(h) {
      DecodedIsSpelled(raw, h);
    }
    if exists words :: Spells(raw, words, h) {
      var words :| Spells(raw, words, h);
      SpelledIsDecoded(raw, words, h);
    }
  }

  lemma WordsOfText(header: seq<Byte>)
    requires Utf8(header) && NEWLINE !in header
    ensures Join(Words(header)) == header && forall w :: w in Words(header) ==> Clean(w) && Utf8(w)
  {
    WordsAreText(header);
    JoinOfWords(header);
  }

  lemma FieldsSay(words: seq<seq<Byte>>, bytes: seq<Byte>, h: Handoff)
    requires |words| >= 6 ==> Utf8(words[1]) && Utf8(words[4])
    requires FromFields(words, bytes) == Some(h)
    ensures |words| >= 6 && words[0] == Magic() && words[1] == h.transport && words[4] == h.from && bytes == h.bytes
    ensures words[2] == Name(h.contract) && SaysNumber(words[3], h.round) && SaysNumber(words[5], |h.bytes|)
  {
    NamedExactly(words[2], h.contract);
    ParsesExactly(words[3], h.round);
    ParsesExactly(words[5], |h.bytes|);
  }

  lemma SpelledBy(header: seq<Byte>, bytes: seq<Byte>, h: Handoff)
    requires Utf8(header) && NEWLINE !in header
    requires |Words(header)| >= 6 ==> Utf8(Words(header)[1]) && Utf8(Words(header)[4])
    requires FromFields(Words(header), bytes) == Some(h)
    ensures Spells(header + [NEWLINE] + bytes, Words(header), h)
  {
    WordsOfText(header);
    FieldsSay(Words(header), bytes, h);
  }

  lemma DecodedIsSpelled(raw: seq<Byte>, h: Handoff)
    requires Decode(raw) == Some(h)
    ensures Spells(raw, Words(raw[..Find(raw, NEWLINE)]), h)
  {
    var end := Find(raw, NEWLINE);
    FindCuts(raw, NEWLINE, end);
    WordsAreText(raw[..end]);
    SpelledBy(raw[..end], raw[end + 1..], h);
  }

  lemma SpelledIsDecoded(raw: seq<Byte>, words: seq<seq<Byte>>, h: Handoff)
    requires Spells(raw, words, h)
    ensures Decode(raw) == Some(h)
  {
    HeaderIsRead(Join(words), words, h.bytes);
    NamedExactly(words[2], h.contract);
    ParsesExactly(words[3], h.round);
    ParsesExactly(words[5], |h.bytes|);
  }
}
