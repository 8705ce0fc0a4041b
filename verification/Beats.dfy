/**
  Hangs judged by beats alone: exactly when a node is restarted, and that one
  which beats in time never is, whatever its rounds or the cluster's ticks take.
 */
module Beats {
  import opened Options
  import opened Livenesses
  import opened Members

  /** One time the cluster asked for the beat, and what it read. */
  datatype Listen = Listen(at: Time, text: Option<string>)

  function Heard(parse: Parse, k: Known, listens: seq<Listen>): Known {
    if listens == [] then k
    else
      var n := |listens| - 1;
      Listened(parse, Heard(parse, k, listens[..n]), listens[n].text, listens[n].at)
  }

  /** The text held after some listens, and whether one heard another. */
  function Held(text: string, listens: seq<Listen>): string {
    if listens == [] then text
    else if listens[|listens| - 1].text.Some? then listens[|listens| - 1].text.value
    else Held(text, listens[..|listens| - 1])
  }

  predicate Changes(text: string, listens: seq<Listen>, i: nat)
    requires i < |listens|
  {
    listens[i].text.Some? && listens[i].text.value != Held(text, listens[..i])
  }

  /** The last listen that heard a change, or none. */
  function LastChange(text: string, listens: seq<Listen>): (at: Option<nat>)
    ensures at.Some? ==> at.value < |listens| && Changes(text, listens, at.value)
    ensures forall i :: 0 <= i < |listens| && (at.Some? ==> at.value < i) ==> !Changes(text, listens, i)
  {
    if listens == [] then None
    else
      var n := |listens| - 1;
      if Changes(text, listens, n) then Some(n)
      else
        var at := LastChange(text, listens[..n]);
        assert forall i :: 0 <= i < n ==> listens[..n][..i] == listens[..i];
        assert forall i :: 0 <= i < n ==> (Changes(text, listens, i) <==> Changes(text, listens[..n], i));
        at
  }

  /** What listening does to what is known: the beat is the last change, and
      nothing but the beat and the rounds moves. */
  lemma {:induction false} HeardIs(parse: Parse, k: Known, listens: seq<Listen>)
    requires k.beat.None?
    ensures var h := Heard(parse, k, listens);
            && h.beatText == Held(k.beatText, listens)
            && h.beat == (var last := LastChange(k.beatText, listens); if last.Some? then Some(listens[last.value].at) else None)
            && h.alive == k.alive && h.since == k.since && h.restarts == k.restarts
  {
    if listens != [] {
      var n := |listens| - 1;
      HeardIs(parse, k, listens[..n]);
    }
  }

  /** A process just started or restarted: it runs and has not beaten. */
  predicate JustStarted(k: Known) {
    k.alive && k.beat.None?
  }

  /** Exactly when a running node is hung: nothing heard and the allowance over,
      or the last change further back than the silence allowed. */
  lemma HungExactly(parse: Parse, liveness: Liveness, k: Known, listens: seq<Listen>, now: Time)
    requires JustStarted(k)
    ensures Hung(liveness, Heard(parse, k, listens), now) <==>
            match LastChange(k.beatText, listens)
            case None => now > k.since + liveness.starting
            case Some(i) => now > listens[i].at + liveness.beat * liveness.missed
  {
    HeardIs(parse, k, listens);
  }

  /** A file nobody writes to reads as what was left in it, or not at all. */
  ghost predicate NothingNew(stale: string, listens: seq<Listen>) {
    forall l :: l in listens ==> l.text == None || l.text == Some(stale)
  }

  /** The first listen that read what was left, or the length. */
  function FirstRead(stale: string, listens: seq<Listen>): (at: nat)
    ensures at <= |listens|
  {
    if listens == [] then 0
    else
      var n := |listens| - 1;
      var at := FirstRead(stale, listens[..n]);
      if at < n || listens[n].text == Some(stale) then at else n + 1
  }

  /** Hearing what was left is hearing it once, where it is not what was held. */
  lemma {:induction false} LeftoverHeard(held: string, stale: string, listens: seq<Listen>)
    requires NothingNew(stale, listens)
    ensures var at := FirstRead(stale, listens);
            && Held(held, listens) == (if at < |listens| then stale else held)
            && LastChange(held, listens) == (if at < |listens| && stale != held then Some(at) else None)
  {
    if listens != [] {
      var n := |listens| - 1;
      assert listens[n] in listens;
      LeftoverHeard(held, stale, listens[..n]);
    }
  }

  /** Exactly when a node that never beats is restarted: at the first judgement past
      its allowance where what a former life left in its beat file is absent or is
      the text held, and otherwise past the silence since that was first read. */
  lemma SilentIsRestarted(parse: Parse, liveness: Liveness, k: Known, stale: string, listens: seq<Listen>, j: Judging)
    requires JustStarted(k) && j.status.None? && NothingNew(stale, listens + [Listen(j.heard, j.text)])
    ensures var all := listens + [Listen(j.heard, j.text)];
            var at := FirstRead(stale, all);
            var over := if stale == k.beatText || at == |all| then j.judged > k.since + liveness.starting
                        else j.judged > all[at].at + liveness.beat * liveness.missed;
            var h := Heard(parse, k, listens);
            Judged(parse, liveness, h, j).restarts == h.restarts + if over then 1 else 0
  {
    var all := listens + [Listen(j.heard, j.text)];
    assert all[..|listens|] == listens;
    LeftoverHeard(k.beatText, stale, all);
    HungExactly(parse, liveness, k, all, j.judged);
  }

  /** So what a former life left can put a restart off: here the allowance is over
      and nothing was ever beaten, but the leftover was read too lately. */
  lemma LeftoverPutsOff(parse: Parse, liveness: Liveness, k: Known, stale: string, s: Time, j: Judging)
    requires JustStarted(k) && j.status.None? && j.text == Some(stale) && stale != k.beatText
    requires j.judged > k.since + liveness.starting && s <= j.judged <= s + liveness.Silence()
    ensures var h := Heard(parse, k, [Listen(s, Some(stale))]);
            j.judged > k.since + liveness.starting && Judged(parse, liveness, h, j).restarts == h.restarts
  {
    var listens := [Listen(s, Some(stale))];
    var all := listens + [Listen(j.heard, j.text)];
    assert all[..1] == listens && listens[..0] == [];
    assert FirstRead(stale, listens) == 0 && FirstRead(stale, all) == 0;
    SilentIsRestarted(parse, liveness, k, stale, listens, j);
  }

  /** A node's life as its beats tell it: the times its beats were whole on disk,
      the first within `first` of its start, each followed within `gap`. */
  datatype Pulse = Pulse(beats: Time -> bool, since: Time, first: nat, gap: nat)

  ghost predicate FirstInTime(p: Pulse) {
    exists b :: p.since <= b <= p.since + p.first && p.beats(b)
  }

  ghost predicate NextInTime(p: Pulse, b: Time) {
    exists c :: b < c <= b + p.gap && p.beats(c)
  }

  ghost predicate Steady(p: Pulse) {
    FirstInTime(p) && forall b {:trigger NextInTime(p, b)} :: p.beats(b) ==> NextInTime(p, b)
  }

  /** A beat became whole after one moment and by another. */
  ghost predicate BeatBetween(p: Pulse, after: int, to: Time) {
    exists b: Time :: p.beats(b) && after < b <= to
  }

  function Before(p: Pulse, listens: seq<Listen>, i: nat): int
    requires i <= |listens|
  {
    if i == 0 then p.since - 1 else listens[i - 1].at
  }

  /** The cluster listens in order of time, and whenever a beat came since it last
      listened it hears another text, however much else it missed. */
  ghost predicate Audible(p: Pulse, text: string, listens: seq<Listen>) {
    forall i: nat :: i < |listens| ==> Timely(p, listens, i) && Tells(p, text, listens, i)
  }

  predicate Timely(p: Pulse, listens: seq<Listen>, i: nat)
    requires i < |listens|
  {
    p.since <= listens[i].at && Before(p, listens, i) <= listens[i].at
  }

  ghost predicate Tells(p: Pulse, text: string, listens: seq<Listen>, i: nat)
    requires i < |listens|
  {
    BeatBetween(p, Before(p, listens, i), listens[i].at) ==> Changes(text, listens, i)
  }

  /** No beat after the listens stopped changing is reached by the last of them. */
  lemma {:induction false} QuietSince(p: Pulse, text: string, listens: seq<Listen>, from: nat, i: nat, b: Time)
    requires Audible(p, text, listens) && from <= i < |listens|
    requires forall j :: from <= j <= i ==> !Changes(text, listens, j)
    requires p.beats(b) && Before(p, listens, from) < b
    ensures listens[i].at < b
  {
    if from < i { QuietSince(p, text, listens, from, i - 1, b); }
    NotBetween(p, text, listens, i, b);
  }

  lemma NotBetween(p: Pulse, text: string, listens: seq<Listen>, i: nat, b: Time)
    requires Audible(p, text, listens) && i < |listens| && !Changes(text, listens, i)
    requires p.beats(b) && Before(p, listens, i) < b
    ensures listens[i].at < b
  {
    assert Tells(p, text, listens, i);
    assert !BeatBetween(p, Before(p, listens, i), listens[i].at);
  }

  /** Once it has beaten, it beats again within the gap of any later moment. */
  lemma {:induction false} BeatsOn(p: Pulse, b: Time, last: Time)
    requires Steady(p) && p.beats(b) && b <= last
    ensures BeatBetween(p, last, last + p.gap)
    decreases last - b
  {
    assert NextInTime(p, b);
    var c :| b < c <= b + p.gap && p.beats(c);
    if c <= last {
      BeatsOn(p, c, last);
    } else {
      assert p.beats(c) && last < c <= last + p.gap;
    }
  }

  /** From any moment of its life a beat follows within the gap, or within what
      its start allowed. */
  lemma BeatsSoon(p: Pulse, last: Time) returns (b: Time)
    requires Steady(p) && p.since <= last
    ensures p.beats(b) && last < b && (b <= last + p.gap || b <= last + p.first)
  {
    b :| p.since <= b <= p.since + p.first && p.beats(b);
    if b <= last {
      BeatsOn(p, b, last);
      b :| p.beats(b) && last < b <= last + p.gap;
    }
  }

  /** A pulse the liveness bounds leave room for, the judge taking `lag` from its
      listening to its judgement. */
  ghost predicate Fits(p: Pulse, liveness: Liveness, lag: nat) {
    && p.first + lag <= liveness.starting
    && p.first + lag <= liveness.Silence()
    && p.gap + lag <= liveness.Silence()
  }

  /** The next beat after the last change heard is not reached yet. */
  lemma NotReached(p: Pulse, text: string, listens: seq<Listen>, b: Time)
    requires Audible(p, text, listens) && listens != [] && p.beats(b)
    requires match LastChange(text, listens) case None => p.since <= b case Some(i) => listens[i].at < b
    ensures listens[|listens| - 1].at < b
  {
    var last := LastChange(text, listens);
    var from := if last.Some? then last.value + 1 else 0;
    if from < |listens| {
      QuietSince(p, text, listens, from, |listens| - 1, b);
    }
  }

  /** So the last change heard, or the start, is not far back. */
  lemma NotFarBack(p: Pulse, text: string, listens: seq<Listen>)
    requires Audible(p, text, listens) && listens != [] && Steady(p)
    ensures var now := listens[|listens| - 1].at;
            match LastChange(text, listens)
            case None => now < p.since + p.first
            case Some(i) => now < listens[i].at + p.gap || now < listens[i].at + p.first
  {
    var last := LastChange(text, listens);
    if last.None? {
      var b: Time :| p.since <= b <= p.since + p.first && p.beats(b);
      NotReached(p, text, listens, b);
    } else {
      var at := listens[last.value].at;
      assert Timely(p, listens, last.value);
      var b := BeatsSoon(p, at);
      NotReached(p, text, listens, b);
    }
  }

  /** A node whose first beat and whose gaps are in time is not hung right after
      it was listened to. */
  lemma SteadyIsNotHung(parse: Parse, liveness: Liveness, k: Known, p: Pulse, listens: seq<Listen>, now: Time, lag: nat)
    requires JustStarted(k) && p.since == k.since && Steady(p) && Fits(p, liveness, lag)
    requires Audible(p, k.beatText, listens) && listens != []
    requires now <= listens[|listens| - 1].at + lag
    ensures !Hung(liveness, Heard(parse, k, listens), now)
  {
    HungExactly(parse, liveness, k, listens, now);
    NotFarBack(p, k.beatText, listens);
  }

  // A life as the cluster lives it: reads and judgements in any order.

  datatype Op = Reads(found: Found) | Judges(judging: Judging)

  function Lived(parse: Parse, liveness: Liveness, k: Known, ops: seq<Op>): Known {
    if ops == [] then k
    else
      var before := Lived(parse, liveness, k, ops[..|ops| - 1]);
      match ops[|ops| - 1]
      case Reads(found) => Read(parse, before, found)
      case Judges(judging) => Judged(parse, liveness, before, judging)
  }

  function ListensOf(ops: seq<Op>): seq<Listen> {
    seq(|ops|, i requires 0 <= i < |ops| =>
      match ops[i]
      case Reads(found) => Listen(found.at, found.text)
      case Judges(judging) => Listen(judging.heard, judging.text))
  }

  /** What liveness is judged by. */
  ghost predicate Alike(a: Known, b: Known) {
    a.alive == b.alive && a.since == b.since && a.beat == b.beat && a.beatText == b.beatText && a.restarts == b.restarts
  }

  lemma AudiblePrefix(p: Pulse, text: string, listens: seq<Listen>, n: nat)
    requires Audible(p, text, listens) && n <= |listens|
    ensures Audible(p, text, listens[..n])
  {
    forall i: nat | i < n ensures Timely(p, listens[..n], i) && Tells(p, text, listens[..n], i) {
      assert Timely(p, listens, i) && Tells(p, text, listens, i);
      assert listens[..n][..i] == listens[..i] && Before(p, listens[..n], i) == Before(p, listens, i);
    }
  }

  /** Every judgement comes within `lag` of its own listening, and no process
      exits by itself. */
  ghost predicate Prompt(op: Op, lag: nat) {
    op.Judges? ==> op.judging.status.None? && op.judging.judged <= op.judging.heard + lag
  }

  /** Never restarted: over a whole life of reads and judgements, of whatever
      number and however far apart, a steady node stays the process it is. */
  lemma {:induction false} SteadyIsNeverRestarted(parse: Parse, liveness: Liveness, k: Known, p: Pulse, ops: seq<Op>, lag: nat)
    requires JustStarted(k) && p.since == k.since && Steady(p) && Fits(p, liveness, lag)
    requires Audible(p, k.beatText, ListensOf(ops)) && forall op :: op in ops ==> Prompt(op, lag)
    ensures var lived := Lived(parse, liveness, k, ops);
            lived.alive && lived.restarts == k.restarts && Alike(lived, Heard(parse, k, ListensOf(ops)))
  {
    if ops == [] {
    } else {
      var n := |ops| - 1;
      var listens := ListensOf(ops);
      assert listens[..n] == ListensOf(ops[..n]);
      AudiblePrefix(p, k.beatText, listens, n);
      SteadyIsNeverRestarted(parse, liveness, k, p, ops[..n], lag);
      HeardIs(parse, k, listens);
      assert ops[n] in ops;
      if ops[n].Judges? {
        SteadyIsNotHung(parse, liveness, k, p, listens, ops[n].judging.judged, lag);
      }
    }
  }

  /** A process found to have exited stays so: over any further life its status is
      what is said of it, and nobody restarts it. */
  lemma {:induction false} ExitIsKept(parse: Parse, liveness: Liveness, k: Known, ops: seq<Op>)
    requires !k.alive
    ensures var lived := Lived(parse, liveness, k, ops);
            !lived.alive && lived.exit == k.exit && lived.restarts == k.restarts && lived.since == k.since
  {
    if ops != [] {
      ExitIsKept(parse, liveness, k, ops[..|ops| - 1]);
      if ops[|ops| - 1].Judges? {
        JudgementComesTo(parse, liveness, Lived(parse, liveness, k, ops[..|ops| - 1]), ops[|ops| - 1].judging);
      }
    }
  }

  /** So an exit is told for good: Done where it failed, whatever came before. */
  lemma ExitIsTold(parse: Parse, liveness: Liveness, k: Known, j: Judging, ops: seq<Op>)
    requires k.alive && j.status.Some?
    ensures var lived := Lived(parse, liveness, Judged(parse, liveness, k, j), ops);
            && !lived.alive && lived.exit == j.status && lived.restarts == k.restarts
            && (ProcessRecord(lived).health.Done? <==> j.status.value != 0)
            && (j.status.value != 0 ==> ProcessRecord(lived).words == ExitedWith(j.status.value))
  {
    JudgementComesTo(parse, liveness, k, j);
    ExitIsKept(parse, liveness, Judged(parse, liveness, k, j), ops);
    RecordTells(Lived(parse, liveness, Judged(parse, liveness, k, j), ops));
  }

  /** A listen that heard another text and a count in it. */
  predicate Counts(parse: Parse, text: string, listens: seq<Listen>, i: nat)
    requires i < |listens|
  {
    Changes(text, listens, i) && parse(listens[i].text.value).Some?
  }

  /** The rounds known are those of the last change heard that said any; a torn beat
      that says none leaves them as they were. */
  lemma {:induction false} RoundsAreLastSaid(parse: Parse, k: Known, listens: seq<Listen>)
    requires k.beat.None?
    ensures var rounds := Heard(parse, k, listens).rounds;
            || (rounds == k.rounds && forall i :: 0 <= i < |listens| ==> !Counts(parse, k.beatText, listens, i))
            || exists i :: 0 <= i < |listens| && Counts(parse, k.beatText, listens, i)
                           && rounds == parse(listens[i].text.value).value
                           && forall m :: i < m < |listens| ==> !Counts(parse, k.beatText, listens, m)
  {
    if listens != [] {
      var n := |listens| - 1;
      RoundsAreLastSaid(parse, k, listens[..n]);
      HeardIs(parse, k, listens[..n]);
      forall i | 0 <= i < n ensures Counts(parse, k.beatText, listens[..n], i) <==> Counts(parse, k.beatText, listens, i) {
        assert listens[..n][..i] == listens[..i];
      }
      var rounds := Heard(parse, k, listens).rounds;
      if Counts(parse, k.beatText, listens, n) {
        assert rounds == parse(listens[n].text.value).value;
      } else if i :| 0 <= i < n && Counts(parse, k.beatText, listens[..n], i)
                     && rounds == parse(listens[..n][i].text.value).value
                     && forall m :: i < m < n ==> !Counts(parse, k.beatText, listens[..n], m) {
        assert Counts(parse, k.beatText, listens, i);
      }
    }
  }

  /** Why the text heard has to differ: a node whose beats are all in time, caught
      twice at the same half-written one and not otherwise, is restarted, though it
      beat in between. */
  lemma TornTwiceIsDeaf(parse: Parse, liveness: Liveness, k: Known, p: Pulse, torn: string, s: Time, j: Judging)
    requires JustStarted(k) && p.since == k.since && Steady(p) && Fits(p, liveness, 0)
    requires torn != k.beatText && p.since <= s && j.heard > s + liveness.Silence()
    requires j.status.None? && j.text == Some(torn) && j.judged == j.heard
    ensures BeatBetween(p, s, j.heard)
    ensures Judged(parse, liveness, Heard(parse, k, [Listen(s, Some(torn))]), j).restarts == k.restarts + 1
  {
    var listens := [Listen(s, Some(torn)), Listen(j.heard, Some(torn))];
    var b := BeatsSoon(p, s);
    assert p.beats(b) && s < b <= j.heard;
    assert listens[..1] == [Listen(s, Some(torn))] && listens[..1][..0] == [];
    assert Held(k.beatText, listens[..1]) == torn && Held(k.beatText, listens[..0]) == k.beatText;
    assert Changes(k.beatText, listens, 0) && !Changes(k.beatText, listens, 1);
    HungExactly(parse, liveness, k, listens, j.judged);
    HeardIs(parse, k, listens);
  }

  /** A node told to beat every tenth of a second, and doing so from its start. */
  function EveryTenth(since: Time): Pulse {
    Pulse((t: Time) => t >= since && (t - since) % 100 == 0, since, 0, 100)
  }

  /** The bounds in use leave such a node room: it is steady, and a judge may take
      9.9 seconds from its listening to its judgement, and no more. */
  lemma OwnersLeaveRoom(since: Time)
    ensures OWNERS.starting == OWNERS.Silence() == 10_000
    ensures Steady(EveryTenth(since)) && forall lag :: Fits(EveryTenth(since), OWNERS, lag) <==> lag <= 9900
  {
    var p := EveryTenth(since);
    assert p.beats(since);
    forall b: Time | p.beats(b) ensures NextInTime(p, b) {
      assert p.beats(b + 100);
    }
  }
}
