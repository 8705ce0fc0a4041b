/**
  The beat file as it is on disk, each beat written over the last: what a reader
  can catch of it, and that only a half-written beat can be taken for no beat.
 */
module BeatFiles {
  import opened Options
  import opened Livenesses
  import opened Members
  import opened Beats

  /** Beat after beat: when each is begun and when it is whole, and its text. */
  datatype Disk = Disk(begins: nat -> Time, ends: nat -> Time, text: nat -> string)

  /** One beat is written at a time, the first not before the node's start. */
  ghost predicate InTurn(d: Disk, since: Time) {
    since <= d.begins(0) && forall i: nat :: Turn(d, i)
  }

  ghost predicate Turn(d: Disk, i: nat) {
    d.begins(i) <= d.ends(i) <= d.begins(i + 1)
  }

  predicate StrictPrefix(x: string, y: string) {
    x < y
  }

  /** A beat says when it was, so no two whole ones are alike, nor like what stood
      there before; and none is the beginning of another, as each ends its line. */
  ghost predicate Telling(d: Disk, stale: string) {
    && (forall i: nat, j: nat :: i != j ==> d.text(i) != d.text(j))
    && (forall i: nat, j: nat :: !StrictPrefix(d.text(i), d.text(j)))
    && (forall i: nat :: d.text(i) != stale)
  }

  /** Nor is any like the text the reader holds from before. */
  ghost predicate NeverHeld(d: Disk, held: string) {
    forall i: nat :: d.text(i) != held
  }

  /** What a reader catches: what stood there before this life, a whole beat or the
      beginning of one being written. */
  datatype Caught = Leftover | Whole(beat: nat) | Torn(beat: nat)

  ghost predicate Catches(d: Disk, stale: string, l: Listen, c: Caught) {
    match c
    case Leftover => l.at < d.begins(0) && (l.text == None || l.text == Some(stale))
    case Whole(i) => d.ends(i) <= l.at < d.begins(i + 1) && l.text == Some(d.text(i))
    case Torn(i) => d.begins(i) <= l.at < d.ends(i) && l.text.Some? && StrictPrefix(l.text.value, d.text(i))
  }

  ghost predicate WholeAt(d: Disk, t: Time) {
    exists i: nat :: d.ends(i) == t
  }

  ghost predicate PulseOf(p: Pulse, d: Disk) {
    InTurn(d, p.since) && forall t: Time :: p.beats(t) <==> WholeAt(d, t)
  }

  /** The listens of a life, in order of time, and what each caught. */
  ghost predicate Listens(p: Pulse, d: Disk, stale: string, listens: seq<Listen>, caught: seq<Caught>) {
    && |caught| == |listens|
    && (forall i: nat :: i < |listens| ==> Timely(p, listens, i))
    && (forall i: nat :: i < |listens| ==> Catches(d, stale, listens[i], caught[i]))
  }

  lemma {:induction false} EndsBefore(d: Disk, since: Time, i: nat, j: nat)
    requires InTurn(d, since) && i < j
    ensures d.ends(i) <= d.begins(j)
  {
    if i + 1 < j {
      EndsBefore(d, since, i, j - 1);
    }
    assert Turn(d, j - 1);
  }

  lemma {:induction false} HeldDiffers(text: string, listens: seq<Listen>, x: string)
    requires text != x && forall i :: 0 <= i < |listens| ==> listens[i].text != Some(x)
    ensures Held(text, listens) != x
  {
    if listens != [] { HeldDiffers(text, listens[..|listens| - 1], x); }
  }

  /** Whatever was caught before a beat was whole is not that beat's text. */
  lemma NotYetHeard(d: Disk, since: Time, stale: string, l: Listen, c: Caught, beat: nat)
    requires InTurn(d, since) && Telling(d, stale) && Catches(d, stale, l, c) && l.at < d.ends(beat)
    ensures l.text != Some(d.text(beat))
  {
    match c
    case Leftover =>
    case Whole(i) =>
      assert i == beat ==> d.ends(i) <= l.at;
    case Torn(i) =>
      assert !StrictPrefix(d.text(beat), d.text(i));
  }

  lemma {:induction false} Earlier(p: Pulse, d: Disk, stale: string, listens: seq<Listen>, caught: seq<Caught>, m: nat, n: nat)
    requires Listens(p, d, stale, listens, caught) && m < n <= |listens|
    ensures listens[m].at <= Before(p, listens, n)
  {
    if m + 1 < n {
      Earlier(p, d, stale, listens, caught, m, n - 1);
      assert Timely(p, listens, n - 1);
    }
  }

  /** The beat on disk is the last that was whole: at or after any whole by then. */
  lemma WholeIsLatest(d: Disk, since: Time, stale: string, l: Listen, beat: nat, first: nat)
    requires InTurn(d, since) && Catches(d, stale, l, Whole(beat)) && d.ends(first) <= l.at
    ensures d.ends(first) <= d.ends(beat)
  {
    if beat < first {
      LastWhole(d, since, beat, first);
    } else if first < beat {
      EndsBefore(d, since, first, beat);
      assert Turn(d, beat);
    }
  }

  /** A whole beat caught after it or another came since is another text. */
  lemma WholeIsHeard(p: Pulse, d: Disk, stale: string, held: string, listens: seq<Listen>, caught: seq<Caught>, n: nat, first: nat)
    requires PulseOf(p, d) && Telling(d, stale) && NeverHeld(d, held) && Listens(p, d, stale, listens, caught)
    requires n < |listens| && caught[n].Whole?
    requires Before(p, listens, n) < d.ends(first) <= listens[n].at
    ensures Changes(held, listens, n)
  {
    var beat := caught[n].beat;
    assert Catches(d, stale, listens[n], caught[n]);
    WholeIsLatest(d, p.since, stale, listens[n], beat, first);
    forall m | 0 <= m < n ensures listens[..n][m].text != Some(d.text(beat)) {
      Earlier(p, d, stale, listens, caught, m, n);
      assert Catches(d, stale, listens[m], caught[m]);
      NotYetHeard(d, p.since, stale, listens[m], caught[m], beat);
    }
    HeldDiffers(held, listens[..n], d.text(beat));
  }

  lemma LastWhole(d: Disk, since: Time, beat: nat, later: nat)
    requires InTurn(d, since) && beat < later
    ensures d.begins(beat + 1) <= d.ends(later)
  {
    if beat + 1 < later { EndsBefore(d, since, beat + 1, later); }
    assert Turn(d, beat + 1) && Turn(d, later);
  }

  /** A torn beat that, a whole one having come since, shows the text held. */
  ghost predicate TornAlike(p: Pulse, held: string, listens: seq<Listen>, caught: seq<Caught>, n: nat)
    requires n < |listens| == |caught|
  {
    caught[n].Torn? && BeatBetween(p, Before(p, listens, n), listens[n].at) && !Changes(held, listens, n)
  }

  /** Every beat is heard exactly when no torn one shows the text held, whatever a
      former life left on disk and the reader holds: a whole one always tells. */
  lemma AudibleExactly(p: Pulse, d: Disk, stale: string, held: string, listens: seq<Listen>, caught: seq<Caught>)
    requires PulseOf(p, d) && Telling(d, stale) && NeverHeld(d, held) && Listens(p, d, stale, listens, caught)
    ensures Audible(p, held, listens) <==> forall n: nat :: n < |listens| ==> !TornAlike(p, held, listens, caught, n)
  {
    forall n: nat | n < |listens| ensures Timely(p, listens, n)
      && (Tells(p, held, listens, n) <==> !TornAlike(p, held, listens, caught, n))
    {
      TellsUnlessTorn(p, d, stale, held, listens, caught, n);
    }
  }

  lemma TellsUnlessTorn(p: Pulse, d: Disk, stale: string, held: string, listens: seq<Listen>, caught: seq<Caught>, n: nat)
    requires PulseOf(p, d) && Telling(d, stale) && NeverHeld(d, held) && Listens(p, d, stale, listens, caught)
    requires n < |listens|
    ensures Tells(p, held, listens, n) <==> !TornAlike(p, held, listens, caught, n)
  {
    if BeatBetween(p, Before(p, listens, n), listens[n].at) && !caught[n].Torn? {
      HeardUnlessTorn(p, d, stale, held, listens, caught, n);
    }
  }

  lemma HeardUnlessTorn(p: Pulse, d: Disk, stale: string, held: string, listens: seq<Listen>, caught: seq<Caught>, n: nat)
    requires PulseOf(p, d) && Telling(d, stale) && NeverHeld(d, held) && Listens(p, d, stale, listens, caught)
    requires n < |listens| && BeatBetween(p, Before(p, listens, n), listens[n].at) && !caught[n].Torn?
    ensures Changes(held, listens, n)
  {
    var b: Time :| p.beats(b) && Before(p, listens, n) < b <= listens[n].at;
    assert WholeAt(d, b);
    var first: nat :| d.ends(first) == b;
    NotBeforeABeat(p, d, stale, listens[n], caught[n], first);
    WholeIsHeard(p, d, stale, held, listens, caught, n, first);
  }

  lemma NotBeforeABeat(p: Pulse, d: Disk, stale: string, l: Listen, c: Caught, first: nat)
    requires PulseOf(p, d) && Catches(d, stale, l, c) && d.ends(first) <= l.at
    ensures !c.Leftover?
  {
    if first > 0 { EndsBefore(d, p.since, 0, first); }
    assert Turn(d, 0) && Turn(d, first);
  }

  /** The listens of a life over a disk, none of them caught by a torn beat. */
  ghost predicate HeardFrom(p: Pulse, d: Disk, stale: string, held: string, ops: seq<Op>, caught: seq<Caught>) {
    && PulseOf(p, d) && Telling(d, stale) && NeverHeld(d, held) && Listens(p, d, stale, ListensOf(ops), caught)
    && forall n: nat :: n < |ops| ==> !TornAlike(p, held, ListensOf(ops), caught, n)
  }

  /** So a node whose beats are whole in time, over a life of reads and judgements
      however far apart, is never restarted unless a torn beat shows the text held. */
  lemma SteadyFileIsNeverRestarted(parse: Parse, liveness: Liveness, k: Known, p: Pulse, d: Disk, stale: string,
                                   ops: seq<Op>, caught: seq<Caught>, lag: nat)
    requires JustStarted(k) && p.since == k.since && Steady(p) && Fits(p, liveness, lag)
    requires HeardFrom(p, d, stale, k.beatText, ops, caught) && forall op :: op in ops ==> Prompt(op, lag)
    ensures var lived := Lived(parse, liveness, k, ops); lived.alive && lived.restarts == k.restarts
  {
    AudibleExactly(p, d, stale, k.beatText, ListensOf(ops), caught);
    SteadyIsNeverRestarted(parse, liveness, k, p, ops, lag);
  }

  // The torn input, on a disk.

  /** Texts of which none begins another: as many `a` as its number, then `b`. */
  function Text(i: nat): string {
    seq(i, _ => 'a') + ['b']
  }

  /** A node told to beat every tenth of a second, each beat a millisecond on its
      way. */
  function TenthsDisk(): Disk {
    Disk((i: nat) => OWNERS.beat * i, (i: nat) => OWNERS.beat * i + 1, Text)
  }

  function TenthsPulse(): Pulse {
    Pulse((t: Time) => t % OWNERS.beat == 1, 0, 1, OWNERS.beat)
  }

  lemma TextsTell(i: nat, j: nat)
    ensures i != j ==> Text(i) != Text(j)
    ensures !StrictPrefix(Text(i), Text(j))
  {
    assert Text(i)[i] == 'b' && |Text(i)| == i + 1 && |Text(j)| == j + 1;
    if i < j { assert Text(j)[i] == 'a'; }
  }

  lemma TenthsAreWhole(t: Time)
    ensures TenthsPulse().beats(t) <==> WholeAt(TenthsDisk(), t)
  {
    var d := TenthsDisk();
    if t % OWNERS.beat == 1 { assert d.ends(t / OWNERS.beat) == t; }
    if WholeAt(d, t) {
      var i: nat :| d.ends(i) == t;
    }
  }

  lemma TenthsAreInTurn()
    ensures PulseOf(TenthsPulse(), TenthsDisk())
  {
    forall i: nat ensures Turn(TenthsDisk(), i) {}
    forall t: Time ensures TenthsPulse().beats(t) <==> WholeAt(TenthsDisk(), t) { TenthsAreWhole(t); }
  }

  lemma TenthsAreSteady()
    ensures Steady(TenthsPulse()) && Fits(TenthsPulse(), OWNERS, 0)
  {
    var p := TenthsPulse();
    assert p.beats(1);
    forall b: Time | p.beats(b) ensures NextInTime(p, b) { assert p.beats(b + OWNERS.beat); }
  }

  /** A disk and two listens on which a node that beats in time is restarted: beats
      one and a hundred and two are both caught at their first letter. */
  lemma TornTwiceOnDisk(parse: Parse, k: Known, j: Judging)
    requires JustStarted(k) && k.since == 0 && k.beatText == ""
    requires j.status.None? && j.text == Some("a") && j.heard == j.judged == 10200
    ensures var p, d := TenthsPulse(), TenthsDisk();
            && PulseOf(p, d) && Telling(d, "") && NeverHeld(d, "") && Steady(p) && Fits(p, OWNERS, 0)
            && Catches(d, "", Listen(100, Some("a")), Torn(1)) && Catches(d, "", Listen(j.heard, j.text), Torn(102))
            && Judged(parse, OWNERS, Heard(parse, k, [Listen(100, Some("a"))]), j).restarts == k.restarts + 1
  {
    TenthsAreInTurn();
    TenthsAreSteady();
    forall i: nat, m: nat ensures (i != m ==> Text(i) != Text(m)) && !StrictPrefix(Text(i), Text(m)) { TextsTell(i, m); }
    assert Text(1)[..1] == "a" && Text(102)[..1] == "a";
    TornTwiceIsDeaf(parse, OWNERS, k, TenthsPulse(), "a", 100, j);
  }
}
