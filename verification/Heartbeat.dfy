/**
  A node's beats and publications against the cluster's reading of them, over
  every interleaving of the node's round, its beating thread and the reader.
 */
module Heartbeats {
  import opened Options

  /** Where the round's thread is: working, having published, having counted. */
  datatype Round = Working | HasPublished | HasCounted

  datatype Holder = Nobody | TheRound | TheBeater

  /** The beat file: a count whole, or being written over the last. */
  datatype BeatFile = Whole(count: nat) | Torn(count: nat)

  /** One life of a node and its reader. `attempt` is the round last tried,
      `published` the round the publication is of, zero for none of this life,
      `failed` the rounds whose publication could not be written and `leftover`
      whether a publication of another life stands there at the start; `rounds`,
      `readAt` and `parsed` are the reader's: the count it heard, the count it
      last parsed at, the round of what it parsed and the round last tried by then,
      which no step looks at. */
  datatype State = State(round: Round, attempt: nat, published: nat, failed: set<nat>, leftover: bool, count: nat,
                         holder: Holder, file: BeatFile,
                         rounds: nat, readAt: Option<nat>, parsed: nat, tried: nat)

  function Start(leftover: bool): State {
    State(Working, 0, 0, {}, leftover, 0, Nobody, Whole(0), 0, None, 0, 0)
  }

  datatype Step =
    | Publish(written: bool)
    | Bump
    | BeginBeat(who: Holder)
    | EndBeat
    | Hear(count: Option<nat>)
    | ReadFile

  /** What a reader may make of the file: a whole count, or of a torn one
      nothing or the digits that are there already. */
  predicate Hears(file: BeatFile, count: Option<nat>) {
    match file
    case Whole(n) => count == Some(n)
    case Torn(n) => count.None? || count.value <= n
  }

  predicate Can(s: State, e: Step) {
    match e
    case Publish(_) => s.round.Working?
    case Bump => s.round.HasPublished? && s.holder.Nobody?
    case BeginBeat(who) => s.holder.Nobody? && !who.Nobody? && (who.TheRound? ==> s.round.HasCounted?)
    case EndBeat => !s.holder.Nobody?
    case Hear(count) => Hears(s.file, count)
    case ReadFile => s.rounds != 0 && s.readAt != Some(s.rounds) && (s.published > 0 || s.leftover)
  }

  function Do(s: State, e: Step): State
    requires Can(s, e)
  {
    match e
    case Publish(written) =>
      var r := s.attempt + 1;
      if written then s.(round := HasPublished, attempt := r, published := r)
      else s.(round := HasPublished, attempt := r, failed := s.failed + {r})
    case Bump => s.(round := HasCounted, count := s.count + 1)
    case BeginBeat(who) => s.(holder := who, file := Torn(s.count))
    case EndBeat =>
      s.(holder := Nobody, file := Whole(s.file.count), round := if s.holder.TheRound? then Working else s.round)
    case Hear(count) => if count.Some? then s.(rounds := count.value) else s
    case ReadFile => s.(readAt := Some(s.rounds), parsed := s.published, tried := s.attempt)
  }

  function After(leftover: bool, run: seq<Step>): State {
    if run == [] then Start(leftover)
    else
      var s := After(leftover, run[..|run| - 1]);
      if Can(s, run[|run| - 1]) then Do(s, run[|run| - 1]) else s
  }

  /** Every round after `p` and up to `r` could not be written. */
  ghost predicate AllFailed(s: State, p: nat, r: nat) {
    forall x :: p < x <= r ==> x in s.failed
  }

  ghost predicate Inv(s: State) {
    && s.count == (if s.round.HasPublished? then s.attempt - 1 else s.attempt)
    && (s.round.HasPublished? ==> s.attempt > 0) && (s.holder.TheRound? ==> s.round.HasCounted?)
    && s.file.count <= s.count
    && (s.file.Torn? <==> !s.holder.Nobody?) && (s.file.Torn? ==> s.file.count == s.count)
    && s.published <= s.attempt && s.published !in s.failed && AllFailed(s, s.published, s.attempt)
    && (forall x :: x in s.failed ==> 0 < x <= s.attempt)
    && s.rounds <= s.count
    && s.parsed <= s.published
    && (s.readAt.Some? ==> s.readAt.value <= s.tried)
    && s.tried <= s.attempt
    && s.parsed <= s.tried && s.parsed !in s.failed && AllFailed(s, s.parsed, s.tried)
  }

  lemma StepInv(s: State, e: Step)
    requires Inv(s) && Can(s, e)
    ensures Inv(Do(s, e))
  {
    match e
    case Publish(_) =>
    case Bump =>
    case BeginBeat(_) =>
    case EndBeat =>
    case Hear(_) =>
    case ReadFile =>
  }

  lemma {:induction false} RunInv(leftover: bool, run: seq<Step>)
    ensures Inv(After(leftover, run))
  {
    if run != [] {
      RunInv(leftover, run[..|run| - 1]);
      var s := After(leftover, run[..|run| - 1]);
      if Can(s, run[|run| - 1]) { StepInv(s, run[|run| - 1]); }
    }
  }

  /** Exactly when a publication parsed at a count is of that round or a later one:
      when some round from that one to the last tried by then could be written. So
      it always is where every round could be. */
  lemma ParsedIsNoOlder(leftover: bool, run: seq<Step>)
    ensures var s := After(leftover, run);
            s.readAt.Some? ==>
              && (s.parsed >= s.readAt.value <==> exists x :: s.readAt.value <= x <= s.tried && x !in s.failed)
              && (s.failed == {} ==> s.parsed >= s.readAt.value)
  {
    RunInv(leftover, run);
    var s := After(leftover, run);
    if s.readAt.Some? {
      if s.parsed >= s.readAt.value {
        assert s.readAt.value <= s.parsed <= s.tried && s.parsed !in s.failed;
      }
      if x :| s.readAt.value <= x <= s.tried && x !in s.failed {
        assert s.parsed < x ==> x in s.failed;
      }
      assert s.parsed < s.readAt.value ==> s.readAt.value in s.failed;
    }
  }

  /** Skipping loses nothing: a reader that heard the last round's count and has
      read at it holds the publication there is. */
  lemma SkippedIsCurrent(leftover: bool, run: seq<Step>)
    requires var s := After(leftover, run); s.rounds == s.attempt && s.readAt == Some(s.rounds)
    ensures After(leftover, run).parsed == After(leftover, run).published
  {
    RunInv(leftover, run);
    var s := After(leftover, run);
    assert s.parsed < s.published ==> s.published in s.failed;
  }

  /** The two threads never write over each other, and no count goes back. */
  lemma BeatsDoNotGoBack(leftover: bool, run: seq<Step>, n: nat)
    requires n <= |run|
    ensures After(leftover, run[..n]).count <= After(leftover, run).count && After(leftover, run[..n]).file.count <= After(leftover, run).file.count
    ensures After(leftover, run).file.count <= After(leftover, run).count <= After(leftover, run).attempt
    decreases |run|
  {
    RunInv(leftover, run);
    if n < |run| {
      var prefix := run[..|run| - 1];
      BeatsDoNotGoBack(leftover, prefix, n);
      assert prefix[..n] == run[..n];
      RunInv(leftover, prefix);
      var s := After(leftover, prefix);
      if Can(s, run[|run| - 1]) { OnlyForward(s, run[|run| - 1]); }
    } else {
      assert run[..n] == run;
    }
  }

  lemma OnlyForward(s: State, e: Step)
    requires Inv(s) && Can(s, e)
    ensures s.count <= Do(s, e).count && s.file.count <= Do(s, e).file.count
  {
  }

  lemma HolderIsAlone(leftover: bool, run: seq<Step>, e: Step)
    requires !After(leftover, run).holder.Nobody? && Can(After(leftover, run), e)
    ensures !e.BeginBeat? && !e.Bump? && After(leftover, run).file == Torn(After(leftover, run).count)
  {
    RunInv(leftover, run);
  }

  /** One round by the node alone: published or not, counted and beaten. */
  function WholeRound(written: bool): seq<Step> {
    [Publish(written), Bump, BeginBeat(TheRound), EndBeat]
  }

  lemma {:induction false} AfterRound(leftover: bool, run: seq<Step>, written: bool)
    requires After(leftover, run).round.Working? && After(leftover, run).holder.Nobody?
    ensures var s, s' := After(leftover, run), After(leftover, run + WholeRound(written));
            s' == s.(attempt := s.attempt + 1, count := s.count + 1, file := Whole(s.count + 1),
                     published := (if written then s.attempt + 1 else s.published),
                     failed := (if written then s.failed else s.failed + {s.attempt + 1}))
  {
    var a := run + [Publish(written)];
    var b := a + [Bump];
    var c := b + [BeginBeat(TheRound)];
    var d := c + [EndBeat];
    assert run + WholeRound(written) == d;
    assert a[..|run|] == run && b[..|a|] == a && c[..|b|] == b && d[..|c|] == c;
    assert After(leftover, a) == Do(After(leftover, run), Publish(written));
    assert After(leftover, b) == Do(After(leftover, a), Bump);
    assert After(leftover, c) == Do(After(leftover, b), BeginBeat(TheRound));
  }

  /** A count reaches the disk whatever the round's thread is at: from every state of
      every run the beater needs no more than the beat under way to end and one of its
      own, and neither publishes nor counts. */
  lemma BeaterCatchesUp(leftover: bool, run: seq<Step>) returns (more: seq<Step>)
    ensures |more| <= 3 && forall e :: e in more ==> e == BeginBeat(TheBeater) || e == EndBeat
    ensures var s, s' := After(leftover, run), After(leftover, run + more);
            && s'.file == Whole(s.count) && s'.holder.Nobody?
            && s'.count == s.count && s'.attempt == s.attempt && s'.published == s.published
            && s'.rounds == s.rounds && s'.readAt == s.readAt && s'.parsed == s.parsed
  {
    var first: seq<Step> := if After(leftover, run).holder.Nobody? then [] else [EndBeat];
    assert (run + [EndBeat])[..|run|] == run && run + [] == run;
    var a := run + first;
    assert After(leftover, a).holder.Nobody?;
    var b := a + [BeginBeat(TheBeater)];
    var c := b + [EndBeat];
    assert b[..|a|] == a && c[..|b|] == b;
    assert After(leftover, b) == Do(After(leftover, a), BeginBeat(TheBeater));
    assert After(leftover, c) == Do(After(leftover, b), EndBeat);
    more := first + [BeginBeat(TheBeater), EndBeat];
    assert run + more == c;
  }

  /** And so the reader comes up to it: once the count is whole on disk it hears that
      count, and has parsed at it what was published by then. */
  lemma ReaderCatchesUp(leftover: bool, run: seq<Step>) returns (more: seq<Step>)
    ensures var s, s' := After(leftover, run), After(leftover, run + more);
            && s'.rounds == s.count && s'.count == s.count && s'.published == s.published
            && (s.count > 0 && s.published > 0 && s.readAt != Some(s.count) ==> s'.readAt == Some(s.count) && s'.parsed == s.published)
  {
    var beaten := BeaterCatchesUp(leftover, run);
    var a := run + beaten;
    var s := After(leftover, a);
    var b := a + [Hear(Some(s.count))];
    assert b[..|a|] == a;
    assert After(leftover, b) == Do(s, Hear(Some(s.count)));
    var c := b + [ReadFile];
    assert c[..|b|] == b;
    if Can(After(leftover, b), ReadFile) {
      more := beaten + [Hear(Some(s.count))] + [ReadFile];
      assert run + more == c;
    } else {
      more := beaten + [Hear(Some(s.count))];
      assert run + more == b;
    }
  }

  /** A publication that could not be written is beaten all the same: the first
      round published and the second not, the reader hears two and parses the
      first. */
  lemma FailedIsBeatenAllTheSame() returns (run: seq<Step>)
    ensures After(false, run).readAt == Some(2) && After(false, run).parsed == 1
  {
    var rounds := [] + WholeRound(true) + WholeRound(false);
    AfterRound(false, [], true);
    AfterRound(false, [] + WholeRound(true), false);
    var heard := rounds + [Hear(Some(2))];
    run := heard + [ReadFile];
    assert heard[..|rounds|] == rounds && run[..|heard|] == heard;
    assert After(false, heard) == Do(After(false, rounds), Hear(Some(2)));
  }
}
