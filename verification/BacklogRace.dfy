/**
  Many drains over one directory, each file operation a step and the steps in any
  order: no file is counted by two, and the sum is kept.
 */
module BacklogRace {
  import opened Options
  import opened Backlogs
  import BacklogRuns

  /** A drain that removed a file and counted it. */
  datatype Count = Count(drain: Tag, file: File)

  datatype Shared = Shared(files: Files, reached: map<Tag, nat>, dropped: nat, counts: seq<Count>)

  /** A drain drops its next arrival, or tries to remove a file it has listed. */
  datatype Event = Drop(tag: Tag) | Remove(tag: Tag, file: File)

  function Reached(s: Shared, tag: Tag): nat {
    if tag in s.reached then s.reached[tag] else 0
  }

  function Step(s: Shared, e: Event): Shared {
    match e
    case Drop(tag) =>
      var n := Reached(s, tag) + 1;
      s.(files := s.files + {File(Some(tag), n)}, reached := s.reached[tag := n], dropped := s.dropped + 1)
    case Remove(tag, file) =>
      if file in s.files then s.(files := s.files - {file}, counts := s.counts + [Count(tag, file)]) else s
  }

  function After(initial: Files, run: seq<Event>): Shared {
    if run == [] then Shared(initial, map[], 0, []) else Step(After(initial, run[..|run| - 1]), run[|run| - 1])
  }

  /** None of the drains' own names stands in the directory at the start. */
  ghost predicate NoneAhead(tags: seq<Tag>, initial: Files) {
    forall f :: f in initial && f.feeder.Some? && f.feeder.value in tags ==> f.serial == 0
  }

  ghost predicate Under(s: Shared, tags: seq<Tag>, f: File) {
    f.feeder.Some? && f.feeder.value in tags ==> f.serial <= Reached(s, f.feeder.value)
  }

  ghost predicate CountedOnce(s: Shared) {
    && (forall i, j :: 0 <= i < j < |s.counts| ==> s.counts[i].file != s.counts[j].file)
    && (forall i :: 0 <= i < |s.counts| ==> s.counts[i].file !in s.files)
  }

  ghost predicate AllDifferent(tags: seq<Tag>) {
    forall i, j :: 0 <= i < j < |tags| ==> tags[i] != tags[j]
  }

  ghost predicate Inv(tags: seq<Tag>, initial: Files, s: Shared) {
    && (forall f :: f in s.files ==> Under(s, tags, f))
    && (forall i :: 0 <= i < |s.counts| ==> Under(s, tags, s.counts[i].file))
    && CountedOnce(s)
    && |s.counts| + |s.files| == |initial| + s.dropped
  }

  lemma StepInv(tags: seq<Tag>, initial: Files, s: Shared, e: Event)
    requires Inv(tags, initial, s) && e.tag in tags
    ensures Inv(tags, initial, Step(s, e))
  {
    if e.Drop? { DropInv(tags, initial, s, e.tag); } else { RemoveInv(tags, initial, s, e.tag, e.file); }
  }

  lemma DropInv(tags: seq<Tag>, initial: Files, s: Shared, tag: Tag)
    requires Inv(tags, initial, s) && tag in tags
    ensures Inv(tags, initial, Step(s, Drop(tag)))
  {
    var s', f := Step(s, Drop(tag)), File(Some(tag), Reached(s, tag) + 1);
    assert !Under(s, tags, f);
    assert f !in s.files;
    forall g | Under(s, tags, g) || g == f ensures Under(s', tags, g) {}
  }

  lemma RemoveInv(tags: seq<Tag>, initial: Files, s: Shared, tag: Tag, file: File)
    requires Inv(tags, initial, s)
    ensures Inv(tags, initial, Step(s, Remove(tag, file)))
  {
    var s' := Step(s, Remove(tag, file));
    forall g | Under(s, tags, g) ensures Under(s', tags, g) {}
  }

  lemma {:induction false} RunInv(tags: seq<Tag>, initial: Files, run: seq<Event>)
    requires NoneAhead(tags, initial) && forall e :: e in run ==> e.tag in tags
    ensures Inv(tags, initial, After(initial, run))
  {
    if run != [] {
      RunInv(tags, initial, run[..|run| - 1]);
      StepInv(tags, initial, After(initial, run[..|run| - 1]), run[|run| - 1]);
    }
  }

  /** What one drain counted, and what several counted together. */
  function CountedBy(counts: seq<Count>, tag: Tag): nat {
    if counts == [] then 0
    else CountedBy(counts[..|counts| - 1], tag) + if counts[|counts| - 1].drain == tag then 1 else 0
  }

  function Total(counts: seq<Count>, drains: seq<Tag>): nat {
    if drains == [] then 0 else CountedBy(counts, drains[0]) + Total(counts, drains[1..])
  }

  lemma {:induction false} TotalGrows(counts: seq<Count>, one: Count, drains: seq<Tag>)
    requires AllDifferent(drains)
    ensures Total(counts + [one], drains) == Total(counts, drains) + if one.drain in drains then 1 else 0
  {
    if drains != [] {
      TotalGrows(counts, one, drains[1..]);
      assert (counts + [one])[..|counts|] == counts;
      assert one.drain == drains[0] ==> one.drain !in drains[1..];
    }
  }

  lemma {:induction false} TotalNothing(drains: seq<Tag>)
    ensures Total([], drains) == 0
  {
    if drains != [] { TotalNothing(drains[1..]); }
  }

  ghost predicate Theirs(counts: seq<Count>, drains: seq<Tag>) {
    forall one :: one in counts ==> one.drain in drains
  }

  lemma {:induction false} TotalIsAll(counts: seq<Count>, drains: seq<Tag>)
    requires AllDifferent(drains)
    requires Theirs(counts, drains)
    ensures Total(counts, drains) == |counts|
  {
    if counts == [] {
      TotalNothing(drains);
    } else {
      var n := |counts| - 1;
      TotalIsAll(counts[..n], drains);
      TotalGrows(counts[..n], counts[n], drains);
      assert counts == counts[..n] + [counts[n]];
    }
  }

  lemma {:induction false} CountsAreTheirs(initial: Files, run: seq<Event>, drains: seq<Tag>)
    requires forall e :: e in run ==> e.tag in drains
    ensures Theirs(After(initial, run).counts, drains)
  {
    if run != [] {
      CountsAreTheirs(initial, run[..|run| - 1], drains);
      var s, e := After(initial, run[..|run| - 1]), run[|run| - 1];
      assert e in run && e.tag in drains;
      assert Step(s, e).counts == s.counts || Step(s, e).counts == s.counts + [Count(e.tag, e.file)];
    }
  }

  /** Whatever the interleaving of any number of drains, no file is counted
      twice, by one drain or by two, and what they drained together and what
      waits is what was there and what they dropped. */
  lemma RaceConserved(initial: Files, run: seq<Event>, drains: seq<Tag>)
    requires AllDifferent(drains)
    requires NoneAhead(drains, initial) && forall e :: e in run ==> e.tag in drains
    ensures var s := After(initial, run);
            CountedOnce(s) && Total(s.counts, drains) + |s.files| == |initial| + s.dropped
  {
    RunInv(drains, initial, run);
    CountsAreTheirs(initial, run, drains);
    TotalIsAll(After(initial, run).counts, drains);
  }

  /** The sum and the single counts, over one run. */
  ghost predicate SumKept(initial: Files, run: seq<Event>, drains: seq<Tag>) {
    var s := After(initial, run);
    CountedOnce(s) && Total(s.counts, drains) + |s.files| == |initial| + s.dropped
  }

  ghost predicate ByDrains(run: seq<Event>, drains: seq<Tag>) {
    forall e :: e in run ==> e.tag in drains
  }

  function Drops(tag: Tag, n: nat): seq<Event> {
    if n == 0 then [] else Drops(tag, n - 1) + [Drop(tag)]
  }

  lemma {:induction false} DropsAre(tag: Tag, n: nat, drains: seq<Tag>)
    requires tag in drains
    ensures ByDrains(Drops(tag, n), drains)
  {
    if n > 0 { DropsAre(tag, n - 1, drains); }
  }

  /** A drain that only drops, and nobody removes. */
  lemma {:induction false} AfterDrops(initial: Files, tag: Tag, n: nat)
    ensures var s := After(initial, Drops(tag, n));
            && s.files == initial + Arrivals(tag, 0, n) && s.dropped == n && Reached(s, tag) == n && s.counts == []
  {
    if n > 0 {
      AfterDrops(initial, tag, n - 1);
      assert Drops(tag, n)[..|Drops(tag, n)| - 1] == Drops(tag, n - 1);
      OneMoreDrop(initial, After(initial, Drops(tag, n - 1)), tag, n);
    }
  }

  lemma OneMoreDrop(initial: Files, s: Shared, tag: Tag, n: nat)
    requires n > 0 && s.files == initial + Arrivals(tag, 0, n - 1) && Reached(s, tag) == n - 1
    ensures var s' := Step(s, Drop(tag));
            && s'.files == initial + Arrivals(tag, 0, n) && s'.dropped == s.dropped + 1
            && Reached(s', tag) == n && s'.counts == s.counts
  {
    assert Arrivals(tag, 0, n) == Arrivals(tag, 0, n - 1) + {File(Some(tag), n)};
  }

  lemma ShortSum(initial: Files, run: seq<Event>, drains: seq<Tag>)
    requires After(initial, run).counts == [] && |After(initial, run).files| < |initial| + After(initial, run).dropped
    ensures !SumKept(initial, run, drains)
  {
    TotalNothing(drains);
  }

  lemma DropsFallShort(initial: Files, tag: Tag, n: nat)
    requires n > 0 && File(Some(tag), n) in initial
    ensures |initial + Arrivals(tag, 0, n)| < |initial| + n
  {
    BacklogRuns.ArrivalsCount(tag, 0, n);
    Overlap(initial, Arrivals(tag, 0, n), File(Some(tag), n));
  }

  /** It comes to a name of its own that stands there, and the sum falls short. */
  lemma OwnNameFallsShort(initial: Files, tag: Tag, n: nat, drains: seq<Tag>)
    requires tag in drains && n > 0 && File(Some(tag), n) in initial
    ensures ByDrains(Drops(tag, n), drains) && !SumKept(initial, Drops(tag, n), drains)
  {
    DropsAre(tag, n, drains);
    AfterDrops(initial, tag, n);
    DropsFallShort(initial, tag, n);
    ShortSum(initial, Drops(tag, n), drains);
  }

  lemma Overlap<T>(a: set<T>, b: set<T>, x: T)
    requires x in a && x in b
    ensures |a + b| < |a| + |b|
  {
    BacklogRuns.Union(a, b);
  }

  /** The sum is kept in every run of the drains exactly when none of their own names
      stands in the directory at the start. */
  lemma RaceConservedExactly(initial: Files, drains: seq<Tag>)
    requires AllDifferent(drains)
    ensures (forall run :: ByDrains(run, drains) ==> SumKept(initial, run, drains)) <==> NoneAhead(drains, initial)
  {
    if NoneAhead(drains, initial) {
      forall run | ByDrains(run, drains) ensures SumKept(initial, run, drains) { RaceConserved(initial, run, drains); }
    } else {
      var f :| f in initial && f.feeder.Some? && f.feeder.value in drains && f.serial != 0;
      OwnNameFallsShort(initial, f.feeder.value, f.serial, drains);
    }
  }
}
