/**
  What holds of the daily backlog over every run of one drain: the order of the
  remedies, conservation, and that the backlog clears and stays clear.
 */
module BacklogRuns {
  import opened Options
  import opened Backlogs

  /** A run from a directory, a state per round, whatever each drain takes. */
  ghost predicate IsRun(tag: Tag, initial: Files, run: seq<State>) {
    && run != [] && run[0] == Start(initial)
    && forall i :: 0 <= i < |run| - 1 ==> Next(tag, run[i], run[i + 1])
  }

  // Sizes.

  lemma {:induction false} ArrivalsCount(tag: Tag, from: nat, n: nat)
    ensures |Arrivals(tag, from, from + n)| == n
  {
    if n > 0 {
      ArrivalsCount(tag, from, n - 1);
      assert Arrivals(tag, from, from + n) == Arrivals(tag, from, from + n - 1) + {File(Some(tag), from + n)};
    }
  }

  lemma Disjoint<T>(a: set<T>, b: set<T>)
    requires a !! b
    ensures |a + b| == |a| + |b|
  {
  }

  lemma {:induction false} Within<T>(a: set<T>, b: set<T>)
    requires a <= b
    ensures |a| <= |b|
  {
    assert b == a + (b - a);
    Disjoint(a, b - a);
  }

  lemma Union<T>(a: set<T>, b: set<T>)
    ensures |a + b| <= |a| + |b| && |b| <= |a + b|
    ensures |a + b| == |a| + |b| <==> a !! b
  {
    assert a + b == (a - b) + b;
    Disjoint(a - b, b);
    assert a == (a - b) + (a * b);
    Disjoint(a - b, a * b);
    if |a + b| == |a| + |b| {
      assert |a * b| == 0;
      assert a * b == {};
    } else if a !! b {
      Disjoint(a, b);
    }
  }

  /** Names a feeder has yet to reach that stand in the directory already. */
  function Ahead(tag: Tag, files: Files, sequence: nat): Files {
    set f | f in files && f.feeder == Some(tag) && f.serial > sequence
  }

  function Settled(tag: Tag, s: State): nat {
    |s.files - Ahead(tag, s.files, s.sequence)|
  }

  lemma LandedSettled(tag: Tag, files: Files, from: nat, to: nat)
    requires from <= to
    ensures var landed := files + Arrivals(tag, from, to);
            |landed - Ahead(tag, landed, to)| == |files - Ahead(tag, files, from)| + (to - from)
  {
    var arrived := Arrivals(tag, from, to);
    var landed, here := files + arrived, files - Ahead(tag, files, from);
    ArrivalsCount(tag, from, to - from);
    LandedParts(tag, files, from, to);
    Disjoint(here, arrived);
  }

  lemma LandedParts(tag: Tag, files: Files, from: nat, to: nat)
    requires from <= to
    ensures var arrived, here := Arrivals(tag, from, to), files - Ahead(tag, files, from);
            var landed := files + arrived;
            here !! arrived && landed - Ahead(tag, landed, to) == here + arrived
  {
  }

  lemma LandedSizes(tag: Tag, s: State)
    ensures var landed := Landed(tag, s);
            && ARRIVAL <= |landed| <= |s.files| + ARRIVAL
            && (|landed| == |s.files| + ARRIVAL <==> s.files !! Arrivals(tag, s.sequence, s.sequence + ARRIVAL))
            && |landed - Ahead(tag, landed, s.sequence + ARRIVAL)| == Settled(tag, s) + ARRIVAL
  {
    ArrivalsCount(tag, s.sequence, ARRIVAL);
    Union(s.files, Arrivals(tag, s.sequence, s.sequence + ARRIVAL));
    LandedSettled(tag, s.files, s.sequence, s.sequence + ARRIVAL);
  }

  /** A drain takes no more of any part than it takes in all. */
  lemma TakenFrom<T>(landed: set<T>, left: set<T>, ahead: set<T>, ahead': set<T>)
    requires left <= landed && ahead' == ahead * left && ahead <= landed
    ensures |left - ahead'| + |landed| >= |landed - ahead| + |left|
  {
    assert landed == left + (landed - left);
    Disjoint(left, landed - left);
    assert landed - ahead <= (left - ahead') + (landed - left);
    Within(landed - ahead, (left - ahead') + (landed - left));
    Union(left - ahead', landed - left);
  }

  lemma DrainedSizes(tag: Tag, s: State, m: State)
    requires Drains(tag, s, m)
    ensures |m.files| <= |s.files| + ARRIVAL
    ensures Capacity(s) <= ARRIVAL ==> |m.files| + Capacity(s) <= |s.files| + ARRIVAL
    ensures Capacity(s) <= ARRIVAL ==> Settled(tag, m) + Capacity(s) >= Settled(tag, s) + ARRIVAL
    ensures |m.files| + Capacity(s) <= |s.files| + ARRIVAL || m.files == {}
  {
    LandedSizes(tag, s);
    var landed := Landed(tag, s);
    assert Ahead(tag, m.files, m.sequence) == Ahead(tag, landed, m.sequence) * m.files;
    TakenFrom(landed, m.files, Ahead(tag, landed, m.sequence), Ahead(tag, m.files, m.sequence));
  }

  // What every round keeps.

  ghost predicate Ladder(s: State) {
    && s.readers == (if s.tweaked then TWEAK_READERS else BASE_READERS)
    && s.nodes == (if s.scaled then 2 else 1)
    && (s.scaled ==> s.tweaked)
  }

  lemma CapacityIs(s: State)
    requires Ladder(s)
    ensures Capacity(s) == if s.scaled then 40 else if s.tweaked then 20 else 10
  {
  }

  /** Only the processes that fed it at the start, and this one, ever feed it. */
  ghost predicate FedBy(tag: Tag, initial: Files, files: Files) {
    Feeders(files) <= Feeders(initial) + {tag}
  }

  lemma FeedersStay(tag: Tag, initial: Files, s: State, m: State)
    requires Drains(tag, s, m) && FedBy(tag, initial, s.files)
    ensures FedBy(tag, initial, m.files) && m.feeders <= |Feeders(initial)| + 1
  {
    forall t | t in Feeders(m.files) ensures t in Feeders(initial) + {tag} {
      var f :| f in m.files && f.feeder == Some(t);
      if f in s.files { assert t in Feeders(s.files); }
    }
    Within(Feeders(m.files), Feeders(initial) + {tag});
  }

  lemma ShareExceeds(backlog: nat, feeders: nat, most: nat, limit: nat)
    requires feeders <= most && 1 <= most && backlog >= (limit + 1) * most
    ensures ShareOf(backlog, feeders) > limit
  {
    var d := if feeders < 1 then 1 else feeders;
    assert d * (limit + 1) <= most * (limit + 1);
    ShareIsOver(backlog, feeders, limit);
  }

  function Most(initial: Files): nat {
    |Feeders(initial)| + 1
  }

  /** How the escalation stands after `n` rounds: behind by twenty a round before
      the tweak and by ten before the node, so both come in time. */
  ghost predicate Climbs(tag: Tag, initial: Files, n: nat, s: State) {
    && Ladder(s) && FedBy(tag, initial, s.files)
    && (!s.tweaked ==> Settled(tag, s) >= 20 * n && n < 2 * Most(initial))
    && (!s.scaled ==> Settled(tag, s) >= 10 * n && n < 6 * Most(initial))
  }

  lemma ClimbsStart(tag: Tag, initial: Files)
    ensures Climbs(tag, initial, 0, Start(initial))
  {
  }

  lemma SettledIsWithin(tag: Tag, s: State)
    ensures Settled(tag, s) <= |s.files|
  {
    Within(s.files - Ahead(tag, s.files, s.sequence), s.files);
  }

  /** A share behind by that much escalates. */
  lemma Escalates(m: State, most: nat)
    requires m.backlog == |m.files| && m.feeders <= most && 1 <= most
    ensures !m.tweaked && m.backlog >= 36 * most ==> Judged(m).tweaked
    ensures m.tweaked && m.backlog >= 56 * most ==> Judged(m).scaled
  {
    if m.backlog >= 36 * most { ShareExceeds(m.backlog, m.feeders, most, TWEAK_AT); }
    if m.backlog >= 56 * most { ShareExceeds(m.backlog, m.feeders, most, SCALE_AT); }
  }

  lemma JudgedIs(m: State)
    ensures var s := Judged(m);
            && s.files == m.files && s.sequence == m.sequence && s.drained == m.drained
            && (m.tweaked ==> s.tweaked) && (m.scaled ==> s.scaled) && (s.scaled ==> m.scaled || m.tweaked)
            && (Ladder(m) ==> Ladder(s))
  {
    var share := ShareOf(m.backlog, m.feeders);
    assert Judged(m) == Escalated(m, share).(previous := share);
  }

  lemma ClimbsStays(tag: Tag, initial: Files, n: nat, s: State, m: State)
    requires Climbs(tag, initial, n, s) && Drains(tag, s, m)
    ensures Climbs(tag, initial, n + 1, Judged(m))
  {
    DrainedSizes(tag, s, m);
    FeedersStay(tag, initial, s, m);
    CapacityIs(s);
    SettledIsWithin(tag, m);
    Escalates(m, Most(initial));
    JudgedIs(m);
  }

  /** And how deep it can get: twenty more a round until the node is there, then
      ten less. */
  ghost predicate Falls(initial: Files, n: nat, s: State) {
    if n < 6 * Most(initial) then |s.files| <= |initial| + 20 * n
    else s.files == {} || |s.files| + 10 * n <= |initial| + 180 * Most(initial)
  }

  lemma FallsStays(tag: Tag, initial: Files, n: nat, s: State, m: State)
    requires Climbs(tag, initial, n, s) && Falls(initial, n, s) && Drains(tag, s, m)
    ensures Falls(initial, n + 1, Judged(m))
  {
    DrainedSizes(tag, s, m);
    CapacityIs(s);
    JudgedIs(m);
  }

  lemma {:induction false} RunKeeps(tag: Tag, initial: Files, run: seq<State>)
    requires IsRun(tag, initial, run)
    ensures var n := |run| - 1; Climbs(tag, initial, n, run[n]) && Falls(initial, n, run[n])
  {
    var n := |run| - 1;
    if n == 0 {
      ClimbsStart(tag, initial);
    } else {
      RunKeeps(tag, initial, run[..n]);
      assert Next(tag, run[n - 1], run[n - 1 + 1]);
      var m :| Drains(tag, run[n - 1], m) && run[n] == Judged(m);
      ClimbsStays(tag, initial, n - 1, run[n - 1], m);
      FallsStays(tag, initial, n - 1, run[n - 1], m);
    }
  }

  lemma IsRunPrefix(tag: Tag, initial: Files, run: seq<State>, n: nat)
    requires IsRun(tag, initial, run) && 0 < n <= |run|
    ensures IsRun(tag, initial, run[..n])
  {
    forall i | 0 <= i < n - 1 ensures Next(tag, run[..n][i], run[..n][i + 1]) {
      assert Next(tag, run[i], run[i + 1]);
    }
  }

  /** From any directory the backlog clears within a number of rounds that its
      depth and its feeders give, and stays clear. */
  lemma BacklogClears(tag: Tag, initial: Files, run: seq<State>, i: nat)
    requires IsRun(tag, initial, run) && i < |run|
    requires 10 * i > |initial| + 180 * (|Feeders(initial)| + 1)
    ensures run[i].files == {} && run[i].backlog == 0
  {
    IsRunPrefix(tag, initial, run, i + 1);
    RunKeeps(tag, initial, run[..i + 1]);
    assert Next(tag, run[i - 1], run[i - 1 + 1]);
    var m :| Drains(tag, run[i - 1], m) && run[i] == Judged(m);
    JudgedIs(m);
  }

  /** The tweak comes within two rounds a feeder and the node within six, strictly
      after it; neither is taken back or taken twice. */
  lemma TweakBeforeScale(tag: Tag, initial: Files, run: seq<State>, i: nat)
    requires IsRun(tag, initial, run) && i < |run|
    ensures run[i].readers == (if run[i].tweaked then 4 else 2) && run[i].nodes == (if run[i].scaled then 2 else 1)
    ensures run[i].scaled ==> i > 0 && run[i - 1].tweaked
    ensures i + 1 < |run| ==> (run[i].tweaked ==> run[i + 1].tweaked) && (run[i].scaled ==> run[i + 1].scaled)
    ensures i >= 2 * (|Feeders(initial)| + 1) ==> run[i].tweaked
    ensures i >= 6 * (|Feeders(initial)| + 1) ==> run[i].scaled
  {
    IsRunPrefix(tag, initial, run, i + 1);
    RunKeeps(tag, initial, run[..i + 1]);
    if i > 0 {
      assert Next(tag, run[i - 1], run[i - 1 + 1]);
      var m :| Drains(tag, run[i - 1], m) && run[i] == Judged(m);
      IsRunPrefix(tag, initial, run, i);
      RunKeeps(tag, initial, run[..i]);
      JudgedIs(m);
    }
    if i + 1 < |run| {
      assert Next(tag, run[i], run[i + 1]);
      var m :| Drains(tag, run[i], m) && run[i + 1] == Judged(m);
      JudgedIs(m);
    }
  }

  /** No round landed an arrival on a name already there. */
  ghost predicate NamesWereFree(tag: Tag, run: seq<State>) {
    forall i :: 0 <= i < |run| - 1 ==> run[i].files !! Arrivals(tag, run[i].sequence, run[i].sequence + ARRIVAL)
  }

  lemma {:induction false} Accounts(tag: Tag, initial: Files, run: seq<State>)
    requires IsRun(tag, initial, run)
    ensures var n := |run| - 1;
            && run[n].sequence == ARRIVAL * n
            && run[n].drained + |run[n].files| <= |initial| + ARRIVAL * n
            && (run[n].drained + |run[n].files| == |initial| + ARRIVAL * n <==> NamesWereFree(tag, run))
  {
    var n := |run| - 1;
    if n > 0 {
      IsRunPrefix(tag, initial, run, n);
      var before := run[..n];
      Accounts(tag, initial, before);
      assert Next(tag, run[n - 1], run[n - 1 + 1]);
      var m :| Drains(tag, run[n - 1], m) && run[n] == Judged(m);
      LandedSizes(tag, run[n - 1]);
      JudgedIs(m);
      FreeGrows(tag, run);
    }
  }

  lemma FreeGrows(tag: Tag, run: seq<State>)
    requires |run| > 1
    ensures var n := |run| - 1;
            NamesWereFree(tag, run) <==>
              NamesWereFree(tag, run[..n]) &&
              run[n - 1].files !! Arrivals(tag, run[n - 1].sequence, run[n - 1].sequence + ARRIVAL)
  {
    var n := |run| - 1;
    assert run[..n][n - 1] == run[n - 1];
    if NamesWereFree(tag, run) {
      forall i | 0 <= i < n - 1
        ensures run[..n][i].files !! Arrivals(tag, run[..n][i].sequence, run[..n][i].sequence + ARRIVAL)
      {
        assert run[..n][i] == run[i];
      }
    }
    if NamesWereFree(tag, run[..n]) {
      forall i | 0 <= i < n - 1 ensures run[i].files !! Arrivals(tag, run[i].sequence, run[i].sequence + ARRIVAL) {
        assert run[..n][i] == run[i];
      }
    }
  }

  /** What was drained and what waits is what was there and what arrived, exactly
      as long as no arrival falls on a name that still stands. */
  lemma BacklogConserved(tag: Tag, initial: Files, run: seq<State>)
    requires IsRun(tag, initial, run)
    ensures var n := |run| - 1;
            run[n].drained + |run[n].files| == |initial| + ARRIVAL * n <==> NamesWereFree(tag, run)
  {
    Accounts(tag, initial, run);
  }

  lemma {:induction false} NothingAhead(tag: Tag, initial: Files, run: seq<State>)
    requires IsRun(tag, initial, run) && Ahead(tag, initial, 0) == {}
    ensures var s := run[|run| - 1]; Ahead(tag, s.files, s.sequence) == {}
  {
    var n := |run| - 1;
    if n > 0 {
      IsRunPrefix(tag, initial, run, n);
      NothingAhead(tag, initial, run[..n]);
      assert Next(tag, run[n - 1], run[n - 1 + 1]);
      var m :| Drains(tag, run[n - 1], m) && run[n] == Judged(m);
      JudgedIs(m);
      StillNothingAhead(tag, run[n - 1], m);
    }
  }

  lemma StillNothingAhead(tag: Tag, s: State, m: State)
    requires Drains(tag, s, m) && Ahead(tag, s.files, s.sequence) == {}
    ensures Ahead(tag, m.files, m.sequence) == {}
  {
    forall f | f in m.files && f.feeder == Some(tag) ensures f.serial <= m.sequence {
      if f in s.files { assert f !in Ahead(tag, s.files, s.sequence); }
    }
  }

  /** A directory that holds none of the drain's own names yet is conserved in
      every run. */
  lemma OwnNamesAbsentConserves(tag: Tag, initial: Files, run: seq<State>)
    requires IsRun(tag, initial, run) && Ahead(tag, initial, 0) == {}
    ensures var n := |run| - 1; run[n].drained + |run[n].files| == |initial| + ARRIVAL * n
  {
    forall i | 0 <= i < |run| - 1 ensures run[i].files !! Arrivals(tag, run[i].sequence, run[i].sequence + ARRIVAL) {
      IsRunPrefix(tag, initial, run, i + 1);
      NothingAhead(tag, initial, run[..i + 1]);
      assert forall f :: f in Ahead(tag, run[i].files, run[i].sequence) <==>
                         f in run[i].files && f.feeder == Some(tag) && f.serial > run[i].sequence;
    }
    BacklogConserved(tag, initial, run);
  }

  /** A file under one of the first round's own names, left by a process of the same
      id, makes every run from there fall short. */
  lemma RecurringIdLosesCount(tag: Tag, initial: Files, run: seq<State>, serial: nat)
    requires IsRun(tag, initial, run) && |run| > 1
    requires 0 < serial <= ARRIVAL && File(Some(tag), serial) in initial
    ensures var n := |run| - 1; run[n].drained + |run[n].files| < |initial| + ARRIVAL * n
  {
    var f := File(Some(tag), serial);
    assert f in Arrivals(tag, run[0].sequence, run[0].sequence + ARRIVAL) && f in run[0].files;
    assert !NamesWereFree(tag, run);
    Accounts(tag, initial, run);
  }
}
