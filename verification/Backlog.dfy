/**
  The daily backlog: arrivals land, a bounded capacity drains, and the drain
  escalates, first by a tweak and then by a node, when it falls behind.
 */
module Backlogs {
  import opened Options

  const ARRIVAL: nat := 30
  const PER_READER: nat := 5
  const BASE_READERS: nat := 2
  const TWEAK_READERS: nat := 4
  const TWEAK_AT: nat := 35
  const SCALE_AT: nat := 55
  const CEILING: nat := 150

  type Tag = string

  /** A file by its name: which process fed it, where the name tells, and what
      else the name says. */
  datatype File = File(feeder: Option<Tag>, serial: nat)

  type Files = set<File>

  function Feeders(files: Files): set<Tag> {
    set f | f in files && f.feeder.Some? :: f.feeder.value
  }

  /** The names a feeder gives its arrivals after `from` and up to `to`. */
  function Arrivals(tag: Tag, from: nat, to: nat): Files {
    set serial | from < serial <= to :: File(Some(tag), serial)
  }

  datatype Mark = Pass | Warn | Fail

  /** A drain between two rounds, and the directory it works. */
  datatype State = State(files: Files, sequence: nat, backlog: nat, feeders: nat, previous: nat, drained: nat,
                         readers: nat, nodes: nat, tweaked: bool, scaled: bool)

  function Start(files: Files): State {
    State(files, 0, 0, 1, 0, 0, BASE_READERS, 1, false, false)
  }

  function Capacity(s: State): nat {
    s.nodes * s.readers * PER_READER
  }

  function ShareOf(backlog: nat, feeders: nat): nat {
    backlog / (if feeders < 1 then 1 else feeders)
  }

  lemma QuotientWithin(n: nat, d: nat, limit: nat)
    requires d > 0
    ensures n / d > limit <==> n >= (limit + 1) * d
  {
    var q := n / d;
    assert q * d <= n < (q + 1) * d;
    if q > limit { assert (limit + 1) * d <= q * d; } else { assert (q + 1) * d <= (limit + 1) * d; }
  }

  /** Every feeder's share is over a limit, one feeder counted where none is told. */
  predicate Over(backlog: nat, feeders: nat, limit: nat) {
    backlog >= (limit + 1) * (if feeders < 1 then 1 else feeders)
  }

  lemma ShareIsOver(backlog: nat, feeders: nat, limit: nat)
    ensures ShareOf(backlog, feeders) > limit <==> Over(backlog, feeders, limit)
  {
    QuotientWithin(backlog, if feeders < 1 then 1 else feeders, limit);
  }

  /** The remedy the share calls for: the tweak, and a node once that is taken. */
  function Escalated(s: State, share: nat): State {
    if !s.tweaked && share > TWEAK_AT then s.(readers := TWEAK_READERS, tweaked := true)
    else if s.tweaked && !s.scaled && share > SCALE_AT then s.(nodes := s.nodes + 1, scaled := true)
    else s
  }

  function Landed(tag: Tag, s: State): Files {
    s.files + Arrivals(tag, s.sequence, s.sequence + ARRIVAL)
  }

  /** What a round's arrivals and drain leave: which of the waiting it takes is
      free, how many is not. */
  ghost predicate Drains(tag: Tag, s: State, s': State) {
    var landed := Landed(tag, s);
    var processed := if Capacity(s) < |landed| then Capacity(s) else |landed|;
    && s'.files <= landed
    && |landed| == |s'.files| + processed
    && s' == s.(files := s'.files, sequence := s.sequence + ARRIVAL, drained := s.drained + processed,
                backlog := |s'.files|, feeders := |Feeders(s'.files)|)
  }

  /** The rest of a round: escalate by the share, and remember it. */
  function Judged(s: State): State {
    var share := ShareOf(s.backlog, s.feeders);
    Escalated(s, share).(previous := share)
  }

  /** Exactly what a round's depth changes: over 35 a feeder the concurrency, and
      once that was raised before, over 55 a feeder one node more; each once, and
      nothing else but the share remembered, a limit passed exactly when it is over. */
  lemma RemediesExactly(m: State)
    ensures var s := Judged(m);
            && (s.tweaked <==> m.tweaked || Over(m.backlog, m.feeders, 35))
            && (s.scaled <==> m.scaled || (m.tweaked && Over(m.backlog, m.feeders, 55)))
            && s.readers == (if s.tweaked && !m.tweaked then 4 else m.readers)
            && s.nodes == (if s.scaled && !m.scaled then m.nodes + 1 else m.nodes)
            && (forall limit :: s.previous > limit <==> Over(m.backlog, m.feeders, limit))
            && s == m.(readers := s.readers, nodes := s.nodes, tweaked := s.tweaked, scaled := s.scaled, previous := s.previous)
  {
    ShareIsOver(m.backlog, m.feeders, 35);
    ShareIsOver(m.backlog, m.feeders, 55);
    forall limit ensures Judged(m).previous > limit <==> Over(m.backlog, m.feeders, limit) {
      ShareIsOver(m.backlog, m.feeders, limit);
    }
  }

  ghost predicate Next(tag: Tag, s: State, s': State) {
    exists measured :: Drains(tag, s, measured) && s' == Judged(measured)
  }

  /** A listing of a directory, in whatever order it comes. */
  ghost predicate Lists(listing: seq<File>, files: Files) {
    && (forall i, j :: 0 <= i < j < |listing| ==> listing[i] != listing[j])
    && (forall f :: f in files <==> f in listing)
  }

  /** The directory, which other processes may change too. */
  class Directory {
    var files: Files

    constructor (files: Files)
      ensures this.files == files
    {
      this.files := files;
    }
  }

  /** Remove up to `capacity` of the listed files; one already gone does not
      count, and the next is taken. */
  method Drain(dir: Directory, capacity: nat, listing: seq<File>) returns (processed: nat)
    modifies dir
    ensures dir.files <= old(dir.files) && |old(dir.files)| == |dir.files| + processed && processed <= capacity
    ensures forall f :: f in old(dir.files) && f !in listing ==> f in dir.files
    ensures processed < capacity ==> forall f :: f in listing ==> f !in dir.files
  {
    processed := 0;
    var i := 0;
    while i < |listing| && processed < capacity
      invariant 0 <= i <= |listing| && processed <= capacity
      invariant dir.files <= old(dir.files) && |old(dir.files)| == |dir.files| + processed
      invariant forall f :: f in old(dir.files) && f !in listing ==> f in dir.files
      invariant forall k :: 0 <= k < i ==> listing[k] !in dir.files
    {
      if listing[i] in dir.files {
        dir.files := dir.files - {listing[i]};
        processed := processed + 1;
      }
      i := i + 1;
    }
  }

  /** The depth of a listed directory, and of how many feeders it tells. */
  method Measure(files: Files, listing: seq<File>) returns (backlog: nat, feeders: nat)
    requires Lists(listing, files)
    ensures backlog == |files| && feeders == |Feeders(files)|
  {
    backlog := 0;
    var tags: set<Tag> := {};
    ghost var seen: Files := {};
    for i := 0 to |listing|
      invariant seen == set k | 0 <= k < i :: listing[k]
      invariant backlog == |seen| && tags == Feeders(seen)
    {
      assert listing[i] !in seen;
      backlog := backlog + 1;
      FeedersGrow(seen, listing[i]);
      seen := seen + {listing[i]};
      if listing[i].feeder.Some? {
        tags := tags + {listing[i].feeder.value};
      }
    }
    assert seen == files;
    feeders := |tags|;
  }

  lemma FeedersGrow(files: Files, f: File)
    ensures Feeders(files + {f}) == Feeders(files) + if f.feeder.Some? then {f.feeder.value} else {}
  {
    forall tag | tag in Feeders(files) ensures tag in Feeders(files + {f}) {
      var g :| g in files && g.feeder == Some(tag);
      assert g in files + {f};
    }
    if f.feeder.Some? { assert f in files + {f}; }
  }

  /** A listing of everything leaves the drain nothing to miss. */
  lemma DrainedAll(before: Files, after: Files, listing: seq<File>, capacity: nat, processed: nat)
    requires Lists(listing, before) && after <= before && |before| == |after| + processed && processed <= capacity
    requires processed < capacity ==> forall f :: f in listing ==> f !in after
    ensures processed == if capacity < |before| then capacity else |before|
  {
    if processed < capacity {
      assert after == {};
    }
  }

  class DailyBacklog {
    const tag: Tag
    const dir: Directory
    var round: nat
    var sequence: nat
    var backlog: nat
    var feeders: nat
    var previous: nat
    var drained: nat
    var readers: nat
    var nodes: nat
    var tweaked: bool
    var scaled: bool

    ghost function Contents(): State
      reads this, dir
    {
      State(dir.files, sequence, backlog, feeders, previous, drained, readers, nodes, tweaked, scaled)
    }

    constructor (tag: Tag, dir: Directory)
      ensures this.tag == tag && this.dir == dir && Contents() == Start(dir.files) && round == 0
    {
      this.tag, this.dir := tag, dir;
      round, sequence, backlog, feeders, previous, drained := 0, 0, 0, 1, 0, 0;
      readers, nodes, tweaked, scaled := BASE_READERS, 1, false, false;
    }

    /** Thirty more files, under this drain's own next names. */
    method Arrive()
      modifies this`sequence, dir
      ensures sequence == old(sequence) + ARRIVAL
      ensures dir.files == old(dir.files) + Arrivals(tag, old(sequence), sequence)
    {
      for i := 0 to ARRIVAL
        invariant sequence == old(sequence) + i
        invariant dir.files == old(dir.files) + Arrivals(tag, old(sequence), sequence)
      {
        sequence := sequence + 1;
        dir.files := dir.files + {File(Some(tag), sequence)};
      }
    }

    method Escalate(share: nat)
      modifies this`readers, this`nodes, this`tweaked, this`scaled
      ensures Contents() == Escalated(old(Contents()), share)
    {
      if !tweaked && share > TWEAK_AT {
        readers, tweaked := TWEAK_READERS, true;
      } else if tweaked && !scaled && share > SCALE_AT {
        nodes, scaled := nodes + 1, true;
      }
    }

    /** List the directory, in whatever order `order` puts it. */
    method List(order: Files -> seq<File>) returns (listing: seq<File>)
      requires forall files :: Lists(order(files), files)
      ensures Lists(listing, dir.files)
    {
      listing := order(dir.files);
    }

    /** List the directory and drain it as far as `capacity` goes. */
    method DrainListed(order: Files -> seq<File>, capacity: nat) returns (processed: nat)
      requires forall files :: Lists(order(files), files)
      modifies dir
      ensures dir.files <= old(dir.files) && |old(dir.files)| == |dir.files| + processed
      ensures processed == if capacity < |old(dir.files)| then capacity else |old(dir.files)|
    {
      ghost var landed := dir.files;
      var listing := List(order);
      processed := Drain(dir, capacity, listing);
      DrainedAll(landed, dir.files, listing, capacity, processed);
    }

    method Work(order: Files -> seq<File>)
      requires forall files :: Lists(order(files), files)
      modifies this`sequence, this`drained, this`backlog, this`feeders, dir
      ensures Drains(tag, old(Contents()), Contents())
    {
      Arrive();
      var processed := DrainListed(order, nodes * readers * PER_READER);
      drained := drained + processed;
      var listing := List(order);
      backlog, feeders := Measure(dir.files, listing);
    }

    /** A round of the one drain working the directory. */
    method Tick(order: Files -> seq<File>) returns (mark: Mark)
      requires forall files :: Lists(order(files), files)
      modifies this, dir
      ensures Next(tag, old(Contents()), Contents()) && round == old(round) + 1
      ensures mark == if Over(backlog, feeders, 150) then Fail else if Over(backlog, feeders, old(previous)) then Warn else Pass
      ensures forall limit :: previous > limit <==> Over(backlog, feeders, limit)
    {
      round := round + 1;
      Work(order);
      ghost var measured := Contents();
      var share := ShareOf(backlog, feeders);
      Escalate(share);
      mark := if share > CEILING then Fail else if share > previous then Warn else Pass;
      previous := share;
      RemediesExactly(measured);
      ShareIsOver(backlog, feeders, CEILING);
      ShareIsOver(backlog, feeders, old(previous));
      assert Contents() == Judged(measured);
    }
  }
}
