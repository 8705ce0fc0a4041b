/**
  The handoff links a topology draws: what the roster configures and what the
  hops observed, merged, each pair of stages once.
 */
module HandoffLinks {
  import opened Options
  import opened Stages
  import opened Rosters

  /** Deliveries over one link, the stages by their names. */
  datatype Hop = Hop(from: Name, fromStage: string, to: Name, toStage: string, count: nat)

  datatype Pair = Pair(from: Name, fromStage: Stage, to: Name, toStage: Stage)

  datatype Entry = Entry(pair: Pair, configured: bool, count: nat)

  datatype Origin = Configured | Both | Observed

  function StageNamed(name: string): Option<Stage> {
    if name == "receive" then Some(Receive)
    else if name == "process" then Some(Process)
    else if name == "send" then Some(Send)
    else None
  }

  /** A word names a stage exactly when it is that stage's name. */
  lemma NamedByItsWord(word: string, stage: Stage)
    ensures StageNamed(word) == Some(stage) <==> word == StageWord(stage)
  {
  }

  function PairOf(hop: Hop): Option<Pair> {
    match (StageNamed(hop.fromStage), StageNamed(hop.toStage))
    case (Some(from), Some(to)) => Some(Pair(hop.from, from, hop.to, to))
    case _ => None
  }

  function Row(sender: Name, from: Stage, receivers: seq<Name>, to: Stage): seq<Pair> {
    seq(|receivers|, i requires 0 <= i < |receivers| => Pair(sender, from, receivers[i], to))
  }

  function Cross(senders: seq<Name>, from: Stage, receivers: seq<Name>, to: Stage): seq<Pair> {
    if senders == [] then [] else Row(senders[0], from, receivers, to) + Cross(senders[1..], from, receivers, to)
  }

  /** Who may hand to whom: each server of a stage to each of the next. */
  function ConfiguredPairs(roster: Roster): seq<Pair> {
    Cross(roster.With(Receive), Receive, roster.With(Process), Process)
      + Cross(roster.With(Process), Process, roster.With(Send), Send)
  }

  function Untouched(pairs: seq<Pair>): seq<Entry> {
    seq(|pairs|, i requires 0 <= i < |pairs| => Entry(pairs[i], true, 0))
  }

  function Drawn(configured: Option<Roster>): seq<Entry> {
    if configured.Some? then Untouched(ConfiguredPairs(configured.value)) else []
  }

  /** One hop merged: counted where its pair is known, added where it is not. */
  function Add(entries: seq<Entry>, pair: Pair, n: nat): seq<Entry> {
    if entries == [] then [Entry(pair, false, n)]
    else if entries[0].pair == pair then [Entry(pair, entries[0].configured, entries[0].count + n)] + entries[1..]
    else [entries[0]] + Add(entries[1..], pair, n)
  }

  function Merged(entries: seq<Entry>, hops: seq<Hop>): seq<Entry> {
    if hops == [] then entries
    else
      var before := Merged(entries, hops[..|hops| - 1]);
      var hop := hops[|hops| - 1];
      if PairOf(hop).None? then before else Add(before, PairOf(hop).value, hop.count)
  }

  function OriginOf(e: Entry): Origin {
    if !e.configured then Observed else if e.count == 0 then Configured else Both
  }

  lemma {:induction false} AddAt(entries: seq<Entry>, pair: Pair, n: nat, at: nat)
    requires at <= |entries| && forall i :: 0 <= i < at ==> entries[i].pair != pair
    requires at < |entries| ==> entries[at].pair == pair
    ensures Add(entries, pair, n) ==
            if at < |entries| then entries[at := Entry(pair, entries[at].configured, entries[at].count + n)]
            else entries + [Entry(pair, false, n)]
  {
    if at > 0 {
      AddAt(entries[1..], pair, n, at - 1);
      assert entries == [entries[0]] + entries[1..];
    }
  }

  /** The place of the first entry of a pair, or the length. */
  method FirstOf(entries: seq<Entry>, pair: Pair) returns (at: nat)
    ensures at <= |entries| && forall i :: 0 <= i < at ==> entries[i].pair != pair
    ensures at < |entries| ==> entries[at].pair == pair
  {
    at := 0;
    while at < |entries| && entries[at].pair != pair
      invariant at <= |entries| && forall i :: 0 <= i < at ==> entries[i].pair != pair
    {
      at := at + 1;
    }
  }

  method AddHop(entries: seq<Entry>, pair: Pair, n: nat) returns (added: seq<Entry>)
    ensures added == Add(entries, pair, n)
  {
    var at := FirstOf(entries, pair);
    AddAt(entries, pair, n, at);
    if at < |entries| {
      added := entries[at := Entry(pair, entries[at].configured, entries[at].count + n)];
    } else {
      added := entries + [Entry(pair, false, n)];
    }
  }

  method Links(configured: Option<Roster>, hops: seq<Hop>) returns (entries: seq<Entry>)
    ensures entries == Merged(Drawn(configured), hops)
  {
    entries := Drawn(configured);
    ghost var drawn := entries;
    for i := 0 to |hops|
      invariant entries == Merged(drawn, hops[..i])
    {
      assert hops[..i + 1][..i] == hops[..i];
      var from, to := StageNamed(hops[i].fromStage), StageNamed(hops[i].toStage);
      if from.Some? && to.Some? {
        entries := AddHop(entries, Pair(hops[i].from, from.value, hops[i].to, to.value), hops[i].count);
      }
    }
    assert hops[..|hops|] == hops;
  }

  // What the merge keeps.

  ghost predicate Once(entries: seq<Entry>) {
    forall i, j :: 0 <= i < j < |entries| ==> entries[i].pair != entries[j].pair
  }

  ghost predicate Known(entries: seq<Entry>, pair: Pair) {
    exists i :: 0 <= i < |entries| && entries[i].pair == pair
  }

  /** What is said of a pair by all its entries: deliveries counted over it. */
  function CountOf(entries: seq<Entry>, pair: Pair): nat {
    if entries == [] then 0 else CountOf(entries[1..], pair) + if entries[0].pair == pair then entries[0].count else 0
  }

  function Total(entries: seq<Entry>): nat {
    if entries == [] then 0 else entries[0].count + Total(entries[1..])
  }

  function Observations(hops: seq<Hop>, pair: Pair): nat {
    if hops == [] then 0
    else Observations(hops[..|hops| - 1], pair) +
         if PairOf(hops[|hops| - 1]) == Some(pair) then hops[|hops| - 1].count else 0
  }

  function Deliveries(hops: seq<Hop>): nat {
    if hops == [] then 0
    else Deliveries(hops[..|hops| - 1]) + if PairOf(hops[|hops| - 1]).Some? then hops[|hops| - 1].count else 0
  }

  lemma {:induction false} AddCounts(entries: seq<Entry>, pair: Pair, n: nat, q: Pair)
    ensures CountOf(Add(entries, pair, n), q) == CountOf(entries, q) + if q == pair then n else 0
    ensures Total(Add(entries, pair, n)) == Total(entries) + n
  {
    if entries != [] && entries[0].pair != pair { AddCounts(entries[1..], pair, n, q); }
  }

  /** Conservation: every hop whose stages are named is drawn, over its own pair
      and in the total, and no other is. */
  lemma {:induction false} VolumeConserved(entries: seq<Entry>, hops: seq<Hop>, q: Pair)
    ensures CountOf(Merged(entries, hops), q) == CountOf(entries, q) + Observations(hops, q)
    ensures Total(Merged(entries, hops)) == Total(entries) + Deliveries(hops)
  {
    if hops != [] {
      var n := |hops| - 1;
      VolumeConserved(entries, hops[..n], q);
      if PairOf(hops[n]).Some? {
        AddCounts(Merged(entries, hops[..n]), PairOf(hops[n]).value, hops[n].count, q);
      }
    }
  }

  ghost function Place(entries: seq<Entry>, pair: Pair): (at: nat)
    ensures at <= |entries| && forall i :: 0 <= i < at ==> entries[i].pair != pair
    ensures at < |entries| ==> entries[at].pair == pair
  {
    if entries == [] || entries[0].pair == pair then 0 else 1 + Place(entries[1..], pair)
  }

  /** The merge leaves the first entries where they are, pair and configured, adds
      unconfigured ones after, and repeats no pair it did not find repeated. */
  lemma {:induction false} MergedIs(entries: seq<Entry>, hops: seq<Hop>)
    ensures var m := Merged(entries, hops);
            && |entries| <= |m|
            && (forall i :: 0 <= i < |entries| ==> m[i].pair == entries[i].pair && m[i].configured == entries[i].configured)
            && (forall i :: |entries| <= i < |m| ==> !m[i].configured)
            && (Once(entries) ==> Once(m))
  {
    if hops != [] {
      var n := |hops| - 1;
      MergedIs(entries, hops[..n]);
      if PairOf(hops[n]).Some? {
        AddKeeps(Merged(entries, hops[..n]), PairOf(hops[n]).value, hops[n].count);
      }
    }
  }

  lemma AddKeeps(entries: seq<Entry>, pair: Pair, n: nat)
    ensures var m := Add(entries, pair, n);
            && |entries| <= |m|
            && (forall i :: 0 <= i < |entries| ==> m[i].pair == entries[i].pair && m[i].configured == entries[i].configured)
            && (forall i :: |entries| <= i < |m| ==> !m[i].configured)
            && (Once(entries) ==> Once(m))
  {
    AddAt(entries, pair, n, Place(entries, pair));
  }

  // The configured pairs.

  lemma {:induction false} CrossOnce(senders: seq<Name>, from: Stage, receivers: seq<Name>, to: Stage)
    requires NoDuplicates(senders) && NoDuplicates(receivers)
    ensures NoDuplicates(Cross(senders, from, receivers, to))
    ensures forall p :: p in Cross(senders, from, receivers, to) <==>
              p.from in senders && p.to in receivers && p.fromStage == from && p.toStage == to
  {
    if senders != [] {
      CrossOnce(senders[1..], from, receivers, to);
      RowIs(senders[0], from, receivers, to);
      var row, rest := Row(senders[0], from, receivers, to), Cross(senders[1..], from, receivers, to);
      forall i, j | 0 <= i < |row| && 0 <= j < |rest| ensures row[i] != rest[j] {
        assert rest[j] in rest;
        assert senders[0] !in senders[1..];
      }
      JoinOnce(row, rest);
    }
  }

  lemma RowIs(sender: Name, from: Stage, receivers: seq<Name>, to: Stage)
    ensures forall p :: p in Row(sender, from, receivers, to) <==>
              p.from == sender && p.to in receivers && p.fromStage == from && p.toStage == to
    ensures NoDuplicates(receivers) ==> NoDuplicates(Row(sender, from, receivers, to))
  {
    var row := Row(sender, from, receivers, to);
    forall p: Pair | p.from == sender && p.to in receivers && p.fromStage == from && p.toStage == to ensures p in row {
      var i :| 0 <= i < |receivers| && receivers[i] == p.to;
      assert row[i] == p;
    }
  }

  lemma JoinOnce(a: seq<Pair>, b: seq<Pair>)
    requires NoDuplicates(a) && NoDuplicates(b)
    requires forall i, j :: 0 <= i < |a| && 0 <= j < |b| ==> a[i] != b[j]
    ensures NoDuplicates(a + b)
  {
  }

  /** A pair the roster configures: a sender that declared a stage and a receiver
      that declared the next. */
  predicate Configures(roster: Roster, p: Pair) {
    && NextStage(p.fromStage) == Some(p.toStage)
    && p.from in roster.With(p.fromStage) && p.to in roster.With(p.toStage)
  }

  /** Nobody serves a stage under a name another serves it under. */
  ghost predicate NamedOnce(roster: Roster) {
    forall stage: Stage :: NoDuplicates(roster.With(stage))
  }

  lemma ConfiguredOnce(roster: Roster)
    requires NamedOnce(roster)
    ensures NoDuplicates(ConfiguredPairs(roster))
    ensures forall p :: p in ConfiguredPairs(roster) <==> Configures(roster, p)
  {
    CrossOnce(roster.With(Receive), Receive, roster.With(Process), Process);
    CrossOnce(roster.With(Process), Process, roster.With(Send), Send);
    var a := Cross(roster.With(Receive), Receive, roster.With(Process), Process);
    var b := Cross(roster.With(Process), Process, roster.With(Send), Send);
    forall i, j | 0 <= i < |a| && 0 <= j < |b| ensures a[i] != b[j] {
      assert a[i] in a && b[j] in b;
    }
    JoinOnce(a, b);
  }

  lemma {:induction false} UntouchedIsZero(pairs: seq<Pair>, q: Pair)
    ensures CountOf(Untouched(pairs), q) == 0 && Total(Untouched(pairs)) == 0
  {
    if pairs != [] {
      UntouchedIsZero(pairs[1..], q);
      assert Untouched(pairs)[1..] == Untouched(pairs[1..]);
    }
  }

  lemma {:induction false} CountOfOnce(entries: seq<Entry>, i: nat)
    requires Once(entries) && i < |entries|
    ensures CountOf(entries, entries[i].pair) == entries[i].count
  {
    if i == 0 {
      NotCounted(entries[1..], entries[0].pair);
    } else {
      CountOfOnce(entries[1..], i - 1);
    }
  }

  lemma {:induction false} NotCounted(entries: seq<Entry>, q: Pair)
    requires forall i :: 0 <= i < |entries| ==> entries[i].pair != q
    ensures CountOf(entries, q) == 0
  {
    if entries != [] { NotCounted(entries[1..], q); }
  }

  /** Over a roster of distinct names and any hops: every pair drawn is drawn
      once, with the deliveries observed over it as its volume; it is Configured,
      Both or Observed exactly by the roster and those deliveries; and all volumes
      together are all deliveries whose stages are named. */
  lemma LinksAre(roster: Roster, hops: seq<Hop>, i: nat)
    requires NamedOnce(roster) && i < |Merged(Drawn(Some(roster)), hops)|
    ensures var links := Merged(Drawn(Some(roster)), hops);
            && Once(links)
            && links[i].count == Observations(hops, links[i].pair)
            && (OriginOf(links[i]) == match (Configures(roster, links[i].pair), Observations(hops, links[i].pair) > 0)
                                      case (true, false) => Configured
                                      case (true, true) => Both
                                      case (false, _) => Observed)
            && Total(links) == Deliveries(hops)
  {
    var pairs, entries := ConfiguredPairs(roster), Drawn(Some(roster));
    var links := Merged(entries, hops);
    ConfiguredOnce(roster);
    MergedIs(entries, hops);
    VolumeConserved(entries, hops, links[i].pair);
    UntouchedIsZero(pairs, links[i].pair);
    CountOfOnce(links, i);
    ConfiguredIs(pairs, links, i);
  }

  lemma ConfiguredIs(pairs: seq<Pair>, links: seq<Entry>, i: nat)
    requires Once(links) && |pairs| <= |links| && i < |links|
    requires forall j :: 0 <= j < |pairs| ==> links[j].pair == pairs[j] && links[j].configured
    requires forall j :: |pairs| <= j < |links| ==> !links[j].configured
    ensures links[i].configured <==> links[i].pair in pairs
  {
    if links[i].pair in pairs {
      var j :| 0 <= j < |pairs| && pairs[j] == links[i].pair;
      assert links[j].pair == links[i].pair;
    }
    assert i < |pairs| ==> pairs[i] in pairs;
  }

  lemma {:induction false} KnownGrows(entries: seq<Entry>, hops: seq<Hop>, q: Pair)
    ensures Known(Merged(entries, hops), q) <==> Known(entries, q) || exists i :: 0 <= i < |hops| && PairOf(hops[i]) == Some(q)
  {
    if hops != [] {
      var n := |hops| - 1;
      KnownGrows(entries, hops[..n], q);
      SeenGrows(hops, q);
      if PairOf(hops[n]).Some? {
        AddKnows(Merged(entries, hops[..n]), PairOf(hops[n]).value, hops[n].count, q);
      }
    }
  }

  lemma SeenGrows(hops: seq<Hop>, q: Pair)
    requires hops != []
    ensures var n := |hops| - 1;
            (exists i :: 0 <= i < |hops| && PairOf(hops[i]) == Some(q)) <==>
              (exists i :: 0 <= i < n && PairOf(hops[..n][i]) == Some(q)) || PairOf(hops[n]) == Some(q)
  {
    var n := |hops| - 1;
    if i :| 0 <= i < |hops| && PairOf(hops[i]) == Some(q) {
      if i < n { assert hops[..n][i] == hops[i]; }
    }
    if i :| 0 <= i < n && PairOf(hops[..n][i]) == Some(q) { assert PairOf(hops[i]) == Some(q); }
  }

  lemma AddKnows(entries: seq<Entry>, pair: Pair, n: nat, q: Pair)
    ensures Known(Add(entries, pair, n), q) <==> Known(entries, q) || q == pair
  {
    var at := Place(entries, pair);
    AddAt(entries, pair, n, at);
    var added := Add(entries, pair, n);
    if Known(entries, q) {
      var i :| 0 <= i < |entries| && entries[i].pair == q;
      assert added[i].pair == q;
    }
    if Known(added, q) {
      var i :| 0 <= i < |added| && added[i].pair == q;
      if i < |entries| { assert entries[i].pair == q; }
    }
    assert added[at].pair == pair;
  }

  /** A pair is drawn exactly when the roster configures it or a hop went over it. */
  lemma DrawnExactly(roster: Roster, hops: seq<Hop>, q: Pair)
    requires NamedOnce(roster)
    ensures Known(Merged(Drawn(Some(roster)), hops), q) <==>
            Configures(roster, q) || exists i :: 0 <= i < |hops| && PairOf(hops[i]) == Some(q)
  {
    ConfiguredOnce(roster);
    var pairs, entries := ConfiguredPairs(roster), Drawn(Some(roster));
    KnownGrows(entries, hops, q);
    if q in pairs {
      var i :| 0 <= i < |pairs| && pairs[i] == q;
      assert entries[i].pair == q;
    }
  }
}
