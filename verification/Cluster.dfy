/**
  The cluster's surface: it reads every node, judges every process, and keeps a
  view assembled from what they published, assembled again only on a change.
 */
module Clusters {
  import opened Tallies
  import opened Livenesses
  import opened Members

  const GRACE: nat := 2000

  /** A snapshot without its timestamps. */
  type Board = map<Scope, Said>

  function Strip(s: Snapshot): Board {
    map scope | scope in s :: s[scope].said
  }

  lemma StripJoins(a: Snapshot, b: Snapshot)
    ensures Strip(a + b) == Strip(a) + Strip(b)
  {
  }

  lemma StripPuts(a: Snapshot, scope: Scope, p: Published)
    ensures Strip(a[scope := p]) == Strip(a)[scope := p.said]
  {
  }

  /** What every member published and what is said of its process, in order. */
  function Merged(scopes: seq<Scope>, known: seq<Known>): Board
    requires |scopes| == |known|
  {
    if known == [] then map[]
    else
      var n := |known| - 1;
      (Merged(scopes[..n], known[..n]) + Strip(known[n].published))[scopes[n] := ProcessRecord(known[n])]
  }

  /** How a whole view is summed up; timestamps do not enter it. */
  datatype Rollup = Rollup(scope: Scope, over: (Board, nat) -> Said)

  function Fresh(rollup: Rollup, scopes: seq<Scope>, known: seq<Known>): Board
    requires |scopes| == |known|
  {
    Merged(scopes, known)[rollup.scope := rollup.over(Merged(scopes, known), |known|)]
  }

  // What a view holds, told without the merging.

  /** Node `i` puts something under a scope: its process line, or a publication. */
  ghost predicate Writes(scopes: seq<Scope>, known: seq<Known>, i: nat, scope: Scope)
    requires i < |scopes| == |known|
  {
    scope == scopes[i] || scope in known[i].published
  }

  ghost predicate WritesLast(scopes: seq<Scope>, known: seq<Known>, i: nat, scope: Scope)
    requires i < |scopes| == |known|
  {
    Writes(scopes, known, i, scope) && forall j :: i < j < |known| ==> !Writes(scopes, known, j, scope)
  }

  /** Every scope somebody writes, and no other, with what the last to write it says:
      of its own process what the cluster knows, of any other what it published. */
  ghost predicate Tells(scopes: seq<Scope>, known: seq<Known>, board: Board)
    requires |scopes| == |known|
  {
    && (forall scope :: scope in board ==> exists i :: 0 <= i < |known| && WritesLast(scopes, known, i, scope))
    && (forall i, scope :: 0 <= i < |known| && WritesLast(scopes, known, i, scope) ==>
          && scope in board
          && board[scope] == if scope == scopes[i] then ProcessRecord(known[i]) else known[i].published[scope].said)
  }

  /** A view that tells just that, and a rollup over exactly it. */
  ghost predicate ViewTells(rollup: Rollup, scopes: seq<Scope>, known: seq<Known>, view: Board)
    requires |scopes| == |known|
  {
    exists rest :: Tells(scopes, known, rest) && view == rest[rollup.scope := rollup.over(rest, |known|)]
  }

  /** Leaving the last node out, who writes a scope last is who does but for it. */
  lemma WritesLastBefore(scopes: seq<Scope>, known: seq<Known>, i: nat, scope: Scope)
    requires i + 1 < |scopes| == |known|
    ensures var n := |known| - 1;
            WritesLast(scopes, known, i, scope) <==> WritesLast(scopes[..n], known[..n], i, scope) && !Writes(scopes, known, n, scope)
  {
    var n := |known| - 1;
    assert forall j: nat :: j < n ==> (Writes(scopes[..n], known[..n], j, scope) <==> Writes(scopes, known, j, scope));
  }

  /** One more node's publications and process line. */
  lemma TellsNext(scopes: seq<Scope>, known: seq<Known>, before: Board)
    requires |scopes| == |known| > 0
    requires var n := |known| - 1; Tells(scopes[..n], known[..n], before)
    ensures var n := |known| - 1;
            Tells(scopes, known, (before + Strip(known[n].published))[scopes[n] := ProcessRecord(known[n])])
  {
    var n := |known| - 1;
    var board := (before + Strip(known[n].published))[scopes[n] := ProcessRecord(known[n])];
    forall scope | scope in board ensures exists i :: 0 <= i < |known| && WritesLast(scopes, known, i, scope) {
      if Writes(scopes, known, n, scope) {
        assert WritesLast(scopes, known, n, scope);
      } else {
        var i :| 0 <= i < n && WritesLast(scopes[..n], known[..n], i, scope);
        WritesLastBefore(scopes, known, i, scope);
      }
    }
    forall i, scope | 0 <= i < |known| && WritesLast(scopes, known, i, scope)
      ensures scope in board
      ensures board[scope] == if scope == scopes[i] then ProcessRecord(known[i]) else known[i].published[scope].said
    {
      if i < n { WritesLastBefore(scopes, known, i, scope); }
    }
  }

  lemma {:induction false} MergedTells(scopes: seq<Scope>, known: seq<Known>)
    requires |scopes| == |known|
    ensures Tells(scopes, known, Merged(scopes, known))
  {
    if known != [] {
      var n := |known| - 1;
      MergedTells(scopes[..n], known[..n]);
      TellsNext(scopes, known, Merged(scopes[..n], known[..n]));
    }
  }

  /** An assembly holds each node's publications and process line, each scope as the
      last to write it says, and a rollup over exactly those. */
  lemma FreshTells(rollup: Rollup, scopes: seq<Scope>, known: seq<Known>)
    requires |scopes| == |known|
    ensures ViewTells(rollup, scopes, known, Fresh(rollup, scopes, known))
  {
    MergedTells(scopes, known);
  }

  lemma {:induction false} SomebodyWritesLast(scopes: seq<Scope>, known: seq<Known>, i: nat, scope: Scope) returns (last: nat)
    requires i < |scopes| == |known| && Writes(scopes, known, i, scope)
    ensures i <= last < |known| && WritesLast(scopes, known, last, scope)
    decreases |known| - i
  {
    if j :| i < j < |known| && Writes(scopes, known, j, scope) {
      last := SomebodyWritesLast(scopes, known, j, scope);
    } else {
      last := i;
    }
  }

  /** No two boards tell the same nodes apart, so that fixes the view; and whatever
      scope any node writes is on it. */
  lemma TellsOne(scopes: seq<Scope>, known: seq<Known>, a: Board, b: Board)
    requires |scopes| == |known| && Tells(scopes, known, a) && Tells(scopes, known, b)
    ensures a == b
    ensures forall i, scope :: 0 <= i < |known| && Writes(scopes, known, i, scope) ==> scope in a
  {
    forall scope ensures (scope in a <==> scope in b) && (scope in a ==> a[scope] == b[scope]) {
      if scope in a || scope in b {
        var i :| 0 <= i < |known| && WritesLast(scopes, known, i, scope);
      }
    }
    forall i, scope | 0 <= i < |known| && Writes(scopes, known, i, scope) ensures scope in a {
      var last := SomebodyWritesLast(scopes, known, i, scope);
    }
  }

  /** What a node published stands in the view, where no later node writes its scope
      and it is neither the node's own process nor the rollup's. */
  lemma PublicationsStand(rollup: Rollup, scopes: seq<Scope>, known: seq<Known>, view: Board, i: nat, scope: Scope)
    requires i < |scopes| == |known| && ViewTells(rollup, scopes, known, view) && scope in known[i].published
    requires scope != rollup.scope && scope != scopes[i] && forall j :: i < j < |known| ==> !Writes(scopes, known, j, scope)
    ensures scope in view && view[scope] == known[i].published[scope].said
  {
    assert WritesLast(scopes, known, i, scope);
  }

  datatype Line = Line(health: Health, words: Words)

  function LineOf(k: Known): Line {
    Line(ProcessRecord(k).health, ProcessRecord(k).words)
  }

  function Lines(known: seq<Known>): seq<Line> {
    seq(|known|, i requires 0 <= i < |known| => LineOf(known[i]))
  }

  /** Publications and process lines alike, the assembly is alike. */
  lemma {:induction false} SameMerged(scopes: seq<Scope>, a: seq<Known>, b: seq<Known>)
    requires |scopes| == |a| == |b|
    requires forall i :: 0 <= i < |a| ==> a[i].published == b[i].published && LineOf(a[i]) == LineOf(b[i])
    ensures Merged(scopes, a) == Merged(scopes, b)
  {
    if a != [] {
      var n := |a| - 1;
      SameMerged(scopes[..n], a[..n], b[..n]);
      SeverityFollowsHealth(a[n], b[n]);
    }
  }

  lemma SameFresh(rollup: Rollup, scopes: seq<Scope>, a: seq<Known>, b: seq<Known>)
    requires |scopes| == |a| == |b| && Lines(a) == Lines(b)
    requires forall i :: 0 <= i < |a| ==> a[i].published == b[i].published
    ensures Fresh(rollup, scopes, a) == Fresh(rollup, scopes, b)
  {
    forall i | 0 <= i < |a| ensures LineOf(a[i]) == LineOf(b[i]) {
      assert Lines(a)[i] == Lines(b)[i];
    }
    SameMerged(scopes, a, b);
  }

  /** What one pass over the files found: how long the tick had waited, and what
      each node's read met. */
  datatype Pass = Pass(elapsed: nat, found: seq<Found>)

  /** A member after some passes of a tick. */
  function Polled(parse: Parse, k: Known, passes: seq<Pass>, i: nat): Known
    requires forall p :: p in passes ==> i < |p.found|
  {
    if passes == [] then k.(renewed := false)
    else
      var n := |passes| - 1;
      Read(parse, Polled(parse, k, passes[..n], i), passes[n].found[i])
  }

  /** A live node that has not published anew this tick. */
  predicate Awaited(k: Known) {
    k.alive && !k.renewed
  }

  /** Every pass read every node. */
  ghost predicate Fit(passes: seq<Pass>, n: nat) {
    forall p :: p in passes ==> |p.found| == n
  }

  /** After `m` passes two seconds are over, or no live node is waited for. */
  ghost predicate Stops(parse: Parse, known: seq<Known>, passes: seq<Pass>, m: nat)
    requires 0 < m <= |passes| && Fit(passes, |known|)
  {
    passes[m - 1].elapsed > 2000 || forall i :: 0 <= i < |known| ==> !Awaited(Polled(parse, known[i], passes[..m], i))
  }

  /** And after no fewer was it so. */
  ghost predicate GoesOn(parse: Parse, known: seq<Known>, passes: seq<Pass>, n: nat)
    requires n <= |passes| && Fit(passes, |known|)
  {
    forall m :: 0 < m < n ==> !Stops(parse, known, passes, m)
  }

  lemma LastStops(parse: Parse, known: seq<Known>, passes: seq<Pass>, n: nat)
    requires 0 < n <= |passes| && Fit(passes, |known|) && passes[|passes| - 1].elapsed > GRACE
    requires GoesOn(parse, known, passes, n) && !Stops(parse, known, passes, n)
    ensures n < |passes| && GoesOn(parse, known, passes, n + 1)
  {
  }

  /** A node is renewed in a tick exactly where its publication was parsed in it. */
  lemma {:induction false} PolledIs(parse: Parse, k: Known, passes: seq<Pass>, i: nat)
    requires forall p :: p in passes ==> i < |p.found|
    ensures var r := Polled(parse, k, passes, i);
            (r.renewed <==> r.parses > k.parses) && r.parses >= k.parses && (!r.renewed ==> r.published == k.published)
  {
    if passes != [] {
      var n := |passes| - 1;
      PolledIs(parse, k, passes[..n], i);
      ReadComesTo(parse, Polled(parse, k, passes[..n], i), passes[n].found[i]);
    }
  }

  class Cluster {
    const liveness: Liveness
    const rollup: Rollup
    const parse: Parse
    const nodes: seq<Member>
    var view: Snapshot
    var said: seq<Line>
    var changed: bool

    ghost predicate Apart()
      reads this
    {
      && (forall i, j :: 0 <= i < j < |nodes| ==> nodes[i] != nodes[j])
      && (forall i :: 0 <= i < |nodes| ==> nodes[i].parse == parse)
    }

    ghost function Scopes(): seq<Scope> {
      seq(|nodes|, i requires 0 <= i < |nodes| => nodes[i].scope)
    }

    ghost function States(): seq<Known>
      reads nodes
    {
      seq(|nodes|, i requires 0 <= i < |nodes| reads nodes => nodes[i].State())
    }

    /** Either nothing was ever assembled, or the view is what assembling it now
        would give, up to timestamps; and with no nodes nothing ever is. */
    ghost predicate Coherent()
      reads this, nodes
    {
      && (said == [] || (said == Lines(States()) && Strip(view) == Fresh(rollup, Scopes(), States())))
      && (nodes == [] ==> said == [] && view == map[])
    }

    constructor (liveness: Liveness, rollup: Rollup, parse: Parse, nodes: seq<Member>)
      requires forall i, j :: 0 <= i < j < |nodes| ==> nodes[i] != nodes[j]
      requires forall i :: 0 <= i < |nodes| ==> nodes[i].parse == parse
      ensures Apart() && Coherent() && this.nodes == nodes && said == [] && view == map[]
    {
      this.liveness, this.rollup, this.parse, this.nodes := liveness, rollup, parse, nodes;
      view, said, changed := map[], [], false;
    }

    method Stale()
      requires Apart()
      modifies nodes
      ensures forall i :: 0 <= i < |nodes| ==> nodes[i].State() == old(nodes[i].State()).(renewed := false)
    {
      for i := 0 to |nodes|
        invariant forall j :: 0 <= j < i ==> nodes[j].State() == old(nodes[j].State()).(renewed := false)
        invariant forall j :: i <= j < |nodes| ==> nodes[j].State() == old(nodes[j].State())
      {
        nodes[i].renewed := false;
      }
    }

    method ReadAll(found: seq<Found>)
      requires Apart() && |found| == |nodes|
      modifies nodes
      ensures forall i :: 0 <= i < |nodes| ==> nodes[i].State() == Read(parse, old(nodes[i].State()), found[i])
    {
      for i := 0 to |nodes|
        invariant forall j :: 0 <= j < i ==> nodes[j].State() == Read(parse, old(nodes[j].State()), found[j])
        invariant forall j :: i <= j < |nodes| ==> nodes[j].State() == old(nodes[j].State())
      {
        nodes[i].ReadFile(found[i]);
      }
    }

    method AllFresh() returns (all: bool)
      ensures all <==> forall i :: 0 <= i < |nodes| ==> nodes[i].renewed || !nodes[i].alive
    {
      all := true;
      for i := 0 to |nodes|
        invariant all <==> forall j :: 0 <= j < i ==> nodes[j].renewed || !nodes[j].alive
      {
        all := all && (nodes[i].renewed || !nodes[i].alive);
      }
    }

    method JudgeAll(judgings: seq<Judging>)
      requires Apart() && |judgings| == |nodes|
      modifies nodes
      ensures forall i :: 0 <= i < |nodes| ==>
                nodes[i].State() == Judged(parse, liveness, old(nodes[i].State()), judgings[i])
    {
      for i := 0 to |nodes|
        invariant forall j :: 0 <= j < i ==> nodes[j].State() == Judged(parse, liveness, old(nodes[j].State()), judgings[j])
        invariant forall j :: i <= j < |nodes| ==> nodes[j].State() == old(nodes[j].State())
      {
        nodes[i].Judge(liveness, judgings[i]);
      }
    }

    /** The nodes are as `n` passes over them as they were left them. */
    ghost predicate After(before: seq<Known>, passes: seq<Pass>, n: nat)
      requires n <= |passes| && Fit(passes, |nodes|)
      reads this, nodes
    {
      |before| == |nodes| && forall i :: 0 <= i < |nodes| ==> nodes[i].State() == Polled(parse, before[i], passes[..n], i)
    }

    /** One pass more over every node: whether nothing is waited for any longer. */
    method PassOnce(ghost before: seq<Known>, passes: seq<Pass>, n: nat) returns (done: bool)
      requires Apart() && n < |passes| && Fit(passes, |nodes|) && After(before, passes, n)
      modifies nodes
      ensures After(before, passes, n + 1) && (done <==> Stops(parse, before, passes, n + 1))
    {
      assert passes[..n + 1][..n] == passes[..n] && passes[..n + 1][n] == passes[n];
      ReadAll(passes[n].found);
      assert After(before, passes, n + 1);
      var all := AllFresh();
      done := all || passes[n].elapsed > GRACE;
    }

    /** Pass after pass until every live node published anew or the grace is over, and
        not once more. */
    method PassOn(ghost before: seq<Known>, passes: seq<Pass>) returns (n: nat)
      requires Apart() && passes != [] && passes[|passes| - 1].elapsed > GRACE && Fit(passes, |nodes|)
      requires After(before, passes, 0)
      modifies nodes
      ensures 0 < n <= |passes| && After(before, passes, n)
      ensures Stops(parse, before, passes, n) && GoesOn(parse, before, passes, n)
    {
      var done := PassOnce(before, passes, 0);
      n := 1;
      while !done
        invariant 0 < n <= |passes| && After(before, passes, n) && GoesOn(parse, before, passes, n)
        invariant done <==> Stops(parse, before, passes, n)
        decreases |passes| - n
      {
        LastStops(parse, before, passes, n);
        done := PassOnce(before, passes, n);
        n := n + 1;
      }
    }

    /** A tick's reading: every node is first as if nothing were published anew. */
    method Poll(passes: seq<Pass>) returns (n: nat)
      requires Apart() && passes != [] && passes[|passes| - 1].elapsed > GRACE && Fit(passes, |nodes|)
      modifies nodes
      ensures 0 < n <= |passes| && After(old(States()), passes, n)
      ensures Stops(parse, old(States()), passes, n) && GoesOn(parse, old(States()), passes, n)
    {
      ghost var before := States();
      Stale();
      n := PassOn(before, passes);
    }

    method Say() returns (lines: seq<Line>)
      ensures lines == Lines(States())
    {
      lines := [];
      for i := 0 to |nodes|
        invariant |lines| == i && forall j :: 0 <= j < i ==> lines[j] == LineOf(nodes[j].State())
      {
        var record := nodes[i].Record();
        lines := lines + [Line(record.health, record.words)];
      }
    }

    method AnyFresh() returns (any: bool)
      ensures any <==> exists i :: 0 <= i < |nodes| && nodes[i].renewed
    {
      any := false;
      for i := 0 to |nodes|
        invariant any <==> exists j :: 0 <= j < i && nodes[j].renewed
      {
        any := any || nodes[i].renewed;
      }
    }

    /** Merge what each node published, say each process, and sum it up. */
    method Assemble(now: int) returns (made: Snapshot)
      ensures Strip(made) == Fresh(rollup, Scopes(), States())
      ensures ViewTells(rollup, Scopes(), States(), Strip(made))
    {
      made := map[];
      ghost var scopes, known := Scopes(), States();
      for i := 0 to |nodes|
        invariant Strip(made) == Merged(scopes[..i], known[..i])
      {
        var record := nodes[i].Record();
        StripJoins(made, nodes[i].published);
        StripPuts(made + nodes[i].published, nodes[i].scope, Published(record, now));
        made := (made + nodes[i].published)[nodes[i].scope := Published(record, now)];
        assert scopes[..i + 1][..i] == scopes[..i] && known[..i + 1][..i] == known[..i];
      }
      assert scopes[..|nodes|] == scopes && known[..|nodes|] == known;
      var sum := Published(rollup.over(Strip(made), |nodes|), now);
      StripPuts(made, rollup.scope, sum);
      made := made[rollup.scope := sum];
      FreshTells(rollup, Scopes(), States());
    }

    /** Read every node, then judge every process. */
    method Advance(passes: seq<Pass>, judgings: seq<Judging>) returns (n: nat)
      requires Apart() && passes != [] && passes[|passes| - 1].elapsed > GRACE && |judgings| == |nodes|
      requires Fit(passes, |nodes|)
      modifies nodes
      ensures 0 < n <= |passes|
      ensures forall i :: 0 <= i < |nodes| ==>
                nodes[i].State() == Judged(parse, liveness, Polled(parse, old(nodes[i].State()), passes[..n], i), judgings[i])
    {
      n := Poll(passes);
      JudgeAll(judgings);
    }

    /** Assemble the view again where anything in it changed. */
    method Refresh(now: int)
      modifies this`view, this`said, this`changed
      ensures changed <==> Lines(States()) != old(said) || exists i :: 0 <= i < |nodes| && nodes[i].renewed
      ensures said == Lines(States())
      ensures if changed then Strip(view) == Fresh(rollup, Scopes(), States()) else view == old(view)
    {
      var lines := Say();
      var any := AnyFresh();
      changed := lines != said || any;
      if changed {
        var made := Assemble(now);
        view := made;
        said := lines;
      }
    }

    /** One round of the surface. */
    method Tick(passes: seq<Pass>, judgings: seq<Judging>, now: int) returns (n: nat)
      requires Apart() && Coherent()
      requires passes != [] && passes[|passes| - 1].elapsed > GRACE && |judgings| == |nodes|
      requires Fit(passes, |nodes|)
      modifies this, nodes
      ensures Coherent() && 0 < n <= |passes|
      ensures forall i :: 0 <= i < |nodes| ==>
                nodes[i].State() == Judged(parse, liveness, Polled(parse, old(nodes[i].State()), passes[..n], i), judgings[i])
      ensures changed <==> Lines(States()) != old(said) || exists i :: 0 <= i < |nodes| && nodes[i].renewed
      ensures nodes != [] ==> Strip(view) == Fresh(rollup, Scopes(), States()) && ViewTells(rollup, Scopes(), States(), Strip(view))
      ensures nodes == [] ==> !changed && view == old(view) == map[]
      ensures !changed ==> view == old(view) && said == old(said)
      ensures !changed && nodes != [] ==> Fresh(rollup, Scopes(), States()) == old(Fresh(rollup, Scopes(), States()))
    {
      ghost var before := States();
      n := Advance(passes, judgings);
      Refresh(now);
      FreshTells(rollup, Scopes(), States());
      if !changed && nodes != [] {
        Unchanged(before, passes[..n], judgings);
      }
    }

    /** Where nothing was read anew, no publication moved. */
    lemma Unchanged(before: seq<Known>, passes: seq<Pass>, judgings: seq<Judging>)
      requires |before| == |nodes| == |judgings| && Lines(before) == Lines(States())
      requires Fit(passes, |nodes|)
      requires forall i :: 0 <= i < |nodes| ==>
                 !nodes[i].renewed && nodes[i].State() == Judged(parse, liveness, Polled(parse, before[i], passes, i), judgings[i])
      ensures Fresh(rollup, Scopes(), States()) == Fresh(rollup, Scopes(), before)
    {
      var after := States();
      forall i | 0 <= i < |nodes| ensures after[i].published == before[i].published {
        PolledIs(parse, before[i], passes, i);
        JudgedKeepsPublished(parse, liveness, Polled(parse, before[i], passes, i), judgings[i]);
      }
      SameFresh(rollup, Scopes(), after, before);
    }

    /** So a cluster of no nodes, from its start on and after every tick, is without
        the view an assembly would give it. */
    lemma EmptyNeverAssembles()
      requires nodes == [] && Coherent()
      ensures view == map[] && Strip(view) != Fresh(rollup, Scopes(), States())
    {
      assert rollup.scope in Fresh(rollup, Scopes(), States());
    }
  }
}
