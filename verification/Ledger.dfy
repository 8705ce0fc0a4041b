/**
  The ledger of a node: sums kept verdict by verdict, and equal at every moment to
  the sums over their whole history.
 */
module Ledgers {
  import opened Options
  import opened Stages
  import opened Tallies

  type Transport = string

  /** Where a verdict is published, beneath its node: `point` names an identity
      step beneath the pair. */
  datatype Scope = Scope(stage: Stage, transport: Transport, contract: string, point: Option<string>)

  datatype Verdict = Verdict(scope: Scope, outcome: Outcome, bytes: nat)

  datatype Throughput = Throughput(delivered: nat, bytes: nat, failed: nat)

  datatype Line = Line(stage: Stage, transport: Transport)

  datatype Counted = Items | Bytes | Failures

  /** Which transport line a verdict counts on; identity steps count on none. */
  predicate On(v: Verdict, line: Line) {
    v.scope.point.None? && v.scope.stage == line.stage && v.scope.transport == line.transport
  }

  function Count(history: seq<Verdict>, p: Verdict -> bool): nat {
    if history == [] then 0
    else Count(history[..|history| - 1], p) + if p(history[|history| - 1]) then 1 else 0
  }

  function At(scope: Scope): Verdict -> bool { (v: Verdict) => v.scope == scope }

  function FailedAt(scope: Scope): Verdict -> bool { (v: Verdict) => v.scope == scope && v.outcome.Failed? }

  function DeliveredOn(line: Line): Verdict -> bool { (v: Verdict) => On(v, line) && v.outcome.Delivered? }

  function FailedOn(line: Line): Verdict -> bool { (v: Verdict) => On(v, line) && v.outcome.Failed? }

  function OfTransport(): Verdict -> bool { (v: Verdict) => v.scope.point.None? }

  function BytesOn(history: seq<Verdict>, line: Line): nat {
    if history == [] then 0
    else
      var v := history[|history| - 1];
      BytesOn(history[..|history| - 1], line)
      + if On(v, line) && v.outcome.Delivered? && line.stage.Send? then v.bytes else 0
  }

  function LastOf(history: seq<Verdict>, scope: Scope): Option<Outcome> {
    if history == [] then None
    else if history[|history| - 1].scope == scope then Some(history[|history| - 1].outcome)
    else LastOf(history[..|history| - 1], scope)
  }

  /** The tally of `scope` over a whole history, counted from nothing. */
  function TallyOf(history: seq<Verdict>, scope: Scope): Tally {
    Tally(Count(history, At(scope)), Count(history, FailedAt(scope)), LastOf(history, scope))
  }

  function ThroughputOf(history: seq<Verdict>, line: Line): Throughput {
    Throughput(Count(history, DeliveredOn(line)), BytesOn(history, line), Count(history, FailedOn(line)))
  }

  function ScopesOf(history: seq<Verdict>): set<Scope> {
    set v | v in history :: v.scope
  }

  function LinesOf(history: seq<Verdict>): set<Line> {
    set v | v in history && v.scope.point.None? :: Line(v.scope.stage, v.scope.transport)
  }

  lemma {:induction false} CountMore(history: seq<Verdict>, p: Verdict -> bool, q: Verdict -> bool)
    requires forall v :: p(v) ==> q(v)
    ensures Count(history, p) <= Count(history, q)
  {
    if history != [] { CountMore(history[..|history| - 1], p, q); }
  }

  lemma TallyIsValid(history: seq<Verdict>, scope: Scope)
    ensures TallyOf(history, scope).Valid()
  {
    CountMore(history, FailedAt(scope), At(scope));
  }

  /** What the board owes for `scope`. */
  function Standing(history: seq<Verdict>, scope: Scope): Record {
    TallyIsValid(history, scope);
    OverTime(TallyOf(history, scope))
  }

  lemma {:induction false} Unfolded(history: seq<Verdict>, scope: Scope)
    requires scope !in ScopesOf(history)
    ensures TallyOf(history, scope) == UNRUN
  {
    if history != [] {
      var n := |history| - 1;
      assert history[n] in history && forall v :: v in history[..n] ==> v in history;
      Unfolded(history[..n], scope);
    }
  }

  lemma {:induction false} Unmoved(history: seq<Verdict>, line: Line)
    requires line !in LinesOf(history)
    ensures ThroughputOf(history, line) == Throughput(0, 0, 0)
  {
    if history != [] {
      var n := |history| - 1;
      assert history[n] in history && forall v :: v in history[..n] ==> v in history;
      Unmoved(history[..n], line);
    }
  }

  lemma TallyNext(history: seq<Verdict>, v: Verdict, scope: Scope)
    ensures TallyOf(history + [v], scope) ==
            if v.scope == scope then TallyOf(history, scope).Fold(v.outcome) else TallyOf(history, scope)
  {
    assert (history + [v])[..|history|] == history;
  }

  function Moved(t: Throughput, v: Verdict): Throughput {
    match v.outcome
    case Delivered => Throughput(t.delivered + 1, if v.scope.stage.Send? then t.bytes + v.bytes else t.bytes, t.failed)
    case Failed(_) => Throughput(t.delivered, t.bytes, t.failed + 1)
    case OneSided(_) => t
  }

  lemma ThroughputNext(history: seq<Verdict>, v: Verdict, line: Line)
    ensures ThroughputOf(history + [v], line) ==
            if On(v, line) then Moved(ThroughputOf(history, line), v) else ThroughputOf(history, line)
  {
    assert (history + [v])[..|history|] == history;
  }

  /** The sums of two histories are those of the first and of the second together, and
      the last outcome is the second's where it has one. */
  lemma {:induction false} HistoryAdds(a: seq<Verdict>, b: seq<Verdict>, p: Verdict -> bool, line: Line, scope: Scope)
    ensures Count(a + b, p) == Count(a, p) + Count(b, p)
    ensures BytesOn(a + b, line) == BytesOn(a, line) + BytesOn(b, line)
    ensures LastOf(a + b, scope) == if LastOf(b, scope).Some? then LastOf(b, scope) else LastOf(a, scope)
  {
    if b == [] {
      assert a + b == a;
    } else {
      HistoryAdds(a, b[..|b| - 1], p, line, scope);
      assert (a + b)[..|a + b| - 1] == a + b[..|b| - 1];
    }
  }

  /** And those of one verdict: a round and its failure at its own scope only, and on
      its own transport's line, unless it is an identity step's, an item delivered with
      its bytes where the stage sends, or a failure. */
  lemma OneVerdict(v: Verdict, scope: Scope, line: Line)
    ensures TallyOf([v], scope) ==
            if v.scope == scope then Tally(1, if v.outcome.Failed? then 1 else 0, Some(v.outcome)) else Tally(0, 0, None)
    ensures ThroughputOf([v], line) ==
            if v.scope.point.Some? || v.scope.stage != line.stage || v.scope.transport != line.transport then Throughput(0, 0, 0)
            else match v.outcome
                 case Delivered => Throughput(1, if line.stage.Send? then v.bytes else 0, 0)
                 case Failed(_) => Throughput(0, 0, 1)
                 case OneSided(_) => Throughput(0, 0, 0)
  {
    assert [] + [v] == [v];
    TallyNext([], v, scope);
    ThroughputNext([], v, line);
  }

  /** `tallies` is what `history` adds up to. */
  ghost predicate Tallied(tallies: map<Scope, Tally>, history: seq<Verdict>) {
    && tallies.Keys == ScopesOf(history)
    && forall scope :: scope in tallies ==> tallies[scope] == TallyOf(history, scope)
  }

  ghost predicate Tracked(stages: map<Line, Throughput>, history: seq<Verdict>) {
    && stages.Keys == LinesOf(history)
    && forall line :: line in stages ==> stages[line] == ThroughputOf(history, line)
  }

  lemma TallyIs(tallies: map<Scope, Tally>, history: seq<Verdict>, scope: Scope)
    requires Tallied(tallies, history)
    ensures TallyOf(history, scope) == if scope in tallies then tallies[scope] else UNRUN
  {
    if scope !in tallies { Unfolded(history, scope); }
  }

  lemma TalliedNext(tallies: map<Scope, Tally>, history: seq<Verdict>, v: Verdict)
    requires Tallied(tallies, history)
    ensures var tally := if v.scope in tallies then tallies[v.scope] else UNRUN;
            Tallied(tallies[v.scope := tally.Fold(v.outcome)], history + [v])
  {
    var tally := if v.scope in tallies then tallies[v.scope] else UNRUN;
    var tallies' := tallies[v.scope := tally.Fold(v.outcome)];
    TallyIs(tallies, history, v.scope);
    forall scope | scope in tallies' ensures tallies'[scope] == TallyOf(history + [v], scope) {
      TallyNext(history, v, scope);
    }
    assert ScopesOf(history + [v]) == ScopesOf(history) + {v.scope};
  }

  lemma TrackedNext(stages: map<Line, Throughput>, history: seq<Verdict>, v: Verdict)
    requires Tracked(stages, history)
    ensures var line := Line(v.scope.stage, v.scope.transport);
            var moved := if line in stages then stages[line] else Throughput(0, 0, 0);
            Tracked(if v.scope.point.None? then stages[line := Moved(moved, v)] else stages, history + [v])
  {
    var line := Line(v.scope.stage, v.scope.transport);
    var moved := if line in stages then stages[line] else Throughput(0, 0, 0);
    var stages' := if v.scope.point.None? then stages[line := Moved(moved, v)] else stages;
    if line !in stages { Unmoved(history, line); }
    forall l | l in stages' ensures stages'[l] == ThroughputOf(history + [v], l) {
      ThroughputNext(history, v, l);
    }
    assert LinesOf(history + [v]) == LinesOf(history) + if v.scope.point.None? then {line} else {};
  }

  type Board = map<Scope, Record>

  /** What a round's board owes: one record for every scope ever folded, each
      judged over its whole history. */
  ghost predicate Complete(board: Board, history: seq<Verdict>) {
    && board.Keys == ScopesOf(history)
    && forall scope :: scope in board ==> board[scope] == Standing(history, scope)
  }

  ghost predicate Stands(board: Board, history: seq<Verdict>) {
    forall scope :: scope in board ==> board[scope] == Standing(history, scope)
  }

  /** Folding moves no other scope's standing. */
  lemma StandsNext(board: Board, history: seq<Verdict>, v: Verdict)
    requires board.Keys <= ScopesOf(history) && Stands(board, history)
    ensures var board' := board[v.scope := Standing(history + [v], v.scope)];
            board'.Keys <= ScopesOf(history + [v]) && Stands(board', history + [v])
  {
    forall scope { TallyNext(history, v, scope); }
    assert ScopesOf(history + [v]) == ScopesOf(history) + {v.scope};
  }

  function Published(stages: map<Line, Throughput>): map<(Line, Counted), nat> {
    map line, counted: Counted | line in stages && (counted.Bytes? ==> line.stage.Send?) ::
      (line, counted) := match counted
                         case Items => stages[line].delivered
                         case Failures => stages[line].failed
                         case Bytes => stages[line].bytes
  }

  /** The published counts are the history's: the items a line delivered, the
      rounds that failed on it and, where it sends, the bytes that moved. */
  ghost predicate CountsOf(counts: map<(Line, Counted), nat>, history: seq<Verdict>) {
    && (forall line, counted :: (line, counted) in counts <==>
          line in LinesOf(history) && (counted.Bytes? ==> line.stage.Send?))
    && (forall line :: line in LinesOf(history) ==>
          && counts[(line, Items)] == Count(history, DeliveredOn(line))
          && counts[(line, Failures)] == Count(history, FailedOn(line))
          && (line.stage.Send? ==> counts[(line, Bytes)] == BytesOn(history, line)))
  }

  lemma PublishedIsHistory(stages: map<Line, Throughput>, history: seq<Verdict>)
    requires Tracked(stages, history)
    ensures CountsOf(Published(stages), history)
  {
    var counts := Published(stages);
    forall line: Line, counted: Counted
      ensures (line, counted) in counts <==> line in LinesOf(history) && (counted.Bytes? ==> line.stage.Send?)
    {
    }
    forall line | line in LinesOf(history)
      ensures counts[(line, Items)] == Count(history, DeliveredOn(line)) && counts[(line, Failures)] == Count(history, FailedOn(line))
      ensures line.stage.Send? ==> counts[(line, Bytes)] == BytesOn(history, line)
    {
      assert stages[line] == ThroughputOf(history, line);
    }
  }

  function Tallying(tallies: map<Scope, Tally>, v: Verdict): Tally {
    (if v.scope in tallies then tallies[v.scope] else UNRUN).Fold(v.outcome)
  }

  function Tracking(stages: map<Line, Throughput>, v: Verdict): map<Line, Throughput> {
    var line := Line(v.scope.stage, v.scope.transport);
    if v.scope.point.None?
    then stages[line := Moved(if line in stages then stages[line] else Throughput(0, 0, 0), v)]
    else stages
  }

  /** What one verdict makes of sums that are their history's. */
  lemma FoldedIs(tallies: map<Scope, Tally>, stages: map<Line, Throughput>, items: nat, history: seq<Verdict>, v: Verdict)
    requires Tallied(tallies, history) && Tracked(stages, history) && items == Count(history, OfTransport())
    ensures Tallied(tallies[v.scope := Tallying(tallies, v)], history + [v]) && Tracked(Tracking(stages, v), history + [v])
    ensures (if v.scope.point.None? then items + 1 else items) == Count(history + [v], OfTransport())
    ensures Tallying(tallies, v).Valid() && OverTime(Tallying(tallies, v)) == Standing(history + [v], v.scope)
  {
    TalliedNext(tallies, history, v);
    TrackedNext(stages, history, v);
    assert (history + [v])[..|history|] == history;
    TallyIsValid(history + [v], v.scope);
  }

  class Ledger {
    var tallies: map<Scope, Tally>
    var stages: map<Line, Throughput>
    var itemSeq: nat
    ghost var history: seq<Verdict>

    /** The ledger is its history. */
    ghost predicate Valid()
      reads this
    {
      Tallied(tallies, history) && Tracked(stages, history) && itemSeq == Count(history, OfTransport())
    }

    constructor ()
      ensures Valid() && history == []
    {
      tallies, stages, itemSeq, history := map[], map[], 0, [];
    }

    /** Count a pair's own verdict on its line; an identity point is not on one. */
    method Track(v: Verdict)
      modifies this`stages, this`itemSeq
      ensures stages == Tracking(old(stages), v)
      ensures itemSeq == if v.scope.point.None? then old(itemSeq) + 1 else old(itemSeq)
    {
      if v.scope.point.None? {
        var line := Line(v.scope.stage, v.scope.transport);
        var moved := if line in stages then stages[line] else Throughput(0, 0, 0);
        stages := stages[line := Moved(moved, v)];
        itemSeq := itemSeq + 1;
      }
    }

    /** Count a verdict in its scope's tally. */
    method TallyUp(v: Verdict) returns (tally: Tally)
      modifies this`tallies
      ensures tally == Tallying(old(tallies), v) && tallies == old(tallies)[v.scope := tally]
    {
      tally := (if v.scope in tallies then tallies[v.scope] else UNRUN).Fold(v.outcome);
      tallies := tallies[v.scope := tally];
    }

    /** Fold one verdict in, and publish its pair's health over time. */
    method Fold(v: Verdict, board: Board) returns (board': Board)
      requires Valid()
      modifies this
      ensures Valid() && history == old(history) + [v]
      ensures board' == board[v.scope := Standing(history, v.scope)]
    {
      FoldedIs(tallies, stages, itemSeq, history, v);
      Track(v);
      var tally := TallyUp(v);
      history := history + [v];
      board' := board[v.scope := OverTime(tally)];
    }

    /** Fold a round's verdicts, one after the other. */
    method FoldAll(verdicts: seq<Verdict>) returns (board: Board)
      requires Valid()
      modifies this
      ensures Valid() && history == old(history) + verdicts
      ensures board.Keys <= ScopesOf(history) && Stands(board, history)
    {
      board := map[];
      for i := 0 to |verdicts|
        invariant Valid() && history == old(history) + verdicts[..i]
        invariant board.Keys <= ScopesOf(history) && Stands(board, history)
      {
        StandsNext(board, history, verdicts[i]);
        assert verdicts[..i + 1] == verdicts[..i] + [verdicts[i]];
        board := Fold(verdicts[i], board);
      }
      assert verdicts[..|verdicts|] == verdicts;
    }

    /** Close a round: the scopes that waited keep their standing, and what each
        line moved is published. */
    method Close(board: Board) returns (board': Board, counts: map<(Line, Counted), nat>)
      requires Valid()
      ensures board'.Keys == board.Keys + ScopesOf(history)
      ensures forall scope :: scope in board ==> board'[scope] == board[scope]
      ensures forall scope :: scope in board'.Keys - board.Keys ==> board'[scope] == Standing(history, scope)
      ensures CountsOf(counts, history)
    {
      board' := board;
      var waiting := tallies.Keys - board.Keys;
      while waiting != {}
        invariant waiting <= tallies.Keys - board.Keys
        invariant board'.Keys == board.Keys + (tallies.Keys - board.Keys - waiting)
        invariant forall scope :: scope in board ==> board'[scope] == board[scope]
        invariant forall scope :: scope in board'.Keys - board.Keys ==> board'[scope] == Standing(history, scope)
        decreases waiting
      {
        var scope :| scope in waiting;
        TallyIsValid(history, scope);
        board' := board'[scope := OverTime(tallies[scope])];
        waiting := waiting - {scope};
      }
      counts := Published(stages);
      PublishedIsHistory(stages, history);
    }

    /** A round: fold every verdict, then close. The board it leaves has exactly
        one record for every scope ever folded, and each is the standing over
        the whole history, whether the scope ran this round or waited. */
    method Round(verdicts: seq<Verdict>) returns (board: Board, counts: map<(Line, Counted), nat>)
      requires Valid()
      modifies this
      ensures Valid() && history == old(history) + verdicts
      ensures Complete(board, history) && CountsOf(counts, history)
    {
      board := FoldAll(verdicts);
      board, counts := Close(board);
    }
  }
}
