/**
  Who drives which pair how often: the matrix parted among the receiving nodes
  and each share rotating under its own node's rounds.
 */
module Shares {
  import opened Options
  import opened Contracts
  import opened Rosters
  import opened Stages
  import opened Workers
  import opened Relays

  /** A transport by its place, and a contract. */
  datatype Pair = Pair(at: nat, contract: Contract)

  function Row(at: nat): seq<Pair> {
    seq(|CONTRACTS|, i requires 0 <= i < |CONTRACTS| => Pair(at, CONTRACTS[i]))
  }

  /** All pairs, transport after transport. */
  function Matrix(transports: nat): seq<Pair> {
    if transports == 0 then [] else Matrix(transports - 1) + Row(transports - 1)
  }

  lemma PlaceInRow(transports: nat, at: nat, i: nat)
    requires at < transports && i < |CONTRACTS|
    ensures at * |CONTRACTS| + i < transports * |CONTRACTS|
  {
    assert (at + 1) * |CONTRACTS| <= transports * |CONTRACTS|;
  }

  lemma {:induction false} MatrixSize(transports: nat)
    ensures |Matrix(transports)| == transports * |CONTRACTS|
  {
    if transports > 0 { MatrixSize(transports - 1); }
  }

  /** A pair's index in the matrix, by its transport's place and its contract's. */
  function IndexOf(at: nat, c: Contract): nat {
    at * |CONTRACTS| + Index(c)
  }

  /** The matrix has every pair, each transport by each contract, at the index their
      own places give, and nothing else. */
  lemma {:induction false} MatrixIs(transports: nat, at: nat, c: Contract)
    requires at < transports
    ensures |Matrix(transports)| == transports * |CONTRACTS|
    ensures IndexOf(at, c) < |Matrix(transports)| && Matrix(transports)[IndexOf(at, c)] == Pair(at, c)
  {
    MatrixSize(transports);
    MatrixSize(transports - 1);
    PlaceInRow(transports, at, Index(c));
    if at < transports - 1 {
      MatrixIs(transports - 1, at, c);
    }
  }

  lemma ContractsDiffer()
    ensures AllDifferent(CONTRACTS)
  {
    forall i, j | 0 <= i < j < |CONTRACTS| ensures CONTRACTS[i] != CONTRACTS[j] {
      IndexIs(i);
      IndexIs(j);
    }
  }

  lemma {:induction false} MatrixDiffers(transports: nat)
    ensures AllDifferent(Matrix(transports))
    ensures forall i :: 0 <= i < |Matrix(transports)| ==> Matrix(transports)[i].at < transports
  {
    if transports > 0 {
      MatrixDiffers(transports - 1);
      ContractsDiffer();
    }
  }

  /** A share holds a pair exactly when its node receives the pair's index, and
      holds no pair twice. */
  lemma {:induction false} ShareHolds<T>(roster: Roster, name: Name, pairs: seq<T>, at: nat)
    requires at <= |pairs| && AllDifferent(pairs)
    ensures AllDifferent(Share(roster, name, pairs, at))
    ensures forall x :: x in Share(roster, name, pairs, at) ==> x in pairs[..at]
    ensures forall i :: 0 <= i < at ==> (pairs[i] in Share(roster, name, pairs, at) <==> roster.Receives(name, i))
  {
    if at > 0 {
      ShareHolds(roster, name, pairs, at - 1);
      var share, last := Share(roster, name, pairs, at - 1), pairs[at - 1];
      assert last !in pairs[..at - 1];
      assert forall i :: 0 <= i < |share| ==> share[i] in share;
    }
  }

  lemma DrivenIsHeld<T>(pairs: seq<T>, k: nat, t: nat, x: T)
    requires x !in pairs
    ensures Occurrences(Driven(pairs, k, t), x) == 0
  {
    if pairs == [] {
      DrivenLength(pairs, k, t);
    } else {
      GoesRound(pairs, k, t);
    }
    NoneHeld(Driven(pairs, k, t), x);
  }

  lemma {:induction false} NoneHeld<T>(s: seq<T>, x: T)
    requires forall i :: 0 <= i < |s| ==> s[i] != x
    ensures Occurrences(s, x) == 0
  {
    if s != [] { NoneHeld(s[..|s| - 1], x); }
  }

  /** A node's whole share of the matrix, and what it has driven of it after `t`
      of its rounds. */
  function ShareOf(roster: Roster, name: Name, transports: nat): seq<Pair> {
    Share(roster, name, Matrix(transports), |Matrix(transports)|)
  }

  function DrivenBy(roster: Roster, name: Name, transports: nat, k: nat, t: nat): seq<Pair> {
    Driven(ShareOf(roster, name, transports), k, t)
  }

  /** `n` is `total` spread over `m`, rounded down or up. */
  predicate Average(n: nat, total: nat, m: nat) {
    m > 0 && (n == total / m || (n == total / m + 1 && total % m > 0))
  }

  lemma IsAverage(n: nat, total: nat, m: nat, j: nat)
    requires j < m && n == total / m + if j < total % m then 1 else 0
    ensures Average(n, total, m)
  {
  }

  lemma Turns<T>(share: seq<T>, x: T, k: nat, t: nat)
    requires AllDifferent(share) && x in share
    ensures Average(Occurrences(Driven(share, k, t), x), |Driven(share, k, t)|, |share|)
  {
    var j :| 0 <= j < |share| && share[j] == x;
    GoesRound(share, k, t);
    RoundCount(share, Driven(share, k, t), j);
    IsAverage(Occurrences(Driven(share, k, t), x), |Driven(share, k, t)|, |share|, j);
  }

  ghost predicate DrivesFairly(roster: Roster, name: Name, transports: nat, k: nat, t: nat, pair: Pair) {
    var driven := DrivenBy(roster, name, transports, k, t);
    Average(Occurrences(driven, pair), |driven|, |ShareOf(roster, name, transports)|)
  }

  lemma IndexHasItsTurn(roster: Roster, transports: nat, index: nat, name: Name, k: nat, t: nat)
    requires index < |Matrix(transports)|
    ensures var share, pair := ShareOf(roster, name, transports), Matrix(transports)[index];
            if roster.Receives(name, index) then pair in share && DrivesFairly(roster, name, transports, k, t, pair)
            else Occurrences(DrivenBy(roster, name, transports, k, t), pair) == 0
  {
    var pairs, share := Matrix(transports), ShareOf(roster, name, transports);
    MatrixDiffers(transports);
    ShareHolds(roster, name, pairs, |pairs|);
    if roster.Receives(name, index) {
      Turns(share, pairs[index], k, t);
    } else {
      DrivenIsHeld(share, k, t, pairs[index]);
    }
  }

  lemma SharesDiffer(roster: Roster, name: Name, transports: nat)
    ensures AllDifferent(ShareOf(roster, name, transports))
  {
    MatrixDiffers(transports);
    ShareHolds(roster, name, Matrix(transports), |Matrix(transports)|);
  }

  /** Every transport by every contract has its turn: the node that receives the
      pair's index drives it the average number of times of its share, rounded down
      or up, and never twice in a round; nobody else drives it at all. */
  lemma EveryPairHasItsTurn(roster: Roster, transports: nat, at: nat, c: Contract, name: Name, k: nat, t: nat)
    requires at < transports
    ensures var share, pair := ShareOf(roster, name, transports), Pair(at, c);
            && |DrivenBy(roster, name, transports, k, t)| == t * PerRound(share, k)
            && (forall cursor :: AllDifferent(Slice(share, cursor, Some(k))))
            && if roster.Receives(name, IndexOf(at, c)) then pair in share && DrivesFairly(roster, name, transports, k, t, pair)
               else Occurrences(DrivenBy(roster, name, transports, k, t), pair) == 0
  {
    var share := ShareOf(roster, name, transports);
    MatrixIs(transports, at, c);
    DrivenLength(share, k, t);
    SharesDiffer(roster, name, transports);
    forall cursor ensures AllDifferent(Slice(share, cursor, Some(k))) { NeverTwice(share, k, cursor); }
    IndexHasItsTurn(roster, transports, IndexOf(at, c), name, k, t);
  }

  /** So on a roster whose receivers are each named once somebody drives it, and
      one node alone. */
  lemma SomebodyDrivesIt(roster: Roster, transports: nat, at: nat, c: Contract, k: nat, t: nat) returns (name: Name)
    requires at < transports && roster.With(Receive) != [] && NoDuplicates(roster.With(Receive))
    ensures name in roster.With(Receive) && Pair(at, c) in ShareOf(roster, name, transports)
    ensures DrivesFairly(roster, name, transports, k, t, Pair(at, c))
    ensures forall other :: other != name ==> Occurrences(DrivenBy(roster, other, transports, k, t), Pair(at, c)) == 0
  {
    var index := IndexOf(at, c);
    DistinctTake(roster, index);
    name :| roster.Receives(name, index);
    EveryPairHasItsTurn(roster, transports, at, c, name, k, t);
    forall other | other != name ensures Occurrences(DrivenBy(roster, other, transports, k, t), Pair(at, c)) == 0 {
      EveryPairHasItsTurn(roster, transports, at, c, other, k, t);
      if roster.Receives(other, index) { OneReceiver(roster, index, name, other); }
    }
  }

  // Which pairs a node's share is, in their order.

  ghost predicate EveryNth<T>(share: seq<T>, pairs: seq<T>, at: nat, i: nat, n: nat)
    requires at <= |pairs| && i < n
  {
    && |share| == at / n + (if i < at % n then 1 else 0)
    && forall j: nat :: j < |share| ==> i + n * j < at && share[j] == pairs[i + n * j]
  }

  /** One more pair looked at. */
  lemma NthNext<T>(share: seq<T>, pairs: seq<T>, at: nat, i: nat, n: nat)
    requires at < |pairs| && i < n && EveryNth(share, pairs, at, i, n)
    ensures EveryNth(share + if at % n == i then [pairs[at]] else [], pairs, at + 1, i, n)
  {
    ModNext(at, n);
    assert at == n * (at / n) + at % n;
  }

  lemma {:induction false} ShareIsOf<T>(roster: Roster, i: nat, pairs: seq<T>, at: nat)
    requires NoDuplicates(roster.With(Receive)) && i < |roster.With(Receive)| && at <= |pairs|
    ensures EveryNth(Share(roster, roster.With(Receive)[i], pairs, at), pairs, at, i, |roster.With(Receive)|)
  {
    var names, n := roster.With(Receive), |roster.With(Receive)|;
    if at == 0 {
      ModUnique(0, n, 0, 0);
    } else {
      PositionOf(names, i);
      ShareIsOf(roster, i, pairs, at - 1);
      NthNext(Share(roster, names[i], pairs, at - 1), pairs, at - 1, i, n);
    }
  }

  /** A node's share of the matrix is every so-manieth pair from its own place among
      the receivers on, in matrix order, so no two shares differ by more than one. */
  lemma ShareIs<T>(roster: Roster, i: nat, pairs: seq<T>)
    requires NoDuplicates(roster.With(Receive)) && i < |roster.With(Receive)|
    ensures var n, share := |roster.With(Receive)|, Share(roster, roster.With(Receive)[i], pairs, |pairs|);
            && |share| == |pairs| / n + (if i < |pairs| % n then 1 else 0)
            && forall j: nat :: j < |share| ==> i + n * j < |pairs| && share[j] == pairs[i + n * j]
  {
    ShareIsOf(roster, i, pairs, |pairs|);
  }
}
