/**
  Items judged from several threads that draw places from one shared counter:
  every interleaving gives what judging them one after the other gives.
 */
module Driver {
  import opened Options

  /** One worker thread: the place it is judging, what it has judged, and
      whether it drew a place past the end. */
  datatype Hand<T> = Hand(at: Option<nat>, mine: seq<(nat, T)>, done: bool)

  /** `owner` notes who drew each place; no step reads it. */
  datatype State<T> = State(next: nat, hands: seq<Hand<T>>, owner: seq<nat>)

  datatype Work<!I, !T> = Work(items: seq<I>, judge: I -> T)

  function Init<I, T>(work: Work<I, T>, workers: nat): State<T> {
    State(0, seq(workers, _ => Hand(None, [], false)), [])
  }

  /** One step of worker `w`: draw the next place, or judge the one it drew. */
  function Step<I, T>(work: Work<I, T>, s: State<T>, w: nat): State<T> {
    if w >= |s.hands| || s.hands[w].done then s else
    var hand := s.hands[w];
    match hand.at
    case Some(at) =>
      if at >= |work.items| then s else
      s.(hands := s.hands[w := Hand(None, hand.mine + [(at, work.judge(work.items[at]))], false)])
    case None =>
      var hand' := if s.next < |work.items| then hand.(at := Some(s.next)) else hand.(done := true);
      State(s.next + 1, s.hands[w := hand'], s.owner + [w])
  }

  /** The state an interleaving of the workers' steps leads to. */
  function After<I, T>(work: Work<I, T>, s: State<T>, run: seq<nat>): State<T> {
    if run == [] then s else Step(work, After(work, s, run[..|run| - 1]), run[|run| - 1])
  }

  ghost predicate HandSound<I, T>(work: Work<I, T>, s: State<T>, w: nat)
    requires w < |s.hands|
  {
    var hand := s.hands[w];
    && (hand.at.Some? ==> hand.at.value < |work.items| && hand.at.value < |s.owner| && s.owner[hand.at.value] == w)
    && (hand.done ==> |work.items| < s.next)
    && (forall k :: 0 <= k < |hand.mine| ==>
          var (at, verdict) := hand.mine[k];
          && at < |work.items| && at < |s.owner| && s.owner[at] == w && verdict == work.judge(work.items[at])
          && (hand.at.Some? ==> at < hand.at.value))
    && (forall k, l :: 0 <= k < l < |hand.mine| ==> hand.mine[k].0 < hand.mine[l].0)
  }

  ghost predicate PlaceSound<I, T>(work: Work<I, T>, s: State<T>, at: nat)
    requires at < |s.owner|
  {
    && s.owner[at] < |s.hands|
    && (at < |work.items| ==>
          var hand := s.hands[s.owner[at]];
          hand.at == Some(at) || exists k :: 0 <= k < |hand.mine| && hand.mine[k].0 == at)
  }

  ghost predicate Inv<I, T>(work: Work<I, T>, s: State<T>) {
    && |s.owner| == s.next
    && (forall w :: 0 <= w < |s.hands| ==> HandSound(work, s, w))
    && (forall at :: 0 <= at < |s.owner| ==> PlaceSound(work, s, at))
  }

  lemma HandNext<I, T>(work: Work<I, T>, s: State<T>, w: nat, v: nat)
    requires |s.owner| == s.next && v < |s.hands| && HandSound(work, s, v)
    ensures HandSound(work, Step(work, s, w), v)
  {
  }

  lemma PlaceNext<I, T>(work: Work<I, T>, s: State<T>, w: nat, at: nat)
    requires |s.owner| == s.next && at < |Step(work, s, w).owner| && w < |s.hands| && HandSound(work, s, w)
    requires at < |s.owner| ==> PlaceSound(work, s, at)
    ensures PlaceSound(work, Step(work, s, w), at)
  {
    var s' := Step(work, s, w);
    if at < |s.owner| && at < |work.items| && s.owner[at] == w && s.hands[w].at == Some(at) && !s.hands[w].done {
      assert s'.hands[w].mine[|s.hands[w].mine|].0 == at;
    } else if at < |s.owner| && at < |work.items| && s.hands[s.owner[at]].at != Some(at) {
      var k :| 0 <= k < |s.hands[s.owner[at]].mine| && s.hands[s.owner[at]].mine[k].0 == at;
      assert s'.hands[s.owner[at]].mine[k].0 == at;
    }
  }

  lemma StepInv<I, T>(work: Work<I, T>, s: State<T>, w: nat)
    requires Inv(work, s)
    ensures Inv(work, Step(work, s, w))
  {
    if w < |s.hands| {
      var s' := Step(work, s, w);
      forall v | 0 <= v < |s'.hands| ensures HandSound(work, s', v) { HandNext(work, s, w, v); }
      forall at | 0 <= at < |s'.owner| ensures PlaceSound(work, s', at) { PlaceNext(work, s, w, at); }
    }
  }

  lemma {:induction false} Reachable<I, T>(work: Work<I, T>, workers: nat, run: seq<nat>)
    ensures Inv(work, After(work, Init(work, workers), run))
    ensures |After(work, Init(work, workers), run).hands| == workers
  {
    if run != [] {
      Reachable(work, workers, run[..|run| - 1]);
      StepInv(work, After(work, Init(work, workers), run[..|run| - 1]), run[|run| - 1]);
    }
  }

  /** What the join gathers: every hand's verdicts, hand after hand. */
  function Gathered<T>(hands: seq<Hand<T>>): seq<(nat, T)> {
    if hands == [] then [] else Gathered(hands[..|hands| - 1]) + hands[|hands| - 1].mine
  }

  ghost predicate KeysDiffer<T>(s: seq<(nat, T)>) {
    forall i, j :: 0 <= i < j < |s| ==> s[i].0 != s[j].0
  }

  lemma {:induction false} GatheredFrom<I, T>(work: Work<I, T>, s: State<T>, n: nat)
    requires Inv(work, s) && n <= |s.hands|
    ensures KeysDiffer(Gathered(s.hands[..n]))
    ensures forall p :: p in Gathered(s.hands[..n]) ==>
              p.0 < |work.items| && p.1 == work.judge(work.items[p.0]) && p.0 < |s.owner| && s.owner[p.0] < n
  {
    if n > 0 {
      GatheredFrom(work, s, n - 1);
      assert s.hands[..n][..n - 1] == s.hands[..n - 1];
      assert HandSound(work, s, n - 1);
      var before, mine := Gathered(s.hands[..n - 1]), s.hands[n - 1].mine;
      assert forall i :: 0 <= i < |before| ==> before[i] in before;
      assert Gathered(s.hands[..n]) == before + mine;
    }
  }

  lemma {:induction false} GatheredHas<T>(hands: seq<Hand<T>>, w: nat, p: (nat, T))
    requires w < |hands| && p in hands[w].mine
    ensures p in Gathered(hands)
  {
    if w < |hands| - 1 { GatheredHas(hands[..|hands| - 1], w, p); }
  }

  lemma {:induction false} OnceEach<T>(s: seq<(nat, T)>, x: (nat, T))
    requires KeysDiffer(s)
    ensures multiset(s)[x] <= 1
  {
    if s != [] {
      var n := |s| - 1;
      OnceEach(s[..n], x);
      assert s == s[..n] + [s[n]];
      assert x == s[n] ==> x !in s[..n];
    }
  }

  lemma TwiceCounts<T>(s: seq<(nat, T)>, i: nat, j: nat)
    requires i < j < |s| && s[i] == s[j]
    ensures multiset(s)[s[i]] >= 2
  {
    assert s == s[..j] + s[j..];
    assert s[i] in s[..j] && s[j] == s[j..][0] && s[j] in s[j..];
  }

  ghost predicate HasPlace<T>(s: seq<(nat, T)>, at: nat) {
    exists i :: 0 <= i < |s| && s[i].0 == at
  }

  /** Ascending places with none missing are the places themselves. */
  lemma {:induction false} InPlace<T>(s: seq<(nat, T)>, n: nat, k: nat)
    requires forall i, j :: 0 <= i < j < |s| ==> s[i].0 < s[j].0
    requires forall at: nat :: at < n ==> HasPlace(s, at)
    requires k < n
    ensures k < |s| && forall i :: 0 <= i <= k ==> s[i].0 == i
  {
    if k > 0 { InPlace(s, n, k - 1); }
    assert HasPlace(s, k);
    var i :| 0 <= i < |s| && s[i].0 == k;
    assert i >= k;
    assert k > 0 ==> s[k - 1].0 < s[k].0;
  }

  lemma {:induction false} AtLeastItsPlace<T>(s: seq<(nat, T)>, k: nat)
    requires k < |s| && forall i, j :: 0 <= i < j < |s| ==> s[i].0 < s[j].0
    ensures s[k].0 >= k
  {
    if k > 0 { AtLeastItsPlace(s, k - 1); }
  }

  lemma PlacesFill<I, T>(work: Work<I, T>, sorted: seq<(nat, T)>)
    requires forall i, j :: 0 <= i < j < |sorted| ==> sorted[i].0 < sorted[j].0
    requires forall p :: p in sorted ==> p.0 < |work.items| && p.1 == work.judge(work.items[p.0])
    requires forall at: nat :: at < |work.items| ==> HasPlace(sorted, at)
    ensures |sorted| == |work.items|
    ensures forall i :: 0 <= i < |sorted| ==> sorted[i] == (i, work.judge(work.items[i]))
  {
    var n := |work.items|;
    if n > 0 {
      InPlace(sorted, n, n - 1);
    }
    if sorted != [] {
      AtLeastItsPlace(sorted, |sorted| - 1);
      assert sorted[|sorted| - 1] in sorted;
    }
    forall i | 0 <= i < |sorted| ensures sorted[i] == (i, work.judge(work.items[i])) {
      assert sorted[i] in sorted && sorted[i].0 == i;
    }
  }

  ghost predicate Joined<T>(s: State<T>) {
    forall w :: 0 <= w < |s.hands| ==> s.hands[w].done
  }

  /** A worker that is done holds no place. */
  lemma {:induction false} DoneHoldsNothing<I, T>(work: Work<I, T>, workers: nat, run: seq<nat>, w: nat)
    requires w < workers
    ensures var s := After(work, Init(work, workers), run);
            |s.hands| == workers && (s.hands[w].done ==> s.hands[w].at.None?)
  {
    Reachable(work, workers, run);
    if run != [] {
      Reachable(work, workers, run[..|run| - 1]);
      DoneHoldsNothing(work, workers, run[..|run| - 1], w);
    }
  }

  /** Every place was drawn, judged and gathered once. */
  lemma JoinGathersAll<I, T>(work: Work<I, T>, workers: nat, run: seq<nat>, at: nat)
    requires workers >= 1 && at < |work.items|
    requires Joined(After(work, Init(work, workers), run))
    ensures var all := Gathered(After(work, Init(work, workers), run).hands);
            (at, work.judge(work.items[at])) in all
  {
    var s := After(work, Init(work, workers), run);
    Reachable(work, workers, run);
    assert HandSound(work, s, 0) && PlaceSound(work, s, at);
    var hand := s.hands[s.owner[at]];
    DoneHoldsNothing(work, workers, run, s.owner[at]);
    var k :| 0 <= k < |hand.mine| && hand.mine[k].0 == at;
    assert HandSound(work, s, s.owner[at]);
    assert hand.mine[k] in hand.mine;
    GatheredHas(s.hands, s.owner[at], hand.mine[k]);
  }

  lemma PlaceIsHeld<T>(s: seq<(nat, T)>, p: (nat, T))
    requires p in s
    ensures HasPlace(s, p.0)
  {
    var i :| 0 <= i < |s| && s[i] == p;
    assert s[i].0 == p.0;
  }

  /** The driver is a map: for any number of workers and any interleaving that
      joins, whatever gathers and sorts by place gives the judge of every item,
      in the items' order. */
  lemma DrivesInOrder<I, T>(work: Work<I, T>, workers: nat, run: seq<nat>, sorted: seq<(nat, T)>)
    requires workers >= 1 && Joined(After(work, Init(work, workers), run))
    requires multiset(sorted) == multiset(Gathered(After(work, Init(work, workers), run).hands))
    requires forall i, j :: 0 <= i < j < |sorted| ==> sorted[i].0 <= sorted[j].0
    ensures |sorted| == |work.items|
    ensures forall i :: 0 <= i < |sorted| ==> sorted[i] == (i, work.judge(work.items[i]))
  {
    var all := Gathered(After(work, Init(work, workers), run).hands);
    JoinIsComplete(work, workers, run);
    SortedAscends(work, all, sorted);
    forall at: nat | at < |work.items| ensures HasPlace(sorted, at) {
      var p := (at, work.judge(work.items[at]));
      assert p in all && p in multiset(all) && p in multiset(sorted);
      PlaceIsHeld(sorted, p);
    }
    PlacesFill(work, sorted);
  }

  lemma JoinIsComplete<I, T>(work: Work<I, T>, workers: nat, run: seq<nat>)
    requires workers >= 1 && Joined(After(work, Init(work, workers), run))
    ensures var all := Gathered(After(work, Init(work, workers), run).hands);
            && KeysDiffer(all)
            && (forall p :: p in all ==> p.0 < |work.items| && p.1 == work.judge(work.items[p.0]))
            && (forall at: nat :: at < |work.items| ==> (at, work.judge(work.items[at])) in all)
  {
    var s := After(work, Init(work, workers), run);
    Reachable(work, workers, run);
    GatheredFrom(work, s, |s.hands|);
    assert s.hands[..|s.hands|] == s.hands;
    forall at: nat | at < |work.items| ensures (at, work.judge(work.items[at])) in Gathered(s.hands) {
      JoinGathersAll(work, workers, run, at);
    }
  }

  lemma SortedAscends<I, T>(work: Work<I, T>, all: seq<(nat, T)>, sorted: seq<(nat, T)>)
    requires KeysDiffer(all) && multiset(sorted) == multiset(all)
    requires forall p :: p in all ==> p.0 < |work.items| && p.1 == work.judge(work.items[p.0])
    requires forall i, j :: 0 <= i < j < |sorted| ==> sorted[i].0 <= sorted[j].0
    ensures forall i, j :: 0 <= i < j < |sorted| ==> sorted[i].0 < sorted[j].0
    ensures forall p :: p in sorted <==> p in all
  {
    assert forall p :: p in sorted <==> p in multiset(sorted);
    assert forall p :: p in all <==> p in multiset(all);
    forall i, j | 0 <= i < j < |sorted| ensures sorted[i].0 < sorted[j].0 {
      if sorted[i].0 == sorted[j].0 {
        assert sorted[i] in all && sorted[j] in all;
        OnceEach(all, sorted[i]);
        TwiceCounts(sorted, i, j);
      }
    }
  }

  lemma {:induction false} AfterTwo<I, T>(work: Work<I, T>, s: State<T>, a: seq<nat>, b: seq<nat>)
    ensures After(work, s, a + b) == After(work, After(work, s, a), b)
  {
    if b == [] {
      assert a + b == a;
    } else {
      AfterTwo(work, s, a, b[..|b| - 1]);
      assert (a + b)[..|a + b| - 1] == a + b[..|b| - 1];
    }
  }

  /** A worker run alone comes to its end, whatever the others left it. */
  lemma {:induction false} FinishOne<I, T>(work: Work<I, T>, s: State<T>, w: nat) returns (run: seq<nat>)
    requires Inv(work, s) && w < |s.hands|
    ensures var s' := After(work, s, run);
            && Inv(work, s') && |s'.hands| == |s.hands| && s'.hands[w].done
            && forall v :: 0 <= v < |s.hands| && v != w ==> s'.hands[v] == s.hands[v]
    decreases if s.hands[w].done then 0 else 1, if s.next < |work.items| then |work.items| - s.next else 0,
              if s.hands[w].at.Some? then 1 else 0
  {
    if s.hands[w].done {
      run := [];
    } else {
      assert HandSound(work, s, w);
      StepInv(work, s, w);
      var rest := FinishOne(work, Step(work, s, w), w);
      run := [w] + rest;
      AfterTwo(work, s, [w], rest);
      assert After(work, s, [w]) == Step(work, After(work, s, []), w);
    }
  }

  lemma {:induction false} FinishFirst<I, T>(work: Work<I, T>, s: State<T>, n: nat) returns (run: seq<nat>)
    requires Inv(work, s) && n <= |s.hands|
    ensures var s' := After(work, s, run);
            Inv(work, s') && |s'.hands| == |s.hands| && forall w :: 0 <= w < n ==> s'.hands[w].done
  {
    if n == 0 {
      run := [];
    } else {
      var first := FinishFirst(work, s, n - 1);
      var last := FinishOne(work, After(work, s, first), n - 1);
      run := first + last;
      AfterTwo(work, s, first, last);
    }
  }

  /** No run is stuck: every one can be continued to its join. */
  lemma EveryRunJoins<I, T>(work: Work<I, T>, workers: nat, run: seq<nat>) returns (more: seq<nat>)
    ensures Joined(After(work, Init(work, workers), run + more))
  {
    Reachable(work, workers, run);
    more := FinishFirst(work, After(work, Init(work, workers), run), workers);
    AfterTwo(work, Init(work, workers), run, more);
  }
}
