/**
  Stretches of a run: one reader led to the first item of a lane and through the
  steps of processing it, and what a stretch of some readers' steps cannot change.
 */
module PickupRuns {
  import opened Options
  import opened Pickup
  import opened PickupSafety
  import opened PickupReach
  import opened PickupJoin

  lemma OneMore(sys: System, s: State, run: seq<Event>, e: Event)
    requires |s.control| == |sys.readers|
    ensures After(sys, s, run + [e]) == Next(sys, After(sys, s, run), e)
  {
    assert (run + [e])[..|run|] == run;
  }

  ghost predicate AllBy(run: seq<Event>, i: nat) {
    forall e :: e in run ==> e.reader == i
  }

  /** What a reader lists so that `lane` comes first. */
  function LanesFirst(r: Reader, lane: Lane): seq<Lane> {
    if r.shared then [lane, r.own] else [r.own]
  }

  function Listing(sys: System, i: nat, lane: Lane): Event
    requires i < |sys.readers|
  {
    Event(i, LanesFirst(sys.readers[i], lane), LaneItems(lane))
  }

  function First(lane: Lane): Item {
    Item(lane, 0, 0)
  }

  /** Where a reader that came to the lane's first item goes on after it. */
  function Onwards(sys: System, i: nat, lane: Lane): Control
    requires i < |sys.readers|
  {
    var rest := LanesFirst(sys.readers[i], lane)[1..];
    if sys.ordered && sys.Honest(i) then Draining(0, rest, lane, 0, 1)
    else Picking(0, rest, LaneItems(lane)[1..])
  }

  lemma LanesFirstLists(sys: System, i: nat, lane: Lane)
    requires sys.Valid() && lane in sys.lanes && MayList(sys, i, lane)
    ensures ListsLanes(sys, sys.readers[i].own, LanesFirst(sys.readers[i], lane))
    ensures LanesFirst(sys.readers[i], lane)[0] == lane
  {
    assert LanesFirst(sys.readers[i], lane)[|LanesFirst(sys.readers[i], lane)| - 1] == sys.readers[i].own;
  }

  lemma Enters(sys: System, s: State, i: nat, lane: Lane) returns (s': State)
    requires sys.Valid() && |s.control| == |sys.readers| && lane in sys.lanes && MayList(sys, i, lane)
    requires s.control[i] == Passing(0)
    ensures var e := Listing(sys, i, lane); s' == Next(sys, Next(sys, s, e), e)
    ensures var rest := LanesFirst(sys.readers[i], lane)[1..];
            s' == Goto(s, i, if sys.ordered && sys.Honest(i) then Keying(0, rest, lane, 0) else Picking(0, rest, LaneItems(lane)))
  {
    var e, lanes := Listing(sys, i, lane), LanesFirst(sys.readers[i], lane);
    LanesFirstLists(sys, i, lane);
    LaneItemsAll(sys, s.files, lane);
    var mid := Next(sys, s, e);
    assert mid == Goto(s, i, Laning(0, lanes));
    s' := Next(sys, mid, e);
  }

  lemma Claims(sys: System, s: State, i: nat, lane: Lane) returns (run: seq<Event>, s': State)
    requires sys.Valid() && |s.control| == |sys.readers| && i < |sys.readers|
    requires var rest := LanesFirst(sys.readers[i], lane)[1..];
             s.control[i] == if sys.ordered && sys.Honest(i) then Keying(0, rest, lane, 0) else Picking(0, rest, LaneItems(lane))
    requires sys.Honest(i) ==> sys.LockOf(First(lane)) !in s.files
    ensures s' == After(sys, s, run) && AllBy(run, i)
    ensures s'.control == s.control[i := Processing(Read, First(lane), 0, Onwards(sys, i, lane))] && s'.clocks == s.clocks
    ensures s'.files == if sys.Honest(i) then s.files[sys.LockOf(First(lane)) := Lock(i)] else s.files
  {
    var e := Listing(sys, i, lane);
    run := [e];
    OneMore(sys, s, [], e);
    s' := Next(sys, s, e);
    assert [] + [e] == run && LaneItems(lane)[0] == First(lane);
    if sys.ordered && sys.Honest(i) {
      OneMore(sys, s, run, e);
      run := run + [e];
      s' := Next(sys, s', e);
    }
  }

  /** A reader about to start is led to the first item of a lane it scans; an
      honest one has won its lock. */
  lemma LedToTheFirst(sys: System, s: State, i: nat, lane: Lane) returns (run: seq<Event>, s': State)
    requires sys.Valid() && |s.control| == |sys.readers| && lane in sys.lanes && MayList(sys, i, lane)
    requires s.control[i] == Passing(0) && (sys.Honest(i) ==> sys.LockOf(First(lane)) !in s.files)
    ensures s' == After(sys, s, run) && AllBy(run, i)
    ensures s'.control == s.control[i := Processing(Read, First(lane), 0, Onwards(sys, i, lane))] && s'.clocks == s.clocks
    ensures s'.files == if sys.Honest(i) then s.files[sys.LockOf(First(lane)) := Lock(i)] else s.files
  {
    var e := Listing(sys, i, lane);
    OneMore(sys, s, [], e);
    assert [] + [e] == [e];
    OneMore(sys, s, [e], e);
    var at := Enters(sys, s, i, lane);
    var rest;
    rest, s' := Claims(sys, at, i, lane);
    run := [e] + [e] + rest;
    AfterTwo(sys, s, [e] + [e], rest);
  }

  /** Read the item that is there and draw an order. */
  lemma Reads(sys: System, s: State, i: nat) returns (run: seq<Event>, s': State)
    requires i < |sys.readers| == |s.control| && s.control[i].Processing? && s.control[i].step.Read?
    requires ItemFile(s.control[i].item) in s.files
    ensures s' == After(sys, s, run) && AllBy(run, i) && s'.files == s.files && s'.clocks == s.clocks
    ensures s'.control == s.control[i := s.control[i].(step := Tick)]
  {
    var e := Event(i, [], []);
    run := [e];
    OneMore(sys, s, [], e);
    assert [] + [e] == run;
    s' := Next(sys, s, e);
  }

  lemma Draws(sys: System, s: State, i: nat) returns (run: seq<Event>, s': State)
    requires i < |sys.readers| == |s.control| && s.control[i].Processing? && s.control[i].step.Tick?
    ensures s' == After(sys, s, run) && AllBy(run, i) && s'.files == s.files
    ensures s'.control[i].Processing? && s'.control[i] == s.control[i].(step := Sign, order := s'.control[i].order)
    ensures s'.control == s.control[i := s'.control[i]]
  {
    var e := Event(i, [], []);
    run := [e];
    OneMore(sys, s, [], e);
    assert [] + [e] == run;
    s' := Next(sys, s, e);
  }

  /** A broken reader signs what it has drawn an order for. */
  lemma BrokenSigns(sys: System, s: State, i: nat) returns (run: seq<Event>, s': State)
    requires i < |sys.readers| == |s.control| && sys.readers[i].broken
    requires s.control[i].Processing? && s.control[i].step.Sign? && Done(s.control[i].item, sys.readers[i].holder) !in s.files
    ensures s' == After(sys, s, run) && AllBy(run, i)
    ensures s'.files == s.files[Done(s.control[i].item, sys.readers[i].holder) := Record(i, Some(Signature(s.control[i].order, true)))]
    ensures s'.control == s.control[i := s.control[i].(step := Remove)]
  {
    var e := Event(i, [], []);
    var mid := Next(sys, s, e);
    OneMore(sys, s, [], e);
    assert [] + [e] == [e];
    OneMore(sys, s, [e], e);
    run := [e] + [e];
    s' := Next(sys, mid, e);
  }

  /** An honest reader whose name is on the item already consumes it unsigned. */
  lemma HonestConsumes(sys: System, s: State, i: nat) returns (run: seq<Event>, s': State)
    requires sys.Honest(i) && |sys.readers| == |s.control|
    requires s.control[i].Processing? && s.control[i].step.Sign? && Done(s.control[i].item, sys.readers[i].holder) in s.files
    ensures s' == After(sys, s, run) && s'.files == s.files - {ItemFile(s.control[i].item)}
  {
    var e := Event(i, [], []);
    var mid := Next(sys, s, e);
    OneMore(sys, s, [], e);
    assert [] + [e] == [e];
    OneMore(sys, s, [e], e);
    run := [e] + [e];
    s' := Next(sys, mid, e);
  }

  /** All a broken reader adds is done records, and it takes nothing away. */
  lemma BrokenStep(sys: System, s: State, e: Event, n: Name)
    requires Inv(sys, s) && e.reader < |sys.readers| && sys.readers[e.reader].broken
    ensures !n.Done? ==> (n in Next(sys, s, e).files <==> n in s.files)
    ensures n in s.files && s.files[n].Record? && s.files[n].text.Some? ==>
              n in Next(sys, s, e).files && Next(sys, s, e).files[n] == s.files[n]
  {
    assert Awake(sys, s, e);
    NextExtends(sys, s, e);
    if n in s.files { assert FileSound(sys, s, n); }
    if n.ItemFile? && n in s.files && sys.LockOf(n.item) in s.files { assert FileSound(sys, s, sys.LockOf(n.item)); }
    BrokenAdds(sys, s, e, n);
  }

  lemma BrokenAdds(sys: System, s: State, e: Event, n: Name)
    requires Awake(sys, s, e) && sys.readers[e.reader].broken
    ensures n in Next(sys, s, e).files && n !in s.files ==> n.Done?
  {
    match s.control[e.reader] {
      case Processing(_, _, _, _) =>
      case _ =>
    }
  }

  lemma {:induction false} BrokenRun(sys: System, s: State, run: seq<Event>, b: nat, n: Name)
    requires Inv(sys, s) && b < |sys.readers| && sys.readers[b].broken && AllBy(run, b)
    ensures Inv(sys, After(sys, s, run))
    ensures !n.Done? ==> (n in After(sys, s, run).files <==> n in s.files)
    ensures n in s.files && s.files[n].Record? && s.files[n].text.Some? ==>
              n in After(sys, s, run).files && After(sys, s, run).files[n] == s.files[n]
  {
    if run != [] {
      var before, e := run[..|run| - 1], run[|run| - 1];
      assert e in run;
      BrokenRun(sys, s, before, b, n);
      NextInv(sys, After(sys, s, before), e);
      BrokenStep(sys, After(sys, s, before), e, n);
    }
  }

  /** Every record there is an honest reader's. */
  ghost predicate HonestMakers(sys: System, s: State) {
    forall n :: n in s.files && s.files[n].Record? ==> sys.Honest(s.files[n].maker)
  }

  lemma HonestMakersNext(sys: System, s: State, e: Event)
    requires |s.control| == |sys.readers| && HonestMakers(sys, s) && sys.Honest(e.reader)
    ensures HonestMakers(sys, Next(sys, s, e))
  {
  }

  /** Honest readers' steps make honest records only. */
  lemma {:induction false} HonestRun(sys: System, s: State, run: seq<Event>)
    requires |s.control| == |sys.readers| && HonestMakers(sys, s) && forall e :: e in run ==> sys.Honest(e.reader)
    ensures HonestMakers(sys, After(sys, s, run))
  {
    if run != [] {
      var e := run[|run| - 1];
      assert e in run;
      HonestRun(sys, s, run[..|run| - 1]);
      HonestMakersNext(sys, After(sys, s, run[..|run| - 1]), e);
    }
  }

  /** Of the first `n` readers those whose lane it is have finished; all others
      stand where they stood. */
  ghost predicate OwnersDone(sys: System, was: seq<Control>, now: seq<Control>, lane: Lane, n: nat) {
    && |was| == |now| == |sys.readers|
    && (forall i :: 0 <= i < n && i < |now| && sys.readers[i].own == lane ==> now[i].Finished?)
    && (forall i :: 0 <= i < |now| && (i >= n || sys.readers[i].own != lane) ==> now[i] == was[i])
  }

  lemma OwnersDoneNext(sys: System, was: seq<Control>, mid: seq<Control>, now: seq<Control>, lane: Lane, n: nat)
    requires OwnersDone(sys, was, mid, lane, n) && n < |sys.readers| == |now| && sys.readers[n].own == lane
    requires now[n].Finished? && forall i :: 0 <= i < |now| && i != n ==> now[i] == mid[i]
    ensures OwnersDone(sys, was, now, lane, n + 1)
  {
  }

  ghost predicate ByOwners(sys: System, run: seq<Event>, lane: Lane) {
    forall e :: e in run ==> e.reader < |sys.readers| && sys.readers[e.reader].own == lane
  }

  /** Finish, one after the other, every reader whose lane it is. */
  lemma {:induction false} FinishOwners(sys: System, s: State, lane: Lane, n: nat) returns (run: seq<Event>, s': State)
    requires JoinInv(sys, s) && |s.control| == |sys.readers| && n <= |sys.readers|
    ensures s' == After(sys, s, run) && JoinInv(sys, s') && OwnersDone(sys, s.control, s'.control, lane, n) && ByOwners(sys, run, lane)
  {
    if n == 0 {
      run, s' := [], s;
    } else {
      var first, mid := FinishOwners(sys, s, lane, n - 1);
      run, s' := first, mid;
      if sys.readers[n - 1].own == lane {
        var last;
        last, s' := FinishOne(sys, mid, n - 1);
        AfterTwo(sys, s, first, last);
        run := first + last;
        OwnersDoneNext(sys, s.control, mid.control, s'.control, lane, n - 1);
      }
    }
  }

  lemma FinishOne(sys: System, s: State, i: nat) returns (run: seq<Event>, s': State)
    requires JoinInv(sys, s) && i < |sys.readers| == |s.control|
    ensures s' == After(sys, s, run) && JoinInv(sys, s') && |s'.control| == |sys.readers| && s'.control[i].Finished?
    ensures (forall j :: 0 <= j < |s'.control| && j != i ==> s'.control[j] == s.control[j]) && AllBy(run, i)
  {
    run := Finish(sys, s, i);
    s' := After(sys, s, run);
  }
}
