/**
  Whose record a consumed item carries: exactly when it is always the honest
  winner's own.
 */
module WinnerSigns {
  import opened Options
  import opened Pickup
  import opened PickupSafety
  import opened PickupReach
  import opened PickupJoin
  import opened PickupRuns

  /** The record under the name of the item's winner is the winner's own. */
  ghost predicate SignedByWinner(sys: System, s: State, item: Item) {
    exists winner: nat :: && sys.Honest(winner) && Holds(s, sys.LockOf(item), winner)
                          && Signed(s, item, sys.readers[winner].holder)
                          && s.files[Done(item, sys.readers[winner].holder)].maker == winner
  }

  ghost predicate GoneBySignature(sys: System, run: seq<Event>, lane: Lane) {
    forall item :: sys.Has(item) && item.lane == lane && ItemFile(item) !in After(sys, Init(sys), run).files ==>
      SignedByWinner(sys, After(sys, Init(sys), run), item)
  }

  /** A broken reader and an honest one that both scan the lane sign alike. */
  predicate SignAlike(sys: System, lane: Lane, b: nat, h: nat) {
    && MayList(sys, b, lane) && MayList(sys, h, lane)
    && sys.readers[b].broken && !sys.readers[h].broken && sys.readers[b].holder == sys.readers[h].holder
  }

  /** Where no two such readers are, the winner has signed whatever is gone. */
  lemma WinnerSigned(sys: System, run: seq<Event>, item: Item)
    requires sys.Valid() && sys.Has(item) && ItemFile(item) !in After(sys, Init(sys), run).files
    requires forall b: nat, h: nat :: !SignAlike(sys, item.lane, b, h)
    ensures SignedByWinner(sys, After(sys, Init(sys), run), item)
  {
    var s := After(sys, Init(sys), run);
    Reachable(sys, run);
    ReachAlways(sys, run);
    assert ItemSound(sys, s, item);
    WinnerScans(sys, run, item);
    var winner := s.files[sys.LockOf(item)].maker;
    var n := Done(item, sys.readers[winner].holder);
    assert FileSound(sys, s, n) && MadeWithin(sys, n, s.files[n]);
    assert !SignAlike(sys, item.lane, s.files[n].maker, winner);
    assert Holds(s, sys.LockOf(item), winner);
  }

  /** The broken one signs the first item of the lane. */
  lemma BrokenSignsFirst(sys: System, lane: Lane, b: nat) returns (run: seq<Event>, s: State)
    requires sys.Valid() && lane in sys.lanes && MayList(sys, b, lane) && sys.readers[b].broken
    ensures s == After(sys, Init(sys), run) && |s.control| == |sys.readers|
    ensures forall i :: 0 <= i < |s.control| && i != b ==> s.control[i] == Passing(0)
    ensures exists order :: s.files == Init(sys).files[Done(First(lane), sys.readers[b].holder) :=
                                                       Record(b, Some(Signature(order, true)))]
  {
    var s0 := Init(sys);
    var r1, s1 := LedToTheFirst(sys, s0, b, lane);
    var r2, s2 := Reads(sys, s1, b);
    var r3, s3 := Draws(sys, s2, b);
    var r4, s4 := BrokenSigns(sys, s3, b);
    AfterTwo(sys, s0, r1, r2);
    AfterTwo(sys, s0, r1 + r2, r3);
    AfterTwo(sys, s0, r1 + r2 + r3, r4);
    run, s := r1 + r2 + r3 + r4, s4;
  }

  /** And runs to its end before the honest one starts: its record is on that item,
      and everything else is as staged. */
  lemma BrokenLeavesItsName(sys: System, lane: Lane, b: nat, h: nat) returns (run: seq<Event>, s: State)
    requires sys.Valid() && lane in sys.lanes && SignAlike(sys, lane, b, h)
    ensures s == After(sys, Init(sys), run) && s.control[b].Finished? && s.control[h] == Passing(0)
    ensures ItemFile(First(lane)) in s.files && sys.LockOf(First(lane)) !in s.files
    ensures var n := Done(First(lane), sys.readers[h].holder);
            n in s.files && s.files[n].Record? && s.files[n].maker == b && s.files[n].text.Some? && s.files[n].text.value.injected
  {
    var item, n := First(lane), Done(First(lane), sys.readers[h].holder);
    var signed, s4 := BrokenSignsFirst(sys, lane, b);
    JoinReachable(sys, signed);
    var rest := Finish(sys, s4, b);
    AfterTwo(sys, Init(sys), signed, rest);
    run, s := signed + rest, After(sys, s4, rest);
    BrokenRun(sys, s4, rest, b, n);
    BrokenRun(sys, s4, rest, b, ItemFile(item));
    BrokenRun(sys, s4, rest, b, sys.LockOf(item));
  }

  /** And the honest one then consumes the item without a record of its own. */
  lemma RecurringNameHidesTheWinner(sys: System, lane: Lane, b: nat, h: nat) returns (run: seq<Event>)
    requires sys.Valid() && lane in sys.lanes && SignAlike(sys, lane, b, h)
    ensures var s, item := After(sys, Init(sys), run), First(lane);
            && ItemFile(item) !in s.files && Holds(s, sys.LockOf(item), h)
            && Signed(s, item, sys.readers[h].holder)
            && s.files[Done(item, sys.readers[h].holder)].maker == b
            && View(item, sys.readers[h].holder, s.files[Done(item, sys.readers[h].holder)]).injected
  {
    var r0, s0 := BrokenLeavesItsName(sys, lane, b, h);
    var r1, s1 := LedToTheFirst(sys, s0, h, lane);
    var r2, s2 := Reads(sys, s1, h);
    var r3, s3 := Draws(sys, s2, h);
    var r4, s4 := HonestConsumes(sys, s3, h);
    AfterTwo(sys, s0, r1, r2);
    AfterTwo(sys, s0, r1 + r2, r3);
    AfterTwo(sys, s0, r1 + r2 + r3, r4);
    run := r0 + (r1 + r2 + r3 + r4);
    AfterTwo(sys, Init(sys), r0, r1 + r2 + r3 + r4);
  }

  /** Exactly when it holds: in every run whatever is gone from the lane carries
      its winner's own record, if and only if no broken reader that scans the lane
      has the name of an honest one that does. */
  lemma WinnerSignsExactly(sys: System, lane: Lane)
    requires sys.Valid() && lane in sys.lanes
    ensures (forall run :: GoneBySignature(sys, run, lane)) <==> forall b: nat, h: nat :: !SignAlike(sys, lane, b, h)
  {
    if forall b: nat, h: nat :: !SignAlike(sys, lane, b, h) {
      forall run ensures GoneBySignature(sys, run, lane) {
        forall item | sys.Has(item) && item.lane == lane && ItemFile(item) !in After(sys, Init(sys), run).files
          ensures SignedByWinner(sys, After(sys, Init(sys), run), item)
        {
          WinnerSigned(sys, run, item);
        }
      }
    } else {
      var b: nat, h: nat :| SignAlike(sys, lane, b, h);
      var run := RecurringNameHidesTheWinner(sys, lane, b, h);
      assert sys.Has(First(lane)) && !SignedByWinner(sys, After(sys, Init(sys), run), First(lane));
      assert !GoneBySignature(sys, run, lane);
    }
  }

  /** One process's readers of one round: they own one lane, and share, break and
      count alike, under names of their own. */
  ghost predicate Raced(sys: System) {
    forall i, j :: 0 <= i < j < |sys.readers| && sys.readers[i].own == sys.readers[j].own ==>
      && sys.readers[i].shared == sys.readers[j].shared && sys.readers[i].broken == sys.readers[j].broken
      && sys.readers[i].clock == sys.readers[j].clock && sys.readers[i].holder != sys.readers[j].holder
  }

  /** Names do recur among such readers: process 7's of a round that dropped the
      claim and of the next that did not, over the lane of process 8. */
  lemma NamesRecurOverRounds(ordered: bool)
    ensures var sys := System(ordered, {0, 1, 2}, [Reader("8-0", 0, true, 0, false),
                                                   Reader("7-0", 1, true, 1, true), Reader("7-0", 2, true, 2, false)]);
            sys.Valid() && Raced(sys) && !(forall run :: GoneBySignature(sys, run, 0))
  {
    var sys := System(ordered, {0, 1, 2}, [Reader("8-0", 0, true, 0, false),
                                           Reader("7-0", 1, true, 1, true), Reader("7-0", 2, true, 2, false)]);
    assert SignAlike(sys, 0, 1, 2);
    WinnerSignsExactly(sys, 0);
  }
}
