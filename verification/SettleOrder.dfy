/**
  A lane settled: the ledger taken and the lane listed one after the other, once
  the readers that own the lane are joined. Which order tells the truth, and when.
 */
module SettleOrder {
  import opened Pickup
  import opened PickupSafety
  import opened PickupReach
  import opened PickupJoin
  import opened PickupRuns
  import opened ExclusiveClaim

  /** The readers whose lane it is have been joined, as they are before it is
      settled; readers of other lanes may be anywhere. */
  ghost predicate OwnersJoined(sys: System, s: State, lane: Lane)
    requires |s.control| == |sys.readers|
  {
    forall i :: 0 <= i < |sys.readers| && sys.readers[i].own == lane ==> s.control[i].Finished?
  }

  /** The ledger `led` was taken after `before`, and the lane was empty when it was
      listed after `between` more. */
  ghost predicate LedgerFirst(sys: System, lane: Lane, before: seq<Event>, between: seq<Event>, led: seq<Processed>) {
    && OwnersJoined(sys, After(sys, Init(sys), before), lane)
    && IsLedger(After(sys, Init(sys), before).files, lane, led)
    && Drained(sys, After(sys, Init(sys), before + between), lane)
  }

  /** An honest reader of another lane that scans this one too. */
  predicate Outsider(sys: System, lane: Lane, f: nat) {
    sys.Honest(f) && sys.readers[f].shared && sys.readers[f].own != lane
  }

  predicate BrokenOwner(sys: System, lane: Lane, i: nat) {
    i < |sys.readers| && sys.readers[i].own == lane && sys.readers[i].broken
  }

  /** An item still in a lane whose owners are joined. */
  ghost predicate Stays(sys: System, s: State, item: Item) {
    Inv(sys, s) && InReach(sys, s) && OwnersJoined(sys, s, item.lane) && ItemFile(item) in s.files
  }

  /** Without outsiders nothing leaves such a lane. */
  lemma NothingLeaves(sys: System, s: State, e: Event, item: Item)
    requires Stays(sys, s, item) && sys.Has(item) && forall f: nat :: !Outsider(sys, item.lane, f)
    ensures Stays(sys, Next(sys, s, e), item)
  {
    NextInv(sys, s, e);
    ReachNext(sys, s, e);
    if e.reader < |sys.readers| {
      assert Awake(sys, s, e) && !Outsider(sys, item.lane, e.reader);
      NextExtends(sys, s, e);
      if Holds(s, sys.LockOf(item), e.reader) {
        assert FileSound(sys, s, sys.LockOf(item)) && MadeWithin(sys, sys.LockOf(item), s.files[sys.LockOf(item)]);
      }
    }
  }

  lemma {:induction false} StillThere(sys: System, s: State, run: seq<Event>, item: Item)
    requires Stays(sys, s, item) && |s.control| == |sys.readers| && sys.Has(item)
    requires forall f: nat :: !Outsider(sys, item.lane, f)
    ensures Stays(sys, After(sys, s, run), item)
  {
    if run != [] {
      StillThere(sys, s, run[..|run| - 1], item);
      NothingLeaves(sys, After(sys, s, run[..|run| - 1]), run[|run| - 1], item);
    }
  }

  lemma StillThereLater(sys: System, before: seq<Event>, between: seq<Event>, item: Item)
    requires sys.Valid() && sys.Has(item) && forall f: nat :: !Outsider(sys, item.lane, f)
    requires OwnersJoined(sys, After(sys, Init(sys), before), item.lane)
    requires ItemFile(item) in After(sys, Init(sys), before).files
    ensures ItemFile(item) in After(sys, Init(sys), before + between).files
  {
    Reachable(sys, before);
    ReachAlways(sys, before);
    StillThere(sys, After(sys, Init(sys), before), between, item);
    AfterTwo(sys, Init(sys), before, between);
  }

  /** So the ledger taken first is complete where there is no outsider, or where an
      owner is broken and has signed everything itself. */
  lemma LedgerFirstIsComplete(sys: System, lane: Lane, before: seq<Event>, between: seq<Event>, led: seq<Processed>)
    requires sys.Valid() && lane in sys.lanes && LedgerFirst(sys, lane, before, between, led)
    requires (forall f: nat :: !Outsider(sys, lane, f)) || exists i: nat :: BrokenOwner(sys, lane, i)
    ensures LaneSet(lane) <= ItemsOf(led)
  {
    LaneSetIs(sys, lane);
    forall item | item in LaneSet(lane) ensures item in ItemsOf(led) {
      var holder: Holder;
      if i: nat :| BrokenOwner(sys, lane, i) {
        holder := BrokenLeavesRecords(sys, before, i, item);
      } else {
        if ItemFile(item) in After(sys, Init(sys), before).files { StillThereLater(sys, before, between, item); }
        holder := GoneHasRecord(sys, before, item);
      }
      Counted(After(sys, Init(sys), before), led, item, holder);
    }
  }

  /** An outsider is led to the lane's first item and holds it, read and unsigned. */
  lemma OutsiderHolds(sys: System, lane: Lane, f: nat) returns (run: seq<Event>, s: State)
    requires sys.Valid() && lane in sys.lanes && Outsider(sys, lane, f)
    ensures s == After(sys, Init(sys), run) && AllBy(run, f) && |s.control| == |sys.readers|
    ensures s.control[f].Processing? && s.control[f].step.Tick? && s.control[f].item == First(lane)
  {
    var r1, s1 := LedToTheFirst(sys, Init(sys), f, lane);
    var r2, s2 := Reads(sys, s1, f);
    AfterTwo(sys, Init(sys), r1, r2);
    run, s := r1 + r2, s2;
  }

  /** What an honest reader holds read and unsigned has no honest record. */
  lemma HeldIsUnsigned(sys: System, s: State, f: nat, item: Item, holder: Holder)
    requires JoinInv(sys, s) && HonestMakers(sys, s) && sys.Honest(f)
    requires s.control[f].Processing? && s.control[f].step.Tick? && s.control[f].item == item
    ensures Done(item, holder) !in s.files
  {
    var n := Done(item, holder);
    assert Stands(sys, s, f, s.control[f]);
    if n in s.files {
      assert FileSound(sys, s, n) && Dated(sys, s, n);
    }
  }

  /** While it does, the owners come to their end and the ledger is taken. */
  lemma OwnersFinishMeanwhile(sys: System, lane: Lane, f: nat) returns (before: seq<Event>, s: State)
    requires sys.Valid() && lane in sys.lanes && Outsider(sys, lane, f) && forall i: nat :: !BrokenOwner(sys, lane, i)
    ensures s == After(sys, Init(sys), before) && JoinInv(sys, s) && HonestMakers(sys, s) && OwnersJoined(sys, s, lane)
    ensures forall holder :: Done(First(lane), holder) !in s.files
  {
    var r1, s1 := OutsiderHolds(sys, lane, f);
    JoinReachable(sys, r1);
    var r2, s2 := FinishOwners(sys, s1, lane, |sys.readers|);
    AfterTwo(sys, Init(sys), r1, r2);
    before, s := r1 + r2, s2;
    forall e | e in before ensures sys.Honest(e.reader) {
      if e in r2 { assert !BrokenOwner(sys, lane, e.reader); }
    }
    HonestRun(sys, Init(sys), before);
    assert s.control[f] == s1.control[f];
    forall holder ensures Done(First(lane), holder) !in s.files { HeldIsUnsigned(sys, s, f, First(lane), holder); }
  }

  /** Honest records are one holder's each, so a ledger without one of the lane's
      items is judged to have missed some. */
  lemma IncompleteIsMissed(sys: System, run: seq<Event>, lane: Lane, led: seq<Processed>, item: Item, v: Verdict)
    requires sys.Valid() && lane in sys.lanes && HonestMakers(sys, After(sys, Init(sys), run))
    requires IsLedger(After(sys, Init(sys), run).files, lane, led) && item in LaneSet(lane) && item !in ItemsOf(led)
    requires Judgement(sys.ordered, DROPPED, led, v)
    ensures v.Missed?
  {
    var s := After(sys, Init(sys), run);
    Reachable(sys, run);
    LaneSetIs(sys, lane);
    forall x ensures |HoldersOf(led, x)| <= 1 { OneHonestAtMost(sys, run, lane, led, x); }
    forall p | p in led ensures p.item in LaneSet(lane) - {item} {
      assert FileSound(sys, s, Done(p.item, p.holder));
      assert p.item in ItemsOf(led);
    }
    MoreIsLarger(ItemsOf(led), LaneSet(lane) - {item});
  }

  lemma OneHonestAtMost(sys: System, run: seq<Event>, lane: Lane, led: seq<Processed>, x: Item)
    requires sys.Valid() && HonestMakers(sys, After(sys, Init(sys), run))
    requires IsLedger(After(sys, Init(sys), run).files, lane, led)
    ensures |HoldersOf(led, x)| <= 1
  {
    var s := After(sys, Init(sys), run);
    Reachable(sys, run);
    if h :| h in HoldersOf(led, x) {
      forall g | g in HoldersOf(led, x) ensures g == h {
        var p :| p in led && p.item == x && p.holder == g;
        var q :| q in led && q.item == x && q.holder == h;
        assert FileSound(sys, s, Done(x, g)) && FileSound(sys, s, Done(x, h));
        OneHonestHolder(sys, run, x, g, h);
      }
      assert HoldersOf(led, x) == {h};
    } else {
      assert HoldersOf(led, x) == {};
    }
  }

  /** A ledger of a lane there always is. */
  lemma {:induction false} Listed(all: set<Processed>) returns (led: seq<Processed>)
    ensures forall p :: p in led <==> p in all
    ensures forall i, j :: 0 <= i < j < |led| ==> led[i] != led[j]
  {
    if all == {} {
      led := [];
    } else {
      var p :| p in all;
      var rest := Listed(all - {p});
      led := [p] + rest;
      assert forall i :: 0 <= i < |rest| ==> rest[i] in rest;
    }
  }

  lemma LedgerOf(files: Files, lane: Lane) returns (led: seq<Processed>)
    ensures IsLedger(files, lane, led)
  {
    var all := set n | n in files && n.Done? && n.item.lane == lane :: View(n.item, n.holder, files[n]);
    led := Listed(all);
    forall n | n in files && n.Done? && n.item.lane == lane ensures View(n.item, n.holder, files[n]) in led {
      assert View(n.item, n.holder, files[n]) in all;
    }
  }

  /** With an outsider and honest owners some run drains the lane, every item of it
      signed, and is judged to have missed one. */
  lemma LedgerFirstMisses(sys: System, i: nat, f: nat)
    returns (before: seq<Event>, between: seq<Event>, led: seq<Processed>)
    requires sys.Valid() && i < |sys.readers| && Outsider(sys, sys.readers[i].own, f)
    requires forall j: nat :: !BrokenOwner(sys, sys.readers[i].own, j)
    ensures LedgerFirst(sys, sys.readers[i].own, before, between, led)
    ensures !(LaneSet(sys.readers[i].own) <= ItemsOf(led))
    ensures forall v :: Judgement(sys.ordered, DROPPED, led, v) ==> v.Missed?
  {
    var lane := sys.readers[i].own;
    var s;
    before, s := OwnersFinishMeanwhile(sys, lane, f);
    led := LedgerOf(s.files, lane);
    between := FinishAll(sys, s, |sys.readers|);
    AfterTwo(sys, Init(sys), before, between);
    assert !BrokenOwner(sys, lane, i);
    forall item | sys.Has(item) && item.lane == lane ensures ItemFile(item) !in After(sys, Init(sys), before + between).files {
      JoinedLaneIsDrained(sys, before + between, i, item);
    }
    LaneSetIs(sys, lane);
    assert First(lane) in LaneSet(lane);
    assert First(lane) !in ItemsOf(led);
    forall v | Judgement(sys.ordered, DROPPED, led, v) ensures v.Missed? {
      IncompleteIsMissed(sys, before, lane, led, First(lane), v);
    }
  }

  ghost predicate NeverMissed(sys: System, lane: Lane) {
    forall before, between, led, v :: LedgerFirst(sys, lane, before, between, led) && Judgement(sys.ordered, DROPPED, led, v) ==>
      !v.Missed?
  }

  /** The order the lane is settled in tells the truth of a drained lane exactly
      when no honest reader of another lane shares it, or an owner dropped its
      claim and so signs everything. */
  lemma LedgerFirstExactly(sys: System, i: nat)
    requires sys.Valid() && i < |sys.readers|
    ensures var lane := sys.readers[i].own;
            NeverMissed(sys, lane) <==>
              (forall f: nat :: !Outsider(sys, lane, f)) || exists j: nat :: BrokenOwner(sys, lane, j)
  {
    var lane := sys.readers[i].own;
    LaneSetIs(sys, lane);
    if (forall f: nat :: !Outsider(sys, lane, f)) || exists j: nat :: BrokenOwner(sys, lane, j) {
      forall before, between, led, v | LedgerFirst(sys, lane, before, between, led) && Judgement(sys.ordered, DROPPED, led, v)
        ensures !v.Missed?
      {
        LedgerFirstIsComplete(sys, lane, before, between, led);
        MoreIsLarger(LaneSet(lane), ItemsOf(led));
      }
    } else {
      var f: nat :| Outsider(sys, lane, f);
      var before, between, led := LedgerFirstMisses(sys, i, f);
      var v := SomeJudgement(sys.ordered, led);
      assert Judgement(sys.ordered, DROPPED, led, v);
    }
  }

  /** Every ledger has a judgement. */
  ghost function SomeJudgement(ordered: bool, led: seq<Processed>): (v: Verdict)
    ensures Judgement(ordered, DROPPED, led, v)
  {
    if Breached(led) then
      var item :| |HoldersOf(led, item)| > 1;
      Contended(TwoHolders(item, HoldersOf(led, item), exists p :: p in led && p.injected))
    else if |ItemsOf(led)| < DROPPED then Missed(DROPPED - |ItemsOf(led)|)
    else if ordered && !InOrder(led) then Contended(Reordered)
    else Held(DROPPED)
  }
}
