/**
  The pickup run to the join: every reader finished. Which items were reached,
  in which order they were signed, and that every run can be finished.
 */
module PickupJoin {
  import opened Pickup
  import opened PickupSafety
  import opened PickupReach

  /** Whether a reader at `c` has yet to try `item` in its first pass. */
  predicate Pending(c: Control, item: Item) {
    match c
    case Passing(pass) => pass == 0
    case Laning(pass, lanes) => pass == 0 && item.lane in lanes
    case Picking(pass, lanes, items) => pass == 0 && (item.lane in lanes || item in items)
    case Keying(pass, lanes, lane, key) =>
      pass == 0 && (item.lane in lanes || (lane == item.lane && key <= item.key))
    case Draining(pass, lanes, lane, key, _) =>
      pass == 0 && (item.lane in lanes || (lane == item.lane && key < item.key))
    case Processing(_, _, _, next) => Pending(next, item)
    case Checking(_) => false
    case Finished => false
  }

  /** An honest reader has tried every item of its own lane it is not still to
      try: someone holds its lock. */
  ghost predicate Tried(sys: System, s: State, i: nat, item: Item)
    requires i < |s.control| == |sys.readers|
  {
    sys.Honest(i) && sys.Has(item) && item.lane == sys.readers[i].own ==>
      Pending(s.control[i], item) || sys.LockOf(item) in s.files
  }

  lemma TriedOwn(sys: System, s: State, e: Event, item: Item)
    requires Awake(sys, s, e) && sys.Honest(e.reader) && sys.Has(item) && item.lane == sys.readers[e.reader].own
    requires ItemSound(sys, s, item) && Tried(sys, s, e.reader, item)
    ensures Tried(sys, Next(sys, s, e), e.reader, item)
  {
    match s.control[e.reader] {
      case Processing(step, _, _, _) =>
      case _ =>
    }
  }

  lemma TriedNext(sys: System, s: State, e: Event, i: nat, item: Item)
    requires Inv(sys, s) && i < |sys.readers| && Tried(sys, s, i, item)
    ensures Tried(sys, Next(sys, s, e), i, item)
  {
    if e.reader < |sys.readers| && sys.Honest(i) && sys.Has(item) && item.lane == sys.readers[i].own {
      assert Awake(sys, s, e);
      if e.reader == i {
        assert ItemSound(sys, s, item);
        TriedOwn(sys, s, e, item);
      } else {
        NextExtends(sys, s, e);
      }
    }
  }

  /** A broken reader has signed every item of its own lane it is not still to
      sign, but for those an honest one consumed. */
  ghost predicate Swept(sys: System, s: State, i: nat, item: Item)
    requires i < |s.control| == |sys.readers|
  {
    sys.readers[i].broken && sys.Has(item) && item.lane == sys.readers[i].own ==>
      || Pending(s.control[i], item)
      || (s.control[i].Processing? && s.control[i].item == item && !s.control[i].step.Write? && !s.control[i].step.Remove?)
      || Done(item, sys.readers[i].holder) in s.files
      || ItemFile(item) !in s.files
  }

  lemma SweptOwn(sys: System, s: State, e: Event, item: Item)
    requires Awake(sys, s, e) && sys.readers[e.reader].broken && sys.Has(item) && item.lane == sys.readers[e.reader].own
    requires ItemFile(item) in s.files && Swept(sys, s, e.reader, item)
    ensures Swept(sys, Next(sys, s, e), e.reader, item)
  {
    match s.control[e.reader] {
      case Processing(step, _, _, _) =>
      case _ =>
    }
  }

  lemma SweptNext(sys: System, s: State, e: Event, i: nat, item: Item)
    requires Inv(sys, s) && i < |sys.readers| && Swept(sys, s, i, item)
    ensures Swept(sys, Next(sys, s, e), i, item)
  {
    if e.reader < |sys.readers| && sys.readers[i].broken && sys.Has(item) && item.lane == sys.readers[i].own {
      assert Awake(sys, s, e);
      if ItemFile(item) !in s.files {
        NoItemReturns(sys, s, e, item);
      } else if e.reader == i {
        SweptOwn(sys, s, e, item);
      } else {
        NextExtends(sys, s, e);
      }
    }
  }

  /** An honest reader's record: on an item it is through with, and older than
      the order it is about to sign with. */
  ghost predicate Dated(sys: System, s: State, n: Name)
    requires n in s.files && |s.control| == |sys.readers|
  {
    n.Done? && s.files[n].Record? && sys.Honest(s.files[n].maker) ==>
      var c := s.control[s.files[n].maker];
      && (Left(sys, c, n.item) ==> c.Processing? && c.item == n.item && (c.step.Write? || c.step.Remove?))
      && (s.files[n].text.Some? && c.Processing? && (c.step.Sign? || c.step.Write?) ==>
            s.files[n].text.value.order < c.order)
  }

  lemma DatedProcess(sys: System, s: State, i: nat, n: Name)
    requires i < |sys.readers| == |s.control| && s.control[i].Processing? && Stands(sys, s, i, s.control[i])
    requires n in Process(sys, s, i).files && n.Done?
    requires n in s.files ==> FileSound(sys, s, n) && Dated(sys, s, n)
    ensures Dated(sys, Process(sys, s, i), n)
  {
    match s.control[i].step {
      case Read =>
      case Tick =>
      case Sign =>
      case Write =>
      case Remove =>
    }
  }

  lemma DatedNext(sys: System, s: State, e: Event, n: Name)
    requires Awake(sys, s, e) && n in Next(sys, s, e).files && n.Done?
    requires n in s.files ==> FileSound(sys, s, n) && Dated(sys, s, n)
    ensures Dated(sys, Next(sys, s, e), n)
  {
    match s.control[e.reader] {
      case Processing(_, _, _, _) => DatedProcess(sys, s, e.reader, n);
      case Picking(_, _, _) =>
      case Keying(_, _, _, _) =>
      case _ =>
    }
  }

  /** Sequential: one reader's records of one key carry orders that grow with
      the sequence. */
  ghost predicate Sequenced(sys: System, s: State, n: Name, m: Name)
    requires n in s.files && m in s.files
  {
    && sys.ordered && n.Done? && m.Done? && s.files[n].Record? && s.files[m].Record?
    && s.files[n].maker == s.files[m].maker && sys.Honest(s.files[n].maker)
    && s.files[n].text.Some? && s.files[m].text.Some?
    && n.item.lane == m.item.lane && n.item.key == m.item.key && n.item.seqNo < m.item.seqNo
    ==> s.files[n].text.value.order < s.files[m].text.value.order
  }

  lemma SequencedProcess(sys: System, s: State, i: nat, n: Name, m: Name)
    requires i < |sys.readers| == |s.control| && s.control[i].Processing? && Stands(sys, s, i, s.control[i])
    requires n in Process(sys, s, i).files && n.Done? && m in Process(sys, s, i).files && m.Done?
    requires n in s.files ==> FileSound(sys, s, n) && Dated(sys, s, n)
    requires m in s.files ==> FileSound(sys, s, m) && Dated(sys, s, m)
    requires n in s.files && m in s.files ==> Sequenced(sys, s, n, m)
    ensures Sequenced(sys, Process(sys, s, i), n, m)
  {
  }

  lemma SequencedNext(sys: System, s: State, e: Event, n: Name, m: Name)
    requires Awake(sys, s, e)
    requires n in Next(sys, s, e).files && n.Done? && m in Next(sys, s, e).files && m.Done?
    requires n in s.files ==> FileSound(sys, s, n) && Dated(sys, s, n)
    requires m in s.files ==> FileSound(sys, s, m) && Dated(sys, s, m)
    requires n in s.files && m in s.files ==> Sequenced(sys, s, n, m)
    ensures Sequenced(sys, Next(sys, s, e), n, m)
  {
    match s.control[e.reader] {
      case Processing(_, _, _, _) => SequencedProcess(sys, s, e.reader, n, m);
      case Picking(_, _, _) =>
      case Keying(_, _, _, _) =>
      case _ =>
    }
  }

  /** Which pass a reader is in. */
  function Pass(c: Control): nat {
    match c
    case Finished => SCANS
    case Processing(_, _, _, next) => Pass(next)
    case _ => c.pass
  }

  predicate InBounds(c: Control) {
    Pass(c) < SCANS || (Pass(c) == SCANS && (c.Passing? || c.Finished?))
  }

  lemma BoundsNext(sys: System, s: State, e: Event)
    requires Awake(sys, s, e) && InBounds(s.control[e.reader])
    ensures InBounds(Next(sys, s, e).control[e.reader])
  {
    match s.control[e.reader] {
      case Processing(_, _, _, next) =>
        var c' := Process(sys, s, e.reader).control[e.reader];
        assert c' == next || (c'.Processing? && c'.next == next);
      case _ =>
    }
  }

  ghost predicate JoinInv(sys: System, s: State) {
    && Inv(sys, s)
    && (forall i :: 0 <= i < |sys.readers| ==> InBounds(s.control[i]))
    && (forall i, item :: 0 <= i < |sys.readers| ==> Tried(sys, s, i, item))
    && (forall i, item :: 0 <= i < |sys.readers| ==> Swept(sys, s, i, item))
    && (forall n :: n in s.files && n.Done? ==> Dated(sys, s, n))
    && (forall n, m :: n in s.files && n.Done? && m in s.files && m.Done? ==> Sequenced(sys, s, n, m))
  }

  lemma JoinNext(sys: System, s: State, e: Event)
    requires JoinInv(sys, s)
    ensures JoinInv(sys, Next(sys, s, e))
  {
    var s' := Next(sys, s, e);
    NextInv(sys, s, e);
    if e.reader < |sys.readers| {
      assert Awake(sys, s, e);
      BoundsNext(sys, s, e);
      NextExtends(sys, s, e);
      forall i, item | 0 <= i < |sys.readers| ensures Tried(sys, s', i, item) { TriedNext(sys, s, e, i, item); }
      forall i, item | 0 <= i < |sys.readers| ensures Swept(sys, s', i, item) { SweptNext(sys, s, e, i, item); }
      forall n | n in s'.files && n.Done? ensures Dated(sys, s', n) { DatedNext(sys, s, e, n); }
      forall n, m | n in s'.files && n.Done? && m in s'.files && m.Done? ensures Sequenced(sys, s', n, m) {
        SequencedNext(sys, s, e, n, m);
      }
    }
  }

  lemma {:induction false} JoinReachable(sys: System, run: seq<Event>)
    requires sys.Valid()
    ensures JoinInv(sys, After(sys, Init(sys), run))
  {
    if run == [] {
      InitInv(sys);
    } else {
      JoinReachable(sys, run[..|run| - 1]);
      JoinNext(sys, After(sys, Init(sys), run[..|run| - 1]), run[|run| - 1]);
    }
  }

  ghost predicate Joined(s: State) {
    forall i :: 0 <= i < |s.control| ==> s.control[i].Finished?
  }

  /** The winner of an item's lock scans its lane. */
  lemma WinnerScans(sys: System, run: seq<Event>, item: Item)
    requires sys.Valid() && sys.Has(item) && sys.LockOf(item) in After(sys, Init(sys), run).files
    ensures var s := After(sys, Init(sys), run);
            var lock := s.files[sys.LockOf(item)];
            lock.Lock? && sys.Honest(lock.maker) && MayList(sys, lock.maker, item.lane) && ItemSound(sys, s, item)
  {
    Reachable(sys, run);
    ReachAlways(sys, run);
    var s := After(sys, Init(sys), run);
    assert ItemSound(sys, s, item) && MadeWithin(sys, sys.LockOf(item), s.files[sys.LockOf(item)]);
  }

  /** Once the readers that scan it are joined, the lane of an honest reader is
      empty, and every item in it carries the record of the winner of its lock. */
  lemma JoinedLaneIsDrained(sys: System, run: seq<Event>, i: nat, item: Item)
    requires sys.Valid() && JoinedOver(sys, After(sys, Init(sys), run), item.lane)
    requires sys.Honest(i) && sys.Has(item) && item.lane == sys.readers[i].own
    ensures var s := After(sys, Init(sys), run);
            && ItemFile(item) !in s.files
            && exists winner: nat :: sys.Honest(winner) && Holds(s, sys.LockOf(item), winner)
                                     && Signed(s, item, sys.readers[winner].holder)
  {
    JoinReachable(sys, run);
    var s := After(sys, Init(sys), run);
    assert Tried(sys, s, i, item) && MayList(sys, i, item.lane);
    WinnerScans(sys, run, item);
    var winner := s.files[sys.LockOf(item)].maker;
    assert FileSound(sys, s, Done(item, sys.readers[winner].holder));
    assert Holds(s, sys.LockOf(item), winner);
  }

  /** Where every reader that scans a lane dropped its claim, at their join each
      whose lane it is has signed every item, injected, and none has left. */
  lemma JoinedBreachIsTotal(sys: System, run: seq<Event>, i: nat, item: Item)
    requires sys.Valid() && JoinedOver(sys, After(sys, Init(sys), run), item.lane) && BrokenOver(sys, item.lane)
    requires i < |sys.readers| && sys.Has(item) && item.lane == sys.readers[i].own
    ensures var s := After(sys, Init(sys), run);
            && ItemFile(item) in s.files && Done(item, sys.readers[i].holder) in s.files
            && View(item, sys.readers[i].holder, s.files[Done(item, sys.readers[i].holder)]).injected
  {
    JoinReachable(sys, run);
    ReachAlways(sys, run);
    var s := After(sys, Init(sys), run);
    assert MayList(sys, i, item.lane);
    assert Swept(sys, s, i, item) && ItemSound(sys, s, item);
    if sys.LockOf(item) in s.files {
      WinnerScans(sys, run, item);
    }
    SweptIsSigned(sys, s, i, item);
  }

  lemma SweptIsSigned(sys: System, s: State, i: nat, item: Item)
    requires |s.control| == |sys.readers| && i < |sys.readers| && JoinedOver(sys, s, item.lane) && BrokenOver(sys, item.lane)
    requires Done(item, sys.readers[i].holder) in s.files && FileSound(sys, s, Done(item, sys.readers[i].holder))
    requires MadeWithin(sys, Done(item, sys.readers[i].holder), s.files[Done(item, sys.readers[i].holder)])
    ensures View(item, sys.readers[i].holder, s.files[Done(item, sys.readers[i].holder)]).injected
  {
  }

  /** A broken reader that has finished leaves every item of its lane recorded:
      by itself, or by the winner that consumed it. */
  lemma BrokenLeavesRecords(sys: System, run: seq<Event>, i: nat, item: Item) returns (holder: Holder)
    requires sys.Valid() && i < |sys.readers| && sys.readers[i].broken && After(sys, Init(sys), run).control[i].Finished?
    requires sys.Has(item) && item.lane == sys.readers[i].own
    ensures Done(item, holder) in After(sys, Init(sys), run).files
  {
    JoinReachable(sys, run);
    var s := After(sys, Init(sys), run);
    assert Swept(sys, s, i, item) && ItemSound(sys, s, item);
    holder := if Done(item, sys.readers[i].holder) in s.files then sys.readers[i].holder
              else sys.readers[s.files[sys.LockOf(item)].maker].holder;
  }

  function Phase(c: Control): nat {
    match c
    case Passing(_) => 3
    case Checking(_) => 1
    case Finished => 0
    case _ => 2
  }

  function LanesLeft(c: Control): nat {
    match c
    case Passing(_) => 0
    case Checking(_) => 0
    case Finished => 0
    case Processing(_, _, _, next) => LanesLeft(next)
    case _ => |c.lanes|
  }

  function Work(c: Control): nat {
    match c
    case Picking(_, _, items) => 1 + |items|
    case Keying(_, _, _, key) => if key <= KEYS then 1 + KEYS - key else 0
    case Draining(_, _, _, key, _) => if key <= KEYS then KEYS - key else 0
    case Processing(_, _, _, next) => Work(next)
    case _ => 0
  }

  function SeqsLeft(c: Control): nat {
    match c
    case Draining(_, _, _, _, seqNo) => if seqNo <= PER_KEY then 1 + PER_KEY - seqNo else 0
    case Processing(_, _, _, next) => SeqsLeft(next)
    case _ => 0
  }

  function StepsLeft(c: Control): nat {
    match c
    case Processing(step, _, _, _) =>
      (match step case Read => 5 case Tick => 4 case Sign => 3 case Write => 2 case Remove => 1)
    case _ => 0
  }

  /** Every item a lane was staged with, as one listing of it. */
  function LaneItems(lane: Lane): seq<Item> {
    seq(KEYS * PER_KEY, i requires 0 <= i < KEYS * PER_KEY => Item(lane, i / PER_KEY, i % PER_KEY))
  }

  lemma LaneItemsAll(sys: System, files: Files, lane: Lane)
    requires lane in sys.lanes
    ensures ListsItems(sys, files, lane, LaneItems(lane))
  {
    forall item | sys.Has(item) && item.lane == lane ensures item in LaneItems(lane) {
      assert LaneItems(lane)[item.key * PER_KEY + item.seqNo] == item;
    }
  }

  /** The step a reader takes next when it sees a whole listing. */
  ghost function Onward(sys: System, s: State, i: nat): Event
    requires i < |sys.readers| == |s.control|
  {
    var own, c := sys.readers[i].own, s.control[i];
    Event(i, [own], LaneItems(if c.Laning? && c.lanes != [] then c.lanes[0] else own))
  }

  /** `c'` is nearer the end than `c`. */
  ghost predicate Nearer(c: Control, c': Control) {
    (SCANS - Pass(c), Phase(c), LanesLeft(c), Work(c), SeqsLeft(c), StepsLeft(c)
     decreases to SCANS - Pass(c'), Phase(c'), LanesLeft(c'), Work(c'), SeqsLeft(c'), StepsLeft(c'))
  }

  lemma ProcessDescends(sys: System, s: State, i: nat)
    requires i < |sys.readers| == |s.control| && s.control[i].Processing? && Stands(sys, s, i, s.control[i])
    requires InBounds(s.control[i])
    ensures Nearer(s.control[i], Process(sys, s, i).control[i])
  {
    var c, c' := s.control[i], Process(sys, s, i).control[i];
    assert c' == c.next || (c'.Processing? && c'.next == c.next && StepsLeft(c') < StepsLeft(c));
  }

  lemma ListingDescends(sys: System, s: State, i: nat)
    requires sys.Valid() && i < |sys.readers| == |s.control| && Stands(sys, s, i, s.control[i])
    requires InBounds(s.control[i]) && (s.control[i].Laning? || s.control[i].Checking? || s.control[i].Passing?)
    ensures Nearer(s.control[i], Next(sys, s, Onward(sys, s, i)).control[i])
  {
    var c := s.control[i];
    if c.Laning? && c.lanes != [] {
      LaneItemsAll(sys, s.files, c.lanes[0]);
    } else {
      LaneItemsAll(sys, s.files, sys.readers[i].own);
    }
  }

  lemma OnwardDescends(sys: System, s: State, i: nat)
    requires sys.Valid() && i < |sys.readers| == |s.control| && Stands(sys, s, i, s.control[i])
    requires InBounds(s.control[i]) && !s.control[i].Finished?
    ensures Nearer(s.control[i], Next(sys, s, Onward(sys, s, i)).control[i])
  {
    match s.control[i] {
      case Processing(_, _, _, _) => ProcessDescends(sys, s, i);
      case Picking(_, _, _) =>
      case Keying(_, _, _, _) =>
      case Draining(_, _, _, _, _) =>
      case _ => ListingDescends(sys, s, i);
    }
  }

  lemma {:induction false} AfterTwo(sys: System, s: State, a: seq<Event>, b: seq<Event>)
    requires |s.control| == |sys.readers|
    ensures After(sys, s, a + b) == After(sys, After(sys, s, a), b)
  {
    if b == [] {
      assert a + b == a;
    } else {
      AfterTwo(sys, s, a, b[..|b| - 1]);
      assert (a + b)[..|a + b| - 1] == a + b[..|b| - 1];
    }
  }

  /** Reader `i` run alone reaches its end, whatever the others left. */
  lemma {:induction false} Finish(sys: System, s: State, i: nat) returns (run: seq<Event>)
    requires JoinInv(sys, s) && i < |sys.readers|
    ensures JoinInv(sys, After(sys, s, run)) && After(sys, s, run).control[i].Finished?
    ensures forall j :: 0 <= j < |sys.readers| && j != i ==> After(sys, s, run).control[j] == s.control[j]
    ensures forall e :: e in run ==> e.reader == i
    decreases SCANS - Pass(s.control[i]), Phase(s.control[i]), LanesLeft(s.control[i]),
              Work(s.control[i]), SeqsLeft(s.control[i]), StepsLeft(s.control[i])
  {
    if s.control[i].Finished? {
      run := [];
    } else {
      var e := Onward(sys, s, i);
      var s' := Next(sys, s, e);
      assert Awake(sys, s, e);
      JoinNext(sys, s, e);
      NextExtends(sys, s, e);
      OnwardDescends(sys, s, i);
      var rest := Finish(sys, s', i);
      run := [e] + rest;
      AfterTwo(sys, s, [e], rest);
      assert After(sys, s, [e][..0]) == s;
      assert After(sys, s, [e]) == s';
    }
  }
}
