/**
  What every step of the exclusive pickup keeps, and what follows in every
  reachable state: one honest holder per item, and no item gone unsigned.
 */
module PickupSafety {
  import opened Options
  import opened Pickup

  /** A reader that won `item`'s lock and stands at `c` has yet to consume it. */
  predicate Left(sys: System, c: Control, item: Item) {
    if !sys.ordered then c.Processing? && c.item == item
    else match c
      case Draining(_, _, lane, key, seqNo) => lane == item.lane && key == item.key && seqNo <= item.seqNo
      case Processing(_, now, _, _) => now.lane == item.lane && now.key == item.key && now.seqNo <= item.seqNo
      case _ => false
  }

  ghost predicate Listed(sys: System, lanes: seq<Lane>) {
    forall lane :: lane in lanes ==> lane in sys.lanes
  }

  ghost predicate Holds(s: State, lock: Name, i: nat) {
    lock in s.files && s.files[lock] == Lock(i)
  }

  /** Where reader `i` may stand, given the files. */
  ghost predicate Stands(sys: System, s: State, i: nat, c: Control)
    requires i < |sys.readers|
  {
    match c
    case Finished => true
    case Checking(_) => true
    case Passing(_) => true
    case Laning(_, lanes) => Listed(sys, lanes)
    case Picking(_, lanes, items) =>
      && Listed(sys, lanes)
      && (forall item :: item in items ==> sys.Has(item))
      && (sys.Honest(i) ==> !sys.ordered)
    case Keying(_, lanes, lane, key) =>
      Listed(sys, lanes) && sys.ordered && sys.Honest(i) && lane in sys.lanes && key <= KEYS
    case Draining(_, lanes, lane, key, seqNo) =>
      && Listed(sys, lanes) && sys.ordered && sys.Honest(i) && lane in sys.lanes
      && key < KEYS && seqNo <= PER_KEY && Holds(s, KeyLock(lane, key), i)
    case Processing(step, item, order, next) =>
      && sys.Has(item)
      && (next.Picking? || next.Draining?) && Stands(sys, s, i, next)
      && (sys.Honest(i) ==> Holds(s, sys.LockOf(item), i) && ItemFile(item) in s.files)
      && (next.Draining? <==> sys.ordered && sys.Honest(i))
      && (next.Draining? ==> next.lane == item.lane && next.key == item.key && next.seqNo == item.seqNo + 1)
      && (step.Write? ==> Done(item, sys.readers[i].holder) in s.files
                          && s.files[Done(item, sys.readers[i].holder)] == Record(i, None))
      && (step.Remove? ==> Done(item, sys.readers[i].holder) in s.files)
      && (step.Sign? || step.Write? ==> order < s.Clock(sys.readers[i].clock))
  }

  ghost predicate FileSound(sys: System, s: State, n: Name)
    requires n in s.files && |s.control| == |sys.readers|
  {
    match n
    case ItemFile(item) => sys.Has(item)
    case ItemLock(item) => s.files[n].Lock? && sys.Honest(s.files[n].maker) && !sys.ordered
    case KeyLock(lane, key) => s.files[n].Lock? && sys.Honest(s.files[n].maker) && sys.ordered
    case Done(item, holder) =>
      match s.files[n]
      case Record(maker, text) =>
        && sys.Has(item) && maker < |sys.readers| && sys.readers[maker].holder == holder
        && (sys.Honest(maker) ==> Holds(s, sys.LockOf(item), maker))
        && (text.None? ==> s.control[maker].Processing? && s.control[maker].item == item && s.control[maker].step.Write?)
        && (text.Some? ==> text.value.injected == sys.readers[maker].broken
                           && text.value.order < s.Clock(sys.readers[maker].clock))
      case _ => false
  }

  ghost predicate ItemSound(sys: System, s: State, item: Item)
    requires |s.control| == |sys.readers|
  {
    var lock := sys.LockOf(item);
    if lock !in s.files then ItemFile(item) in s.files else
    && s.files[lock].Lock? && sys.Honest(s.files[lock].maker)
    && (ItemFile(item) in s.files <==> Left(sys, s.control[s.files[lock].maker], item))
    && (ItemFile(item) !in s.files ==> Done(item, sys.readers[s.files[lock].maker].holder) in s.files)
  }

  ghost predicate Inv(sys: System, s: State) {
    && sys.Valid()
    && |s.control| == |sys.readers|
    && (forall i :: 0 <= i < |sys.readers| ==> Stands(sys, s, i, s.control[i]))
    && (forall n :: n in s.files ==> FileSound(sys, s, n))
    && (forall item :: sys.Has(item) ==> ItemSound(sys, s, item))
  }

  lemma InitInv(sys: System)
    requires sys.Valid()
    ensures Inv(sys, Init(sys))
  {
  }

  /** What a step of reader `i` may do to the files another reader relies on. */
  ghost predicate Extends(sys: System, s: State, s': State, i: nat) {
    && |s'.control| == |s.control|
    && (forall j :: 0 <= j < |s.control| && j != i ==> s'.control[j] == s.control[j])
    && (forall n :: n in s.files && !n.ItemFile? ==>
          n in s'.files && (s'.files[n] == s.files[n] || s.files[n] == Record(i, None)))
    && (forall n :: n in s.files && n !in s'.files ==> n.ItemFile? && Holds(s, sys.LockOf(n.item), i))
    && (forall clock :: s.Clock(clock) <= s'.Clock(clock))
  }

  ghost predicate Awake(sys: System, s: State, e: Event) {
    e.reader < |sys.readers| == |s.control| && Stands(sys, s, e.reader, s.control[e.reader])
  }

  lemma ProcessExtends(sys: System, s: State, i: nat)
    requires i < |sys.readers| == |s.control| && s.control[i].Processing? && Stands(sys, s, i, s.control[i])
    ensures Extends(sys, s, Process(sys, s, i), i)
  {
  }

  lemma NextExtends(sys: System, s: State, e: Event)
    requires Awake(sys, s, e)
    ensures Extends(sys, s, Next(sys, s, e), e.reader)
  {
    match s.control[e.reader] {
      case Processing(_, _, _, _) => ProcessExtends(sys, s, e.reader);
      case Picking(_, _, _) =>
      case Keying(_, _, _, _) =>
      case _ =>
    }
  }

  lemma StandsFrame(sys: System, s: State, s': State, i: nat, j: nat, c: Control)
    requires Extends(sys, s, s', i) && j < |sys.readers| && Stands(sys, s, j, c)
    requires j != i || !c.Processing?
    ensures Stands(sys, s', j, c)
  {
    if c.Processing? {
      StandsFrame(sys, s, s', i, j, c.next);
    }
  }

  lemma ProcessStands(sys: System, s: State, i: nat)
    requires i < |sys.readers| == |s.control| && s.control[i].Processing? && Stands(sys, s, i, s.control[i])
    ensures Stands(sys, Process(sys, s, i), i, Process(sys, s, i).control[i])
  {
    var s', c := Process(sys, s, i), s.control[i];
    ProcessExtends(sys, s, i);
    StandsFrame(sys, s, s', i, i, c.next);
  }

  lemma StandsOwn(sys: System, s: State, e: Event)
    requires Inv(sys, s) && e.reader < |sys.readers|
    ensures Stands(sys, Next(sys, s, e), e.reader, Next(sys, s, e).control[e.reader])
  {
    var i := e.reader;
    assert Stands(sys, s, i, s.control[i]);
    match s.control[i] {
      case Processing(_, _, _, _) => ProcessStands(sys, s, i);
      case Picking(_, _, items) =>
        if items != [] { assert ItemSound(sys, s, items[0]); }
      case Keying(_, _, _, _) =>
      case Draining(_, _, lane, key, seqNo) =>
        if seqNo < PER_KEY { assert ItemSound(sys, s, Item(lane, key, seqNo)); }
      case _ =>
    }
  }

  lemma FileProcess(sys: System, s: State, i: nat, n: Name)
    requires i < |sys.readers| == |s.control| && s.control[i].Processing? && Stands(sys, s, i, s.control[i])
    requires n in Process(sys, s, i).files && (n in s.files ==> FileSound(sys, s, n))
    ensures FileSound(sys, Process(sys, s, i), n)
  {
  }

  lemma FileNext(sys: System, s: State, e: Event, n: Name)
    requires Awake(sys, s, e) && n in Next(sys, s, e).files && (n in s.files ==> FileSound(sys, s, n))
    ensures FileSound(sys, Next(sys, s, e), n)
  {
    match s.control[e.reader] {
      case Processing(_, _, _, _) => FileProcess(sys, s, e.reader, n);
      case Picking(_, _, _) =>
      case Keying(_, _, _, _) =>
      case _ =>
    }
  }

  lemma ItemProcess(sys: System, s: State, i: nat, item: Item)
    requires i < |sys.readers| == |s.control| && s.control[i].Processing? && Stands(sys, s, i, s.control[i])
    requires sys.Has(item) && ItemSound(sys, s, item)
    ensures ItemSound(sys, Process(sys, s, i), item)
  {
  }

  lemma ItemNext(sys: System, s: State, e: Event, item: Item)
    requires Awake(sys, s, e) && sys.Has(item) && ItemSound(sys, s, item)
    ensures ItemSound(sys, Next(sys, s, e), item)
  {
    if s.control[e.reader].Processing? { ItemProcess(sys, s, e.reader, item); }
  }

  lemma NextInv(sys: System, s: State, e: Event)
    requires Inv(sys, s)
    ensures Inv(sys, Next(sys, s, e))
  {
    if e.reader < |sys.readers| {
      var s' := Next(sys, s, e);
      assert Awake(sys, s, e);
      NextExtends(sys, s, e);
      forall j | 0 <= j < |sys.readers| ensures Stands(sys, s', j, s'.control[j]) {
        if j == e.reader { StandsOwn(sys, s, e); } else { StandsFrame(sys, s, s', e.reader, j, s.control[j]); }
      }
      forall n | n in s'.files ensures FileSound(sys, s', n) { FileNext(sys, s, e, n); }
      forall item: Item | sys.Has(item) ensures ItemSound(sys, s', item) { ItemNext(sys, s, e, item); }
    }
  }

  /** Every state of every run. */
  lemma {:induction false} Reachable(sys: System, run: seq<Event>)
    requires sys.Valid()
    ensures Inv(sys, After(sys, Init(sys), run))
  {
    if run == [] {
      InitInv(sys);
    } else {
      Reachable(sys, run[..|run| - 1]);
      NextInv(sys, After(sys, Init(sys), run[..|run| - 1]), run[|run| - 1]);
    }
  }

  /** A reader stands between the create and the write of this record. */
  ghost predicate BeingWritten(s: State, item: Item, maker: nat) {
    maker < |s.control| && s.control[maker].Processing? && s.control[maker].step.Write? && s.control[maker].item == item
  }

  ghost predicate Signed(s: State, item: Item, holder: Holder) {
    Done(item, holder) in s.files && s.files[Done(item, holder)].Record?
  }

  /** Mutual exclusion: whoever else is broken, two honest readers never both
      sign one item. */
  lemma OneHonestHolder(sys: System, run: seq<Event>, item: Item, one: Holder, other: Holder)
    requires sys.Valid()
    requires var s := After(sys, Init(sys), run);
             && Signed(s, item, one) && sys.Honest(s.files[Done(item, one)].maker)
             && Signed(s, item, other) && sys.Honest(s.files[Done(item, other)].maker)
    ensures one == other
  {
    Reachable(sys, run);
    var s := After(sys, Init(sys), run);
    assert FileSound(sys, s, Done(item, one)) && FileSound(sys, s, Done(item, other));
  }

  /** No lost item: one gone from its lane has a done record under the name of
      the honest winner of its lock, and that record is the winner's own unless
      a broken reader signed under the same name before it. */
  lemma GoneIsSigned(sys: System, run: seq<Event>, item: Item)
    requires sys.Valid() && sys.Has(item)
    requires ItemFile(item) !in After(sys, Init(sys), run).files
    ensures var s := After(sys, Init(sys), run);
            exists winner: nat :: && sys.Honest(winner) && Holds(s, sys.LockOf(item), winner)
                             && Signed(s, item, sys.readers[winner].holder)
                             && var maker := s.files[Done(item, sys.readers[winner].holder)].maker;
                                (maker == winner || (maker < |sys.readers| && sys.readers[maker].broken
                                 && sys.readers[maker].holder == sys.readers[winner].holder))
  {
    Reachable(sys, run);
    var s := After(sys, Init(sys), run);
    assert ItemSound(sys, s, item);
    var winner := s.files[sys.LockOf(item)].maker;
    assert FileSound(sys, s, Done(item, sys.readers[winner].holder));
    assert Holds(s, sys.LockOf(item), winner);
  }

  /** Two holders of one item: one of the two records is injected and says so,
      or is a broken reader's caught between its create and its write. */
  lemma TwoHoldersAreInjected(sys: System, run: seq<Event>, item: Item, one: Holder, other: Holder)
    requires sys.Valid() && one != other
    requires var s := After(sys, Init(sys), run);
             Done(item, one) in s.files && Done(item, other) in s.files
    ensures var s := After(sys, Init(sys), run);
            exists h | h in {one, other} ::
              && Signed(s, item, h) && !sys.Honest(s.files[Done(item, h)].maker)
              && (View(item, h, s.files[Done(item, h)]).injected <==> s.files[Done(item, h)].text.Some?)
              && (s.files[Done(item, h)].text.None? ==> BeingWritten(s, item, s.files[Done(item, h)].maker))
  {
    Reachable(sys, run);
    var s := After(sys, Init(sys), run);
    assert FileSound(sys, s, Done(item, one)) && FileSound(sys, s, Done(item, other));
    if sys.Honest(s.files[Done(item, one)].maker) {
      assert Signed(s, item, other);
    } else {
      assert Signed(s, item, one);
    }
  }
}
