/**
  Which readers can come to a lane at all: a private reader lists its own lane
  only, so nobody else's locks and records are in it.
 */
module PickupReach {
  import opened Pickup

  /** Reader `i` scans `lane`: its own, or any when it shares. */
  predicate MayList(sys: System, i: nat, lane: Lane) {
    i < |sys.readers| && (sys.readers[i].shared || sys.readers[i].own == lane)
  }

  ghost predicate AllWithin(sys: System, i: nat, lanes: seq<Lane>) {
    forall lane :: lane in lanes ==> MayList(sys, i, lane)
  }

  /** Everything reader `i` has before it at `c` is in lanes it scans. */
  ghost predicate Within(sys: System, i: nat, c: Control) {
    match c
    case Laning(_, lanes) => AllWithin(sys, i, lanes)
    case Picking(_, lanes, items) => AllWithin(sys, i, lanes) && forall item :: item in items ==> MayList(sys, i, item.lane)
    case Keying(_, lanes, lane, _) => AllWithin(sys, i, lanes) && MayList(sys, i, lane)
    case Draining(_, lanes, lane, _, _) => AllWithin(sys, i, lanes) && MayList(sys, i, lane)
    case Processing(_, item, _, next) => MayList(sys, i, item.lane) && Within(sys, i, next)
    case _ => true
  }

  /** Whoever made a lock or a record scans the lane it is in. */
  ghost predicate MadeWithin(sys: System, n: Name, content: Content) {
    match n
    case ItemFile(_) => true
    case ItemLock(item) => content.Lock? ==> MayList(sys, content.maker, item.lane)
    case KeyLock(lane, _) => content.Lock? ==> MayList(sys, content.maker, lane)
    case Done(item, _) => content.Record? ==> MayList(sys, content.maker, item.lane)
  }

  ghost predicate InReach(sys: System, s: State) {
    && |s.control| == |sys.readers|
    && (forall i :: 0 <= i < |sys.readers| ==> Within(sys, i, s.control[i]))
    && (forall n :: n in s.files ==> MadeWithin(sys, n, s.files[n]))
  }

  lemma WithinNext(sys: System, s: State, e: Event)
    requires e.reader < |sys.readers| == |s.control| && Within(sys, e.reader, s.control[e.reader])
    ensures Within(sys, e.reader, Next(sys, s, e).control[e.reader])
  {
    match s.control[e.reader] {
      case Processing(_, _, _, _) =>
      case Picking(_, _, items) =>
        if items != [] { assert items[0] in items; }
      case Laning(_, lanes) =>
        if lanes != [] { assert lanes[0] in lanes; }
      case _ =>
    }
  }

  lemma MadeWithinNext(sys: System, s: State, e: Event, n: Name)
    requires e.reader < |sys.readers| == |s.control| && Within(sys, e.reader, s.control[e.reader])
    requires n in Next(sys, s, e).files && (n in s.files ==> MadeWithin(sys, n, s.files[n]))
    ensures MadeWithin(sys, n, Next(sys, s, e).files[n])
  {
    match s.control[e.reader] {
      case Processing(_, _, _, _) =>
      case Picking(_, _, items) =>
        if items != [] { assert items[0] in items; }
      case _ =>
    }
  }

  lemma ReachNext(sys: System, s: State, e: Event)
    requires InReach(sys, s)
    ensures InReach(sys, Next(sys, s, e))
  {
    if e.reader < |sys.readers| {
      var s' := Next(sys, s, e);
      OthersStay(sys, s, e);
      forall i | 0 <= i < |sys.readers| ensures Within(sys, i, s'.control[i]) {
        if i == e.reader { WithinNext(sys, s, e); }
      }
      forall n | n in s'.files ensures MadeWithin(sys, n, s'.files[n]) { MadeWithinNext(sys, s, e, n); }
    }
  }

  lemma OthersStay(sys: System, s: State, e: Event)
    requires |s.control| == |sys.readers|
    ensures var s' := Next(sys, s, e);
            |s'.control| == |s.control| && forall i :: 0 <= i < |s.control| && i != e.reader ==> s'.control[i] == s.control[i]
  {
  }

  /** In every state of every run nobody is in a lane it does not scan. */
  lemma {:induction false} ReachAlways(sys: System, run: seq<Event>)
    ensures InReach(sys, After(sys, Init(sys), run))
  {
    if run != [] {
      ReachAlways(sys, run[..|run| - 1]);
      ReachNext(sys, After(sys, Init(sys), run[..|run| - 1]), run[|run| - 1]);
    }
  }

  /** What is gone from a lane does not come back. */
  lemma NoItemReturns(sys: System, s: State, e: Event, item: Item)
    requires |s.control| == |sys.readers| && ItemFile(item) !in s.files
    ensures ItemFile(item) !in Next(sys, s, e).files
  {
  }

  /** Every reader that scans the lane has finished, is honest, or is broken. */
  ghost predicate JoinedOver(sys: System, s: State, lane: Lane)
    requires |s.control| == |sys.readers|
  {
    forall i: nat :: MayList(sys, i, lane) ==> s.control[i].Finished?
  }

  ghost predicate HonestOver(sys: System, lane: Lane) {
    forall i: nat :: MayList(sys, i, lane) ==> sys.Honest(i)
  }

  ghost predicate BrokenOver(sys: System, lane: Lane) {
    forall i: nat :: MayList(sys, i, lane) ==> sys.readers[i].broken
  }
}
