/**
  When a reader stops: with its own lane found empty, or after its last pass, of
  which an honest one has sixty-four and one whose claim was dropped has one.
 */
module PickupPasses {
  import opened Pickup
  import opened PickupSafety

  /** How many passes a reader makes at most. */
  function Allowed(sys: System, i: nat): nat
    requires i < |sys.readers|
  {
    if sys.readers[i].broken then 1 else 64
  }

  /** The passes a reader has begun, where it is not finished. */
  predicate Begun(c: Control, n: nat) {
    match c
    case Passing(pass) => pass == n
    case Laning(pass, _) => pass + 1 == n
    case Picking(pass, _, _) => pass + 1 == n
    case Keying(pass, _, _, _) => pass + 1 == n
    case Draining(pass, _, _, _, _) => pass + 1 == n
    case Processing(_, _, _, next) => Begun(next, n)
    case Checking(pass) => pass + 1 == n
    case Finished => false
  }

  /** Nothing is left in a lane. */
  ghost predicate Drained(sys: System, s: State, lane: Lane) {
    forall item :: sys.Has(item) && item.lane == lane ==> ItemFile(item) !in s.files
  }

  /** One step of a reader's own: it ends where its lane is empty or its passes are
      over, and begins one more only while it has one left. */
  lemma StepPasses(sys: System, s: State, e: Event, n: nat)
    requires Awake(sys, s, e) && Begun(s.control[e.reader], n)
    ensures var c := Next(sys, s, e).control[e.reader];
            if c.Finished? then Drained(sys, s, sys.readers[e.reader].own) || n >= Allowed(sys, e.reader)
            else Begun(c, n) || (Begun(c, n + 1) && n < Allowed(sys, e.reader))
  {
    match s.control[e.reader] {
      case Processing(step, _, _, _) =>
      case _ =>
    }
  }

  /** At this moment of the run the lane was empty, or the reader had begun all its
      passes. */
  ghost predicate Stopped(sys: System, run: seq<Event>, i: nat, n: nat)
    requires i < |sys.readers| && n <= |run|
  {
    var s := After(sys, Init(sys), run[..n]);
    Drained(sys, s, sys.readers[i].own) || Begun(s.control[i], Allowed(sys, i))
  }

  lemma OneStep(sys: System, s: State, e: Event, i: nat, m: nat) returns (n: nat)
    requires Inv(sys, s) && i < |sys.readers| && Begun(s.control[i], m) && m <= Allowed(sys, i)
    ensures var c := Next(sys, s, e).control[i];
            if c.Finished? then Drained(sys, s, sys.readers[i].own) || Begun(s.control[i], Allowed(sys, i))
            else Begun(c, n) && n <= Allowed(sys, i)
  {
    n := m;
    if e.reader == i {
      assert Awake(sys, s, e);
      StepPasses(sys, s, e, m);
      var c := Next(sys, s, e).control[i];
      if !c.Finished? && !Begun(c, m) { n := m + 1; }
    } else {
      OthersStay(sys, s, e, i);
    }
  }

  lemma OthersStay(sys: System, s: State, e: Event, i: nat)
    requires |s.control| == |sys.readers| && i < |sys.readers| && i != e.reader
    ensures Next(sys, s, e).control[i] == s.control[i]
  {
  }

  lemma FinishedStays(sys: System, s: State, e: Event, i: nat)
    requires |s.control| == |sys.readers| && i < |sys.readers| && s.control[i].Finished?
    ensures Next(sys, s, e).control[i].Finished?
  {
  }

  lemma {:induction false} Passes(sys: System, run: seq<Event>, i: nat) returns (n: nat)
    requires sys.Valid() && i < |sys.readers|
    ensures var c := After(sys, Init(sys), run).control[i];
            if c.Finished? then n <= |run| && Stopped(sys, run, i, n) else Begun(c, n) && n <= Allowed(sys, i)
  {
    if run == [] {
      n := 0;
    } else {
      var last := |run| - 1;
      var before, s := run[..last], After(sys, Init(sys), run[..last]);
      var m := Passes(sys, before, i);
      if s.control[i].Finished? {
        FinishedStays(sys, s, run[last], i);
        assert before[..m] == run[..m];
        n := m;
      } else {
        Reachable(sys, before);
        n := OneStep(sys, s, run[last], i, m);
        if Next(sys, s, run[last]).control[i].Finished? { n := last; }
      }
    }
  }

  /** A reader stops only with its own lane found empty or its passes used up, and
      never makes more than those. */
  lemma StopsForAReason(sys: System, run: seq<Event>, i: nat)
    requires sys.Valid() && i < |sys.readers|
    ensures var c := After(sys, Init(sys), run).control[i];
            if c.Finished? then exists n: nat :: n <= |run| && Stopped(sys, run, i, n)
            else exists n: nat :: n <= Allowed(sys, i) && Begun(c, n)
  {
    var n := Passes(sys, run, i);
  }

  /** A lane is staged with three items of each of two keys. */
  lemma LaneHoldsSix(sys: System, lane: Lane)
    requires lane in sys.lanes
    ensures forall item :: item in sys.Items() && item.lane == lane <==>
              item in {Item(lane, 0, 0), Item(lane, 0, 1), Item(lane, 0, 2), Item(lane, 1, 0), Item(lane, 1, 1), Item(lane, 1, 2)}
  {
  }
}
