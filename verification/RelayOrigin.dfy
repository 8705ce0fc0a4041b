/**
  Where what a relay holds comes from: over every run of the path each handoff in
  hand or waiting is one that arrived, unchanged but for who sent it on, and a stage
  delivers exactly what its own judgements held.
 */
module RelayOrigin {
  import opened Options
  import opened Bytes
  import opened Contracts
  import opened Handoffs
  import opened Stages
  import opened Rosters
  import opened Relays
  import opened RelayPath
  import opened RelayRounds

  /** What `h` carries arrived at node `name`, whole, and was written on. */
  ghost predicate Arrived(run: seq<Event>, name: Name, h: Handoff) {
    Arrive(name, h.transport, h.contract, h.round, Some(h.bytes), true) in run
  }

  function SentBy(h: Handoff, name: Name): Handoff {
    h.(from := name)
  }

  /** The event a process stage forwarded `h` at: the first it had in hand then, which
      had arrived by then where its sender says, held without a fault and written on
      under the stage's own name. */
  ghost predicate ForwardedAt(route: Route, run: seq<Event>, j: nat, h: Handoff) {
    && j < |run| && run[j] == Judge(Seat(h.from, Process), false, true, true)
    && var hand := R(After(route, run[..j]), Seat(h.from, Process)).hand;
       hand != [] && h == SentBy(hand[0], h.from) && Arrived(run[..j], hand[0].from, hand[0])
  }

  /** Where a handoff at a stage comes from: at Process from the node it arrived at, at
      Send from the node that forwarded it, which had it from there. */
  ghost predicate ComesFrom(route: Route, run: seq<Event>, stage: Stage, h: Handoff) {
    match stage
    case Receive => false
    case Process => Arrived(run, h.from, h)
    case Send => exists j: nat :: ForwardedAt(route, run, j, h)
  }

  /** It comes from there, and it is at the node its sender's route gives for it. */
  ghost predicate Belongs(route: Route, run: seq<Event>, seat: Seat, h: Handoff) {
    ComesFrom(route, run, seat.stage, h) && route.to(h.from, seat.stage, h) == Some(seat.name)
  }

  lemma ComesFromStays(route: Route, run: seq<Event>, e: Event, stage: Stage, h: Handoff)
    requires ComesFrom(route, run, stage, h)
    ensures ComesFrom(route, run + [e], stage, h)
  {
    if stage.Send? {
      var j: nat :| ForwardedAt(route, run, j, h);
      assert (run + [e])[..j] == run[..j];
      assert ForwardedAt(route, run + [e], j, h);
    }
  }

  /** A file of a clean handoff that its key's sender put there. */
  ghost predicate FileComesFrom(route: Route, run: seq<Event>, seat: Seat, key: Key, raw: seq<Byte>) {
    exists h :: CleanHandoff(h) && h.from == key.from && raw == route.encode(h) && Belongs(route, run, seat, h)
  }

  ghost predicate Sourced(route: Route, run: seq<Event>, net: Net, seat: Seat) {
    && (forall h :: h in R(net, seat).hand ==> CleanHandoff(h) && Belongs(route, run, seat, h))
    && forall key :: key in At(net.boxes, seat) ==> FileComesFrom(route, run, seat, key, At(net.boxes, seat)[key])
  }

  lemma SourcedStays(route: Route, run: seq<Event>, e: Event, net: Net, seat: Seat)
    requires Sourced(route, run, net, seat)
    ensures Sourced(route, run + [e], net, seat)
  {
    forall h | h in R(net, seat).hand ensures Belongs(route, run + [e], seat, h) {
      ComesFromStays(route, run, e, seat.stage, h);
    }
    forall key | key in At(net.boxes, seat)
      ensures FileComesFrom(route, run + [e], seat, key, At(net.boxes, seat)[key])
    {
      var h :| CleanHandoff(h) && h.from == key.from && At(net.boxes, seat)[key] == route.encode(h)
               && Belongs(route, run, seat, h);
      ComesFromStays(route, run, e, seat.stage, h);
    }
  }

  /** Handing on adds at most the one file, of what was handed on. */
  lemma HandOnSourced(route: Route, run: seq<Event>, net: Net, seat: Seat, r: Relay, h: Handoff, written: bool, s: Seat)
    requires Sourced(route, run, net, s) && CleanHandoff(h) && h.from == seat.name
    requires written && NextStage(seat.stage) == Some(s.stage) ==> ComesFrom(route, run, s.stage, h)
    ensures var box := At(HandOn(route, seat, r, net.boxes, h, written).1, s);
            forall key :: key in box ==> FileComesFrom(route, run, s, key, box[key])
  {
    var box := At(HandOn(route, seat, r, net.boxes, h, written).1, s);
    forall key | key in box ensures FileComesFrom(route, run, s, key, box[key]) {
      if key !in At(net.boxes, s) || box[key] != At(net.boxes, s)[key] {
        assert key.from == seat.name && box[key] == route.encode(h);
      }
    }
  }

  /** Settling leaves its seat's hand as it is and files at most what was forwarded. */
  lemma SettleSourced(route: Route, run: seq<Event>, net: Net, seat: Seat, r: Relay, one: Judged, written: bool, s: Seat)
    requires Sourced(route, run, net, s)
    requires forall h :: h in r.hand ==> h in R(net, seat).hand
    requires one.forward.Some? ==> CleanHandoff(one.forward.value) && one.forward.value.from == seat.name
    requires one.forward.Some? && written && NextStage(seat.stage) == Some(s.stage) ==>
               ComesFrom(route, run, s.stage, one.forward.value)
    ensures Sourced(route, run, Put(net, seat, Settle(route, seat, r, net.boxes, one, written)), s)
  {
    if one.forward.Some? {
      HandOnSourced(route, run, net, seat, r, one.forward.value, written, s);
    }
  }

  lemma TakeSourced(route: Route, run: seq<Event>, net: Net, seat: Seat, key: Key, s: Seat)
    requires Faithful(route) && Sourced(route, run, net, seat) && Sourced(route, run, net, s) && key in At(net.boxes, seat)
    ensures Sourced(route, run, Put(net, seat, Claim(route, seat, R(net, seat), net.boxes, key)), s)
  {
    var h :| CleanHandoff(h) && h.from == key.from && At(net.boxes, seat)[key] == route.encode(h)
             && Belongs(route, run, seat, h);
    var after := Claim(route, seat, R(net, seat), net.boxes, key);
    assert after.0.hand == R(net, seat).hand + [h];
    forall k | k in At(after.1, s) ensures FileComesFrom(route, run, s, k, At(after.1, s)[k]) {
      assert k in At(net.boxes, s) && At(after.1, s)[k] == At(net.boxes, s)[k];
    }
  }

  /** What a judgement forwards comes from this very event. */
  lemma ForwardedNow(route: Route, run: seq<Event>, seat: Seat, fault: bool, held: bool, written: bool)
    requires seat.stage.Process? && R(After(route, run), seat).hand != [] && !fault && held && written
    requires ComesFrom(route, run, Process, R(After(route, run), seat).hand[0])
    ensures ComesFrom(route, run + [Judge(seat, fault, held, written)], Send, SentBy(R(After(route, run), seat).hand[0], seat.name))
  {
    var all := run + [Judge(seat, fault, held, written)];
    assert all[..|run|] == run;
    assert ForwardedAt(route, all, |run|, SentBy(R(After(route, run), seat).hand[0], seat.name));
  }

  lemma StepSourced(route: Route, run: seq<Event>, e: Event, s: Seat)
    requires Faithful(route) && CleanEvent(e)
    requires forall seat :: Sourced(route, run, After(route, run), seat)
    ensures Sourced(route, run + [e], Step(route, After(route, run), e), s)
  {
    var net, all := After(route, run), run + [e];
    forall seat ensures Sourced(route, all, net, seat) { SourcedStays(route, run, e, net, seat); }
    if Step(route, net, e) != net {
      match e
      case Arrive(name, transport, contract, round, arrived, written) =>
        var seat := Seat(name, Receive);
        assert e in all;
        SettleSourced(route, all, net, seat, R(net, seat), Received(seat, transport, contract, round, arrived), written, s);
      case Take(seat, key) =>
        TakeSourced(route, all, net, seat, key, s);
      case Judge(seat, fault, held, written) =>
        var r := R(net, seat);
        assert Sourced(route, run, net, seat) && r.hand[0] in r.hand;
        if seat.stage.Process? && !fault && held && written { ForwardedNow(route, run, seat, fault, held, written); }
        SettleSourced(route, all, net, seat, r.(hand := r.hand[1..]), Worked(seat, r.hand[0], fault, held), written, s);
    }
  }

  lemma AfterOneMore(route: Route, run: seq<Event>, e: Event)
    ensures After(route, run + [e]) == Step(route, After(route, run), e)
  {
    assert (run + [e])[..|run|] == run;
  }

  lemma {:induction false} RunSourced(route: Route, run: seq<Event>)
    requires Faithful(route) && forall e :: e in run ==> CleanEvent(e)
    ensures forall seat :: Sourced(route, run, After(route, run), seat)
  {
    if run != [] {
      var n := |run| - 1;
      assert run == run[..n] + [run[n]];
      RunSourced(route, run[..n]);
      forall seat ensures Sourced(route, run, After(route, run), seat) {
        StepSourced(route, run[..n], run[n], seat);
        AfterOneMore(route, run[..n], run[n]);
      }
    }
  }

  /** Every handoff of every run arrived: whatever a node has in hand, and whatever a
      file in its inbox reads as, has the transport, the contract, the round and the
      bytes of one arrival of the run that was written on, says as its sender the
      node that sent it to this stage, and is at the node its hash falls to there. */
  lemma EveryHandoffArrived(roster: Roster, hash: (Stage, Bytes.Text, Contract) -> nat, run: seq<Event>, seat: Seat)
    requires forall stage: Stage, name :: name in roster.With(stage) ==> Clean(name)
    requires forall e :: e in run ==> CleanEvent(e)
    ensures var route := RouteOf(roster, hash);
            var net := After(route, run);
            && (forall h :: h in R(net, seat).hand ==> ComesFrom(route, run, seat.stage, h) && FallsTo(roster, hash, seat, h))
            && (forall key :: key in At(net.boxes, seat) ==>
                  var h := Decode(At(net.boxes, seat)[key]);
                  && h.Some? && h.value.from == key.from
                  && ComesFrom(route, run, seat.stage, h.value) && FallsTo(roster, hash, seat, h.value))
  {
    var route := RouteOf(roster, hash);
    var net := After(route, run);
    RouteIsFaithful(roster, hash);
    RunSourced(route, run);
    assert Sourced(route, run, net, seat);
    forall key | key in At(net.boxes, seat)
      ensures var h := Decode(At(net.boxes, seat)[key]);
              && h.Some? && h.value.from == key.from
              && ComesFrom(route, run, seat.stage, h.value) && FallsTo(roster, hash, seat, h.value)
    {
      var h :| CleanHandoff(h) && h.from == key.from && At(net.boxes, seat)[key] == route.encode(h)
               && Belongs(route, run, seat, h);
      RoundTrip(h);
    }
  }

  /** The hash of a handoff's pair at this stage falls to this node. */
  predicate FallsTo(roster: Roster, hash: (Stage, Bytes.Text, Contract) -> nat, seat: Seat, h: Handoff) {
    roster.Target(h.from, seat.stage, hash(seat.stage, h.transport, h.contract)) == Some(seat.name)
  }

  /** What one claim comes to, at any moment of any run: the file is gone from the
      inbox, its handoff is last in hand or it is counted unreadable, and nothing else
      moves. */
  lemma TakeComesTo(roster: Roster, hash: (Stage, Bytes.Text, Contract) -> nat, run: seq<Event>, seat: Seat, key: Key)
    requires MayRelay(roster, seat.name, seat.stage) && !seat.stage.Receive?
    requires key in At(After(RouteOf(roster, hash), run).boxes, seat)
    ensures var route := RouteOf(roster, hash);
            var net, net' := After(route, run), After(route, run + [Take(seat, key)]);
            var r, r', h := R(net, seat), R(net', seat), Decode(At(net.boxes, seat)[key]);
            && At(net'.boxes, seat) == At(net.boxes, seat) - {key}
            && r'.hand == r.hand + (if h.Some? then [h.value] else [])
            && r'.unreadable == r.unreadable + (if h.Some? then 0 else 1)
            && r'.verdicts == r.verdicts && r'.delivered == r.delivered && r'.hops == r.hops && r'.sequence == r.sequence
            && forall s :: s != seat ==> R(net', s) == R(net, s) && At(net'.boxes, s) == At(net.boxes, s)
  {
    AfterOneMore(RouteOf(roster, hash), run, Take(seat, key));
  }

  /** So every payload that reached a stage is one that some node received. */
  lemma NothingIsMadeUp(roster: Roster, hash: (Stage, Bytes.Text, Contract) -> nat, run: seq<Event>, seat: Seat, h: Handoff) returns (name: Name)
    requires forall stage: Stage, name :: name in roster.With(stage) ==> Clean(name)
    requires forall e :: e in run ==> CleanEvent(e)
    requires h in R(After(RouteOf(roster, hash), run), seat).hand
    ensures Arrived(run, name, h)
  {
    var route := RouteOf(roster, hash);
    EveryHandoffArrived(roster, hash, run, seat);
    if seat.stage.Process? {
      name := h.from;
    } else {
      var j: nat :| ForwardedAt(route, run, j, h);
      var first := R(After(route, run[..j]), Seat(h.from, Process)).hand[0];
      name := first.from;
      assert Arrive(name, h.transport, h.contract, h.round, Some(h.bytes), true) in run[..j];
    }
  }

  // What a stage delivers.

  /** A seat's judgement takes place: something arrived, or something is in hand. */
  ghost predicate TakesPlace(route: Route, net: Net, e: Event, seat: Seat) {
    && seat.name in route.roster.With(seat.stage)
    && match e
       case Arrive(name, _, _, _, _, _) => seat == Seat(name, Receive)
       case Take(_, _) => false
       case Judge(at, _, _, _) => at == seat && !seat.stage.Receive? && R(net, seat).hand != []
  }

  /** And comes out: it arrived whole, or no fault struck and its contract held or it
      went out, and where the stage hands on that was written. */
  ghost predicate ComesOut(e: Event, seat: Seat) {
    match e
    case Arrive(_, _, _, _, arrived, written) => arrived.Some? && written
    case Take(_, _) => false
    case Judge(_, fault, held, written) => !fault && held && (seat.stage.Send? || written)
  }

  ghost function Judgements(route: Route, run: seq<Event>, seat: Seat): nat {
    if run == [] then 0
    else
      var n := |run| - 1;
      Judgements(route, run[..n], seat) + if TakesPlace(route, After(route, run[..n]), run[n], seat) then 1 else 0
  }

  ghost function Outcomes(route: Route, run: seq<Event>, seat: Seat): nat {
    if run == [] then 0
    else
      var n := |run| - 1;
      Outcomes(route, run[..n], seat) +
        if TakesPlace(route, After(route, run[..n]), run[n], seat) && ComesOut(run[n], seat) then 1 else 0
  }

  lemma SettleCounts(route: Route, net: Net, seat: Seat, r: Relay, one: Judged, written: bool, out: bool)
    requires Serves(route) && Numbered(net) && seat.name in route.roster.With(seat.stage) && Proper(seat, one)
    requires r == R(net, seat).(hand := r.hand)
    requires out <==> one.delivered && (one.forward.Some? ==> written)
    ensures var after := Settle(route, seat, r, net.boxes, one, written).0;
            && after.verdicts == R(net, seat).verdicts + 1
            && after.delivered == R(net, seat).delivered + if out then 1 else 0
  {
    var hop := SettleHops(route, net, seat, r, one, written);
  }

  lemma StepCounts(route: Route, net: Net, e: Event, seat: Seat)
    requires Serves(route) && Numbered(net) && !route.roster.Refused()
    ensures var r, r' := R(net, seat), R(Step(route, net, e), seat);
            && r'.verdicts == r.verdicts + (if TakesPlace(route, net, e, seat) then 1 else 0)
            && r'.delivered == r.delivered + (if TakesPlace(route, net, e, seat) && ComesOut(e, seat) then 1 else 0)
  {
    if TakesPlace(route, net, e, seat) {
      match e
      case Arrive(name, transport, contract, round, arrived, written) =>
        SettleCounts(route, net, seat, R(net, seat), Received(seat, transport, contract, round, arrived), written, ComesOut(e, seat));
      case Judge(at, fault, held, written) =>
        var r := R(net, seat);
        SettleCounts(route, net, seat, r.(hand := r.hand[1..]), Worked(seat, r.hand[0], fault, held), written, ComesOut(e, seat));
    }
  }

  lemma {:induction false} RunCounts(route: Route, run: seq<Event>, seat: Seat)
    requires Sound(route) && !route.roster.Refused()
    ensures R(After(route, run), seat).verdicts == Judgements(route, run, seat)
    ensures R(After(route, run), seat).delivered == Outcomes(route, run, seat)
  {
    if run != [] {
      var n := |run| - 1;
      RunCounts(route, run[..n], seat);
      RunInv(route, run[..n]);
      StepCounts(route, After(route, run[..n]), run[n], seat);
    }
  }

  /** Over every run a stage has judged just what arrived at it or was in its hand,
      and delivered just those that came out: no fault struck, the contract held or
      the transport took it, and what was to be handed on was written. */
  lemma DeliveredIsWhatHeld(roster: Roster, hash: (Stage, Bytes.Text, Contract) -> nat, run: seq<Event>, seat: Seat)
    requires roster.Distinct() && !roster.Refused()
    ensures var route := RouteOf(roster, hash);
            && R(After(route, run), seat).verdicts == Judgements(route, run, seat)
            && R(After(route, run), seat).delivered == Outcomes(route, run, seat)
            && (!seat.stage.Send? ==> |R(After(route, run), seat).hops| == Outcomes(route, run, seat))
  {
    var route := RouteOf(roster, hash);
    RouteSound(roster, hash);
    RunCounts(route, run, seat);
    RunInv(route, run);
    assert HopsAreDeliveries(route, After(route, run), seat);
  }
}
