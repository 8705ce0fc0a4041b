/**
  A relay's round as steps of the whole cluster: what `Running` does in a tick is
  a run of the events over which the path is conserved. And where no name holds a
  space or a line end, no handoff is ever unreadable.
 */
module RelayRounds {
  import opened Options
  import opened Bytes
  import opened Contracts
  import opened Handoffs
  import opened FileNames
  import opened Stages
  import opened Rosters
  import opened Relays
  import opened RelayPath

  /** `seat` came to `after` and no other relay changed. */
  ghost predicate Becomes(net: Net, net': Net, seat: Seat, after: (Relay, Boxes)) {
    R(net', seat) == after.0 && net'.boxes == after.1 && forall s :: s != seat ==> R(net', s) == R(net, s)
  }

  function Takes(seat: Seat, keys: seq<Key>): seq<Event> {
    seq(|keys|, i requires 0 <= i < |keys| => Take(seat, keys[i]))
  }

  /** Draining an inbox is a run of takes, whoever else claimed first. */
  lemma {:induction false} DrainIsARun(route: Route, net: Net, seat: Seat, keys: seq<Key>)
    requires MayRelay(route.roster, seat.name, seat.stage) && !seat.stage.Receive?
    ensures Becomes(net, Then(route, net, Takes(seat, keys)), seat,
                    ClaimAll(route, seat, R(net, seat), net.boxes, keys))
  {
    if keys != [] {
      var n := |keys| - 1;
      assert Takes(seat, keys)[..n] == Takes(seat, keys[..n]);
      DrainIsARun(route, net, seat, keys[..n]);
    }
  }

  function Judges(seat: Seat, says: seq<Say>): seq<Event> {
    seq(|says|, i requires 0 <= i < |says| => Judge(seat, says[i].fault, says[i].held, says[i].written))
  }

  /** A settlement does not look into the hand. */
  lemma SettleKeepsHand(route: Route, seat: Seat, r: Relay, boxes: Boxes, one: Judged, written: bool, hand: seq<Handoff>)
    ensures var after := Settle(route, seat, r, boxes, one, written);
            Settle(route, seat, r.(hand := hand), boxes, one, written) == (after.0.(hand := hand), after.1)
  {
  }

  /** One more of the hand judged. */
  lemma JudgeStep(route: Route, net: Net, seat: Seat, mid: (Relay, Boxes), hand: seq<Handoff>, say: Say)
    requires MayRelay(route.roster, seat.name, seat.stage) && !seat.stage.Receive? && hand != []
    requires R(net, seat) == mid.0.(hand := hand) && net.boxes == mid.1
    ensures var after := Settle(route, seat, mid.0, mid.1, Worked(seat, hand[0], say.fault, say.held), say.written);
            Becomes(net, Step(route, net, Judge(seat, say.fault, say.held, say.written)), seat,
                    (after.0.(hand := hand[1..]), after.1))
  {
    SettleKeepsHand(route, seat, mid.0, mid.1, Worked(seat, hand[0], say.fault, say.held), say.written, hand[1..]);
  }

  lemma SaysPrefix(seat: Seat, hand: seq<Handoff>, says: seq<Say>, n: nat)
    requires n <= |says| <= |hand|
    ensures Judges(seat, says)[..n] == Judges(seat, says[..n])
    ensures WorkedAll(seat, hand, says)[..n] == WorkedAll(seat, hand, says[..n])
  {
  }

  lemma {:induction false} WorkIsARun(route: Route, net: Net, seat: Seat, r: Relay, says: seq<Say>)
    requires MayRelay(route.roster, seat.name, seat.stage) && !seat.stage.Receive?
    requires r == R(net, seat) && |says| <= |r.hand|
    ensures var after := SettleAll(route, seat, r.(hand := []), net.boxes, WorkedAll(seat, r.hand, says));
            Becomes(net, Then(route, net, Judges(seat, says)), seat, (after.0.(hand := r.hand[|says|..]), after.1))
  {
    if says != [] {
      var n := |says| - 1;
      WorkIsARun(route, net, seat, r, says[..n]);
      var worked := WorkedAll(seat, r.hand, says);
      SaysPrefix(seat, r.hand, says, n);
      JudgeStep(route, Then(route, net, Judges(seat, says[..n])), seat,
                SettleAll(route, seat, r.(hand := []), net.boxes, worked[..n]), r.hand[n..], says[n]);
      assert r.hand[n..][1..] == r.hand[|says|..] && r.hand[n..][0] == r.hand[n];
    }
  }

  /** A later stage's whole round over all it has in hand. */
  lemma RoundIsARun(route: Route, net: Net, seat: Seat, says: seq<Say>)
    requires MayRelay(route.roster, seat.name, seat.stage) && !seat.stage.Receive?
    requires |says| == |R(net, seat).hand|
    ensures var r := R(net, seat);
            Becomes(net, Then(route, net, Judges(seat, says)), seat,
                    SettleAll(route, seat, r.(hand := []), net.boxes, WorkedAll(seat, r.hand, says)))
  {
    WorkIsARun(route, net, seat, R(net, seat), says);
    SettleAllHand(route, seat, R(net, seat).(hand := []), net.boxes, WorkedAll(seat, R(net, seat).hand, says));
  }

  lemma {:induction false} SettleAllHand(route: Route, seat: Seat, r: Relay, boxes: Boxes, judged: seq<(Judged, bool)>)
    ensures SettleAll(route, seat, r, boxes, judged).0.hand == r.hand
  {
    if judged != [] {
      SettleAllHand(route, seat, r, boxes, judged[..|judged| - 1]);
    }
  }

  function Arrivals(name: Name, came: seq<Arrival>): seq<Event> {
    seq(|came|, i requires 0 <= i < |came| =>
      Arrive(name, came[i].transport, came[i].contract, came[i].round, came[i].arrived, came[i].written))
  }

  lemma ArriveStep(route: Route, net: Net, name: Name, a: Arrival)
    requires MayRelay(route.roster, name, Receive)
    ensures var seat := Seat(name, Receive);
            Becomes(net, Step(route, net, Arrive(name, a.transport, a.contract, a.round, a.arrived, a.written)), seat,
                    Settle(route, seat, R(net, seat), net.boxes, Received(seat, a.transport, a.contract, a.round, a.arrived), a.written))
  {
  }

  lemma {:induction false} ReceiveIsARun(route: Route, net: Net, name: Name, came: seq<Arrival>)
    requires MayRelay(route.roster, name, Receive)
    ensures var seat := Seat(name, Receive);
            Becomes(net, Then(route, net, Arrivals(name, came)), seat,
                    SettleAll(route, seat, R(net, seat), net.boxes, ReceivedAll(seat, came)))
  {
    if came != [] {
      var n := |came| - 1;
      ArrivalsPrefix(name, came, n);
      ReceiveIsARun(route, net, name, came[..n]);
      ArriveStep(route, Then(route, net, Arrivals(name, came[..n])), name, came[n]);
    }
  }

  lemma ArrivalsPrefix(name: Name, came: seq<Arrival>, n: nat)
    requires n <= |came|
    ensures Arrivals(name, came)[..n] == Arrivals(name, came[..n])
    ensures ReceivedAll(Seat(name, Receive), came)[..n] == ReceivedAll(Seat(name, Receive), came[..n])
  {
  }

  /** The events of a receive round: each pair driven arrives under its own transport
      and contract and the round's number, as it came. */
  lemma PairsArrive<T>(name: Name, driven: seq<T>, names: T -> (Bytes.Text, Contract), round: U64, comes: T -> Came)
    ensures Arrivals(name, Arrived(driven, names, round, comes)) ==
            seq(|driven|, i requires 0 <= i < |driven| =>
              Arrive(name, names(driven[i]).0, names(driven[i]).1, round, comes(driven[i]).arrived, comes(driven[i]).written))
  {
  }

  // Nothing is unreadable where every name and transport is clean.

  ghost predicate CleanHandoff(h: Handoff) {
    Clean(h.transport) && Clean(h.from)
  }

  /** A route that reads back whatever clean handoff it wrote. */
  ghost predicate Faithful(route: Route) {
    && (forall h :: CleanHandoff(h) ==> route.decode(route.encode(h)) == Some(h))
    && forall stage: Stage, name :: name in route.roster.With(stage) ==> Clean(name)
  }

  /** What stands under a key is a clean handoff of the sender the key names. */
  ghost predicate Stamped(route: Route, key: Key, raw: seq<Byte>) {
    exists h :: CleanHandoff(h) && h.from == key.from && raw == route.encode(h)
  }

  ghost predicate CleanEvent(e: Event) {
    e.Arrive? ==> Clean(e.transport)
  }

  ghost predicate CleanSeat(route: Route, net: Net, seat: Seat) {
    && R(net, seat).unreadable == 0
    && (forall h :: h in R(net, seat).hand ==> CleanHandoff(h))
    && forall key :: key in At(net.boxes, seat) ==> Stamped(route, key, At(net.boxes, seat)[key])
  }

  ghost predicate CleanNet(route: Route, net: Net) {
    forall seat :: CleanSeat(route, net, seat)
  }

  lemma HandOnClean(route: Route, net: Net, seat: Seat, r: Relay, h: Handoff, written: bool, s: Seat)
    requires CleanSeat(route, net, s) && CleanHandoff(h) && h.from == seat.name
    ensures var box := At(HandOn(route, seat, r, net.boxes, h, written).1, s);
            forall key :: key in box ==> Stamped(route, key, box[key])
  {
    var box := At(HandOn(route, seat, r, net.boxes, h, written).1, s);
    forall key | key in box ensures Stamped(route, key, box[key]) {
      if key !in At(net.boxes, s) || box[key] != At(net.boxes, s)[key] {
        assert key.from == seat.name && box[key] == route.encode(h);
      }
    }
  }

  lemma SettleClean(route: Route, net: Net, seat: Seat, r: Relay, one: Judged, written: bool, s: Seat)
    requires CleanNet(route, net) && r.unreadable == 0 && (forall h :: h in r.hand ==> CleanHandoff(h))
    requires one.forward.Some? ==> CleanHandoff(one.forward.value) && one.forward.value.from == seat.name
    ensures CleanSeat(route, Put(net, seat, Settle(route, seat, r, net.boxes, one, written)), s)
  {
    assert CleanSeat(route, net, s);
    if one.forward.Some? {
      HandOnClean(route, net, seat, r, one.forward.value, written, s);
    }
  }

  lemma TakeClean(route: Route, net: Net, seat: Seat, key: Key, s: Seat)
    requires Faithful(route) && CleanNet(route, net) && key in At(net.boxes, seat)
    ensures CleanSeat(route, Put(net, seat, Claim(route, seat, R(net, seat), net.boxes, key)), s)
  {
    assert CleanSeat(route, net, s) && CleanSeat(route, net, seat);
    var h :| CleanHandoff(h) && h.from == key.from && At(net.boxes, seat)[key] == route.encode(h);
    var after := Claim(route, seat, R(net, seat), net.boxes, key);
    assert after.0 == R(net, seat).(hand := R(net, seat).hand + [h]);
    forall k | k in At(after.1, s) ensures Stamped(route, k, At(after.1, s)[k]) {
      assert k in At(net.boxes, s) && At(after.1, s)[k] == At(net.boxes, s)[k];
    }
  }

  lemma StepClean(route: Route, net: Net, e: Event)
    requires Faithful(route) && CleanNet(route, net) && CleanEvent(e)
    ensures CleanNet(route, Step(route, net, e))
  {
    var net' := Step(route, net, e);
    forall s ensures CleanSeat(route, net', s) {
      assert CleanSeat(route, net, s);
      if net' != net {
        match e
        case Arrive(name, transport, contract, round, arrived, written) =>
          var seat := Seat(name, Receive);
          assert CleanSeat(route, net, seat);
          SettleClean(route, net, seat, R(net, seat), Received(seat, transport, contract, round, arrived), written, s);
        case Take(seat, key) =>
          TakeClean(route, net, seat, key, s);
        case Judge(seat, fault, held, written) =>
          var r := R(net, seat);
          assert CleanSeat(route, net, seat);
          assert CleanHandoff(r.hand[0]);
          SettleClean(route, net, seat, r.(hand := r.hand[1..]), Worked(seat, r.hand[0], fault, held), written, s);
      }
    }
  }

  lemma {:induction false} RunClean(route: Route, run: seq<Event>)
    requires Faithful(route) && forall e :: e in run ==> CleanEvent(e)
    ensures CleanNet(route, After(route, run))
  {
    if run != [] {
      var n := |run| - 1;
      RunClean(route, run[..n]);
      StepClean(route, After(route, run[..n]), run[n]);
    }
  }

  /** Where no node's name and no transport holds a space or a line end, nothing
      is unreadable in any run: every hop is judged or waits. */
  lemma NothingUnreadable(roster: Roster, hash: (Stage, Bytes.Text, Contract) -> nat, run: seq<Event>, seat: Seat)
    requires forall stage: Stage, name :: name in roster.With(stage) ==> Clean(name)
    requires forall e :: e in run ==> CleanEvent(e)
    ensures R(After(RouteOf(roster, hash), run), seat).unreadable == 0
  {
    var route := RouteOf(roster, hash);
    RouteIsFaithful(roster, hash);
    RunClean(route, run);
    assert CleanSeat(route, After(route, run), seat);
  }

  // An inbox's files by their names.

  /** Two files of one inbox are two by their names on disk as well: each holds the
      handoff its sender delivered under its count, and the names those give differ,
      while senders' names are apart and rounds and counts fit ten digits. */
  lemma KeysAreNames(roster: Roster, hash: (Stage, Bytes.Text, Contract) -> nat, run: seq<Event>, inbox: Seat, k: Key, l: Key)
    requires (forall stage: Stage, name :: name in roster.With(stage) ==> Clean(name)) && forall e :: e in run ==> CleanEvent(e)
    requires var box := At(After(RouteOf(roster, hash), run).boxes, inbox); k in box && l in box && k != l
    requires Apart(k.from, l.from) && k.sequence < TEN_DIGITS && l.sequence < TEN_DIGITS
    ensures var box := At(After(RouteOf(roster, hash), run).boxes, inbox);
            var h, g := Decode(box[k]), Decode(box[l]);
            && h.Some? && Encode(h.value) == box[k] && h.value.from == k.from
            && g.Some? && Encode(g.value) == box[l] && g.value.from == l.from
            && (h.value.round < TEN_DIGITS && g.value.round < TEN_DIGITS ==>
                  FileName(h.value, k.sequence) != FileName(g.value, l.sequence))
  {
    var h := StampedIs(roster, hash, run, inbox, k);
    var g := StampedIs(roster, hash, run, inbox, l);
    if h.round < TEN_DIGITS && g.round < TEN_DIGITS && FileName(h, k.sequence) == FileName(g, l.sequence) {
      NamesTellSenders(h, k.sequence, g, l.sequence);
    }
  }

  lemma StampedIs(roster: Roster, hash: (Stage, Bytes.Text, Contract) -> nat, run: seq<Event>, inbox: Seat, k: Key) returns (h: Handoff)
    requires (forall stage: Stage, name :: name in roster.With(stage) ==> Clean(name)) && forall e :: e in run ==> CleanEvent(e)
    requires k in At(After(RouteOf(roster, hash), run).boxes, inbox)
    ensures var raw := At(After(RouteOf(roster, hash), run).boxes, inbox)[k];
            Decode(raw) == Some(h) && Encode(h) == raw && h.from == k.from
  {
    var route := RouteOf(roster, hash);
    RouteIsFaithful(roster, hash);
    RunClean(route, run);
    var net := After(route, run);
    assert CleanSeat(route, net, inbox);
    h :| CleanHandoff(h) && h.from == k.from && At(net.boxes, inbox)[k] == route.encode(h);
    RoundTrip(h);
  }

  lemma RouteIsFaithful(roster: Roster, hash: (Stage, Bytes.Text, Contract) -> nat)
    requires forall stage: Stage, name :: name in roster.With(stage) ==> Clean(name)
    ensures Faithful(RouteOf(roster, hash))
  {
    forall h | CleanHandoff(h) ensures Decode(Encode(h)) == Some(h) { RoundTrip(h); }
  }
}
