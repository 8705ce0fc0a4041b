/**
  The message path over a whole cluster: in every run, however the nodes' rounds
  interleave, what was delivered at one stage is accounted for at the next.
 */
module RelayPath {
  import opened Options
  import opened Bytes
  import opened Contracts
  import opened Handoffs
  import opened Stages
  import opened Rosters
  import opened Relays

  datatype Net = Net(relays: map<Seat, Relay>, boxes: Boxes)

  function R(net: Net, seat: Seat): Relay {
    if seat in net.relays then net.relays[seat] else FRESH
  }

  const START := Net(map[], map[])

  /** What a node does between two file operations others can see: settle an
      arrival, claim one file, or settle one claimed handoff. What arrives,
      whether a contract holds, a fault strikes or a write succeeds is free. */
  datatype Event =
    | Arrive(name: Name, transport: Bytes.Text, contract: Contract, round: U64, arrived: Option<Payload>, written: bool)
    | Take(seat: Seat, key: Key)
    | Judge(seat: Seat, fault: bool, held: bool, written: bool)

  function Put(net: Net, seat: Seat, after: (Relay, Boxes)): Net {
    Net(net.relays[seat := after.0], after.1)
  }

  function Step(route: Route, net: Net, e: Event): Net {
    match e
    case Arrive(name, transport, contract, round, arrived, written) =>
      var seat := Seat(name, Receive);
      if !MayRelay(route.roster, name, Receive) then net
      else Put(net, seat, Settle(route, seat, R(net, seat), net.boxes,
                                 Received(seat, transport, contract, round, arrived), written))
    case Take(seat, key) =>
      if seat.stage.Receive? || !MayRelay(route.roster, seat.name, seat.stage) || key !in At(net.boxes, seat) then net
      else Put(net, seat, Claim(route, seat, R(net, seat), net.boxes, key))
    case Judge(seat, fault, held, written) =>
      var r := R(net, seat);
      if seat.stage.Receive? || !MayRelay(route.roster, seat.name, seat.stage) || r.hand == [] then net
      else Put(net, seat, Settle(route, seat, r.(hand := r.hand[1..]), net.boxes,
                                 Worked(seat, r.hand[0], fault, held), written))
  }

  function Then(route: Route, net: Net, run: seq<Event>): Net {
    if run == [] then net else Step(route, Then(route, net, run[..|run| - 1]), run[|run| - 1])
  }

  function After(route: Route, run: seq<Event>): Net {
    Then(route, START, run)
  }

  /** Everything that reached a seat's inbox and where it stands: waiting, in
      hand, judged or unreadable. */
  function Load(net: Net, seat: Seat): nat {
    |At(net.boxes, seat)| + |R(net, seat).hand| + R(net, seat).verdicts + R(net, seat).unreadable
  }

  function Sum(names: seq<Name>, f: Name -> nat): nat {
    if names == [] then 0 else f(names[0]) + Sum(names[1..], f)
  }

  /** One name's part grows by `d`, and so does the sum. */
  lemma {:induction false} SumGrows(names: seq<Name>, f: Name -> nat, g: Name -> nat, x: Name, d: nat)
    requires NoDuplicates(names) && (d == 0 || x in names)
    requires forall n :: n in names ==> g(n) == f(n) + if n == x then d else 0
    ensures Sum(names, g) == Sum(names, f) + d
  {
    if names != [] {
      var rest := names[1..];
      assert names[0] !in rest;
      if names[0] == x { SumGrows(rest, f, g, x, 0); } else { SumGrows(rest, f, g, x, d); }
    }
  }

  function HopsTo(net: Net, stage: Stage, to: Name): Name -> nat {
    (n: Name) => R(net, Seat(n, stage)).hops[to]
  }

  function Deliveries(net: Net, stage: Stage): Name -> nat {
    (n: Name) => R(net, Seat(n, stage)).delivered
  }

  function Loads(net: Net, stage: Stage): Name -> nat {
    (n: Name) => Load(net, Seat(n, stage))
  }

  /** A step of `seat` that handed on to `hop`, or to nobody: what it may change
      of what is counted. */
  ghost predicate Shifts(net: Net, net': Net, seat: Seat, hop: Option<Name>) {
    var d := if hop.Some? then 1 else 0;
    && (forall s :: s != seat ==> R(net', s) == R(net, s))
    && R(net', seat).hops == R(net, seat).hops + (if hop.Some? then multiset{hop.value} else multiset{})
    && (!seat.stage.Send? ==> R(net', seat).delivered == R(net, seat).delivered + d)
    && (forall s: Seat :: !s.stage.Receive? ==>
          Load(net', s) == Load(net, s) + if HitBy(seat, hop, s) then 1 else 0)
  }

  /** Every file waits where the stage before it put it, under a count its
      sender has reached. */
  ghost predicate Numbered(net: Net) {
    forall seat: Seat, key :: key in At(net.boxes, seat) ==> Sent(net, seat, key)
  }

  ghost predicate Sent(net: Net, inbox: Seat, key: Key) {
    exists stage: Stage :: NextStage(stage) == Some(inbox.stage) && key.sequence <= R(net, Seat(key.from, stage)).sequence
  }

  /** Whoever declared a stage finds somebody serving any next one. */
  ghost predicate Serves(route: Route) {
    forall name, stage, next, h :: name in route.roster.With(stage) ==>
      route.to(name, next, h).Some? && route.to(name, next, h).value in route.roster.With(next)
  }

  lemma RouteServes(roster: Roster, hash: (Stage, Bytes.Text, Contract) -> nat)
    requires roster.Distinct() && !roster.Refused()
    ensures Serves(RouteOf(roster, hash))
  {
    var route := RouteOf(roster, hash);
    forall name, stage: Stage, next: Stage, h: Handoff | name in roster.With(stage)
      ensures route.to(name, next, h).Some? && route.to(name, next, h).value in roster.With(next)
    {
      TargetServesDistinct(roster, name, stage, next, hash(next, h.transport, h.contract));
    }
  }

  /** A count not yet reached names no file. */
  lemma FreshKey(net: Net, seat: Seat, inbox: Seat)
    requires Numbered(net) && NextStage(seat.stage) == Some(inbox.stage)
    ensures Key(seat.name, R(net, seat).sequence + 1) !in At(net.boxes, inbox)
  {
    forall stage: Stage | NextStage(stage) == Some(inbox.stage) ensures stage == seat.stage {}
  }

  /** What a stage may come to: before Send it forwards exactly what delivered,
      and Send forwards nothing. */
  ghost predicate Proper(seat: Seat, one: Judged) {
    if seat.stage.Send? then one.forward.None? else one.delivered <==> one.forward.Some?
  }

  /** The relay a settled pair leaves, given where its handoff went. */
  function Settled(r: Relay, one: Judged, hop: Option<Name>): Relay {
    Relay(r.verdicts + 1,
          if one.delivered && (one.forward.Some? ==> hop.Some?) then r.delivered + 1 else r.delivered,
          r.hops + (if hop.Some? then multiset{hop.value} else multiset{}),
          r.unreadable,
          if one.forward.Some? then r.sequence + 1 else r.sequence,
          r.hand)
  }

  /** Handing on always finds a node serving the next stage; a new file stands
      in its inbox unless the write failed. */
  lemma HandOnHops(route: Route, net: Net, seat: Seat, r: Relay, h: Handoff, written: bool) returns (to: Name)
    requires Serves(route) && seat.name in route.roster.With(seat.stage) && NextStage(seat.stage).Some?
    requires Numbered(net) && r.sequence == R(net, seat).sequence
    ensures var inbox := Seat(to, NextStage(seat.stage).value);
            var key := Key(seat.name, r.sequence + 1);
            && to in route.roster.With(inbox.stage)
            && key !in At(net.boxes, inbox)
            && HandOn(route, seat, r, net.boxes, h, written) ==
                 if written then (r.(sequence := r.sequence + 1, hops := r.hops + multiset{to}),
                                  Filed(net.boxes, inbox, key, route.encode(h)), true)
                 else (r.(sequence := r.sequence + 1), net.boxes, false)
  {
    var next := NextStage(seat.stage).value;
    to := route.to(seat.name, next, h).value;
    FreshKey(net, seat, Seat(to, next));
  }

  function Filed(boxes: Boxes, inbox: Seat, key: Key, raw: seq<Byte>): Boxes {
    boxes[inbox := At(boxes, inbox)[key := raw]]
  }

  /** Settling leaves at most one new file, under the next count of the seat. */
  ghost predicate Files(route: Route, net: Net, seat: Seat, boxes': Boxes, one: Judged, hop: Option<Name>) {
    if hop.None? then boxes' == net.boxes
    else
      && one.forward.Some? && NextStage(seat.stage).Some?
      && var inbox := Seat(hop.value, NextStage(seat.stage).value);
         var key := Key(seat.name, R(net, seat).sequence + 1);
         && hop.value in route.roster.With(inbox.stage)
         && key !in At(net.boxes, inbox)
         && boxes' == Filed(net.boxes, inbox, key, route.encode(one.forward.value))
  }

  lemma SettleHops(route: Route, net: Net, seat: Seat, r: Relay, one: Judged, written: bool) returns (hop: Option<Name>)
    requires Serves(route) && seat.name in route.roster.With(seat.stage) && Proper(seat, one)
    requires Numbered(net) && r.sequence == R(net, seat).sequence
    ensures hop.Some? <==> one.forward.Some? && written
    ensures var after := Settle(route, seat, r, net.boxes, one, written);
            after.0 == Settled(r, one, hop) && Files(route, net, seat, after.1, one, hop)
  {
    if one.forward.Some? {
      var to := HandOnHops(route, net, seat, r, one.forward.value, written);
      hop := if written then Some(to) else None;
    } else {
      hop := None;
    }
  }

  lemma OneMore(box: Box, key: Key, raw: seq<Byte>)
    requires key !in box
    ensures |box[key := raw]| == |box| + 1
  {
    assert box[key := raw].Keys == box.Keys + {key};
    assert |box[key := raw].Keys| == |box.Keys| + 1;
  }

  lemma OneLess(box: Box, key: Key)
    requires key in box
    ensures |box - {key}| == |box| - 1
  {
    assert (box - {key}).Keys == box.Keys - {key};
    assert |box.Keys - {key}| == |box.Keys| - 1;
  }

  lemma FiledSizes(boxes: Boxes, inbox: Seat, key: Key, raw: seq<Byte>, s: Seat)
    requires key !in At(boxes, inbox)
    ensures |At(Filed(boxes, inbox, key, raw), s)| == |At(boxes, s)| + if s == inbox then 1 else 0
  {
    if s == inbox {
      OneMore(At(boxes, inbox), key, raw);
    }
  }

  predicate HitBy(seat: Seat, hop: Option<Name>, s: Seat) {
    hop.Some? && NextStage(seat.stage) == Some(s.stage) && s.name == hop.value
  }

  lemma FilesSizes(route: Route, net: Net, seat: Seat, boxes': Boxes, one: Judged, hop: Option<Name>, s: Seat)
    requires Files(route, net, seat, boxes', one, hop)
    ensures |At(boxes', s)| == |At(net.boxes, s)| + if HitBy(seat, hop, s) then 1 else 0
  {
    if hop.Some? {
      var inbox := Seat(hop.value, NextStage(seat.stage).value);
      FiledSizes(net.boxes, inbox, Key(seat.name, R(net, seat).sequence + 1), route.encode(one.forward.value), s);
      assert s == inbox <==> HitBy(seat, hop, s);
    }
  }

  /** Settling with `r` in the seat's place, a handoff less in its hand unless it
      receives. */
  lemma SettleShifts(route: Route, net: Net, seat: Seat, r: Relay, one: Judged, written: bool) returns (hop: Option<Name>)
    requires Serves(route) && seat.name in route.roster.With(seat.stage) && Proper(seat, one)
    requires Numbered(net) && r == R(net, seat).(hand := r.hand)
    requires !seat.stage.Receive? ==> |R(net, seat).hand| == |r.hand| + 1
    ensures Shifts(net, Put(net, seat, Settle(route, seat, r, net.boxes, one, written)), seat, hop)
    ensures Numbered(Put(net, seat, Settle(route, seat, r, net.boxes, one, written)))
    ensures hop.Some? ==> NextStage(seat.stage).Some? && hop.value in route.roster.With(NextStage(seat.stage).value)
  {
    hop := SettleHops(route, net, seat, r, one, written);
    var after := Settle(route, seat, r, net.boxes, one, written);
    SettledShifts(route, net, seat, r, after, one, hop);
    SettledNumbered(route, net, seat, r, after, one, hop);
  }

  lemma SettledShifts(route: Route, net: Net, seat: Seat, r: Relay, after: (Relay, Boxes), one: Judged, hop: Option<Name>)
    requires Proper(seat, one) && after.0 == Settled(r, one, hop) && Files(route, net, seat, after.1, one, hop)
    requires r == R(net, seat).(hand := r.hand)
    requires !seat.stage.Receive? ==> |R(net, seat).hand| == |r.hand| + 1
    ensures Shifts(net, Put(net, seat, after), seat, hop)
  {
    var net' := Put(net, seat, after);
    forall s: Seat | !s.stage.Receive? ensures Load(net', s) == Load(net, s) + if HitBy(seat, hop, s) then 1 else 0 {
      FilesSizes(route, net, seat, after.1, one, hop, s);
      SettledLoad(net, seat, r, after, one, hop, s);
    }
  }

  lemma SettledLoad(net: Net, seat: Seat, r: Relay, after: (Relay, Boxes), one: Judged, hop: Option<Name>, s: Seat)
    requires after.0 == Settled(r, one, hop) && r == R(net, seat).(hand := r.hand) && !s.stage.Receive?
    requires !seat.stage.Receive? ==> |R(net, seat).hand| == |r.hand| + 1
    ensures Load(Put(net, seat, after), s) == Load(net, s) + |At(after.1, s)| - |At(net.boxes, s)|
  {
  }

  lemma SettledNumbered(route: Route, net: Net, seat: Seat, r: Relay, after: (Relay, Boxes), one: Judged, hop: Option<Name>)
    requires Numbered(net) && after.0 == Settled(r, one, hop) && Files(route, net, seat, after.1, one, hop)
    requires r.sequence == R(net, seat).sequence
    ensures Numbered(Put(net, seat, after))
  {
    var net' := Put(net, seat, after);
    forall s: Seat, key | key in At(net'.boxes, s) ensures Sent(net', s, key) {
      if key in At(net.boxes, s) {
        SentStays(net, net', s, key);
      } else {
        assert s == Seat(hop.value, NextStage(seat.stage).value);
        assert key == Key(seat.name, R(net, seat).sequence + 1);
        assert R(net', Seat(key.from, seat.stage)) == after.0;
      }
    }
  }

  lemma SentStays(net: Net, net': Net, s: Seat, key: Key)
    requires Sent(net, s, key)
    requires forall s :: R(net', s).sequence >= R(net, s).sequence
    ensures Sent(net', s, key)
  {
    var stage: Stage :| NextStage(stage) == Some(s.stage) && key.sequence <= R(net, Seat(key.from, stage)).sequence;
    assert key.sequence <= R(net', Seat(key.from, stage)).sequence;
  }

  lemma TakeShifts(route: Route, net: Net, seat: Seat, key: Key)
    requires !seat.stage.Receive? && key in At(net.boxes, seat)
    ensures Shifts(net, Put(net, seat, Claim(route, seat, R(net, seat), net.boxes, key)), seat, None)
  {
    OneLess(At(net.boxes, seat), key);
  }

  lemma TakeNumbered(route: Route, net: Net, seat: Seat, key: Key)
    requires key in At(net.boxes, seat) && Numbered(net)
    ensures Numbered(Put(net, seat, Claim(route, seat, R(net, seat), net.boxes, key)))
  {
    var net' := Put(net, seat, Claim(route, seat, R(net, seat), net.boxes, key));
    assert forall s :: R(net', s).sequence == R(net, s).sequence;
    forall s: Seat, k | k in At(net'.boxes, s) ensures Sent(net', s, k) {
      SentStays(net, net', s, k);
    }
  }

  /** What every run keeps for a stage and the one after it: each hop is a
      delivery to a node serving the next stage, and what was handed to each such
      node, and to all of them, is what reached them. */
  ghost predicate HopsAreDeliveries(route: Route, net: Net, seat: Seat) {
    && (!seat.stage.Send? ==> R(net, seat).delivered == |R(net, seat).hops|)
    && forall to :: to in R(net, seat).hops ==>
         NextStage(seat.stage).Some? && to in route.roster.With(NextStage(seat.stage).value)
  }

  ghost predicate Handed(route: Route, net: Net, stage: Stage, to: Seat) {
    NextStage(stage) == Some(to.stage) && to.name in route.roster.With(to.stage) ==>
      Sum(route.roster.With(stage), HopsTo(net, stage, to.name)) == Load(net, to)
  }

  ghost predicate Balanced(route: Route, net: Net, stage: Stage, next: Stage) {
    NextStage(stage) == Some(next) ==>
      Sum(route.roster.With(stage), Deliveries(net, stage)) == Sum(route.roster.With(next), Loads(net, next))
  }

  ghost predicate Inv(route: Route, net: Net) {
    && Numbered(net)
    && (forall seat :: HopsAreDeliveries(route, net, seat))
    && (forall stage, to :: Handed(route, net, stage, to))
    && (forall stage, next :: Balanced(route, net, stage, next))
  }

  /** A roster on which the path runs: every sender finds a server, and nobody
      serves a stage twice. */
  ghost predicate Sound(route: Route) {
    Serves(route) && forall stage: Stage :: NoDuplicates(route.roster.With(stage))
  }

  /** A step of a node of the path that handed on to `hop`. */
  ghost predicate Moves(route: Route, net: Net, net': Net, seat: Seat, hop: Option<Name>) {
    && Shifts(net, net', seat, hop)
    && seat.name in route.roster.With(seat.stage)
    && (hop.Some? ==> NextStage(seat.stage).Some? && hop.value in route.roster.With(NextStage(seat.stage).value))
  }

  lemma HopsAreDeliveriesStays(route: Route, net: Net, net': Net, seat: Seat, hop: Option<Name>, s: Seat)
    requires Moves(route, net, net', seat, hop) && HopsAreDeliveries(route, net, s)
    ensures HopsAreDeliveries(route, net', s)
  {
  }

  /** What one step adds to the hops a stage made to one node. */
  function Hit(seat: Seat, hop: Option<Name>, stage: Stage, to: Name): nat {
    if seat.stage == stage && hop == Some(to) then 1 else 0
  }

  lemma HopsAt(net: Net, net': Net, seat: Seat, hop: Option<Name>, s: Seat, to: Name)
    requires Shifts(net, net', seat, hop)
    ensures R(net', s).hops[to] == R(net, s).hops[to] + if s.name == seat.name then Hit(seat, hop, s.stage, to) else 0
  {
    if s != seat { assert R(net', s) == R(net, s); }
  }

  lemma HopsGrow(net: Net, net': Net, seat: Seat, hop: Option<Name>, stage: Stage, to: Name, names: seq<Name>)
    requires Shifts(net, net', seat, hop) && NoDuplicates(names) && (stage == seat.stage ==> seat.name in names)
    ensures Sum(names, HopsTo(net', stage, to)) == Sum(names, HopsTo(net, stage, to)) + Hit(seat, hop, stage, to)
  {
    var f, g := HopsTo(net, stage, to), HopsTo(net', stage, to);
    forall n | n in names ensures g(n) == f(n) + if n == seat.name then Hit(seat, hop, stage, to) else 0 {
      HopsAt(net, net', seat, hop, Seat(n, stage), to);
    }
    SumGrows(names, f, g, seat.name, Hit(seat, hop, stage, to));
  }

  lemma DeliveriesGrow(net: Net, net': Net, seat: Seat, hop: Option<Name>, stage: Stage, names: seq<Name>)
    requires Shifts(net, net', seat, hop) && NoDuplicates(names) && (stage == seat.stage ==> seat.name in names)
    requires !stage.Send?
    ensures Sum(names, Deliveries(net', stage)) ==
            Sum(names, Deliveries(net, stage)) + if seat.stage == stage && hop.Some? then 1 else 0
  {
    var d := if seat.stage == stage && hop.Some? then 1 else 0;
    var f, g := Deliveries(net, stage), Deliveries(net', stage);
    forall n | n in names ensures g(n) == f(n) + if n == seat.name then d else 0 {
      if Seat(n, stage) != seat { assert R(net', Seat(n, stage)) == R(net, Seat(n, stage)); }
    }
    SumGrows(names, f, g, seat.name, d);
  }

  lemma LoadGrows(net: Net, net': Net, seat: Seat, hop: Option<Name>, stage: Stage, to: Seat)
    requires Shifts(net, net', seat, hop) && NextStage(stage) == Some(to.stage)
    ensures Load(net', to) == Load(net, to) + Hit(seat, hop, stage, to.name)
  {
    assert HitBy(seat, hop, to) <==> Hit(seat, hop, stage, to.name) == 1;
  }

  lemma LoadsGrow(net: Net, net': Net, seat: Seat, hop: Option<Name>, stage: Stage, next: Stage, names: seq<Name>)
    requires Shifts(net, net', seat, hop) && NoDuplicates(names) && NextStage(stage) == Some(next)
    requires stage == seat.stage && hop.Some? ==> hop.value in names
    ensures Sum(names, Loads(net', next)) == Sum(names, Loads(net, next)) + if seat.stage == stage && hop.Some? then 1 else 0
  {
    var d := if seat.stage == stage && hop.Some? then 1 else 0;
    var x := if hop.Some? then hop.value else seat.name;
    var f, g := Loads(net, next), Loads(net', next);
    forall n | n in names ensures g(n) == f(n) + if n == x then d else 0 {
      LoadGrows(net, net', seat, hop, stage, Seat(n, next));
    }
    SumGrows(names, f, g, x, d);
  }

  lemma HandedStays(route: Route, net: Net, net': Net, seat: Seat, hop: Option<Name>, stage: Stage, to: Seat)
    requires Sound(route) && Moves(route, net, net', seat, hop) && Handed(route, net, stage, to)
    ensures Handed(route, net', stage, to)
  {
    if NextStage(stage) == Some(to.stage) {
      HopsGrow(net, net', seat, hop, stage, to.name, route.roster.With(stage));
      LoadGrows(net, net', seat, hop, stage, to);
    }
  }

  lemma BalancedStays(route: Route, net: Net, net': Net, seat: Seat, hop: Option<Name>, stage: Stage, next: Stage)
    requires Sound(route) && Moves(route, net, net', seat, hop) && Balanced(route, net, stage, next)
    ensures Balanced(route, net', stage, next)
  {
    if NextStage(stage) == Some(next) {
      DeliveriesGrow(net, net', seat, hop, stage, route.roster.With(stage));
      LoadsGrow(net, net', seat, hop, stage, next, route.roster.With(next));
    }
  }

  lemma InvStays(route: Route, net: Net, net': Net, seat: Seat, hop: Option<Name>)
    requires Sound(route) && Inv(route, net) && Moves(route, net, net', seat, hop) && Numbered(net')
    ensures Inv(route, net')
  {
    forall s ensures HopsAreDeliveries(route, net', s) { HopsAreDeliveriesStays(route, net, net', seat, hop, s); }
    forall stage, to ensures Handed(route, net', stage, to) { HandedStays(route, net, net', seat, hop, stage, to); }
    forall stage, next ensures Balanced(route, net', stage, next) { BalancedStays(route, net, net', seat, hop, stage, next); }
  }

  lemma StepInv(route: Route, net: Net, e: Event)
    requires Sound(route) && Inv(route, net)
    ensures Inv(route, Step(route, net, e))
  {
    var net' := Step(route, net, e);
    if net' != net {
      match e
      case Arrive(name, transport, contract, round, arrived, written) =>
        var seat := Seat(name, Receive);
        var hop := SettleShifts(route, net, seat, R(net, seat), Received(seat, transport, contract, round, arrived), written);
        InvStays(route, net, net', seat, hop);
      case Take(seat, key) =>
        TakeShifts(route, net, seat, key);
        TakeNumbered(route, net, seat, key);
        InvStays(route, net, net', seat, None);
      case Judge(seat, fault, held, written) =>
        var r := R(net, seat);
        var hop := SettleShifts(route, net, seat, r.(hand := r.hand[1..]), Worked(seat, r.hand[0], fault, held), written);
        InvStays(route, net, net', seat, hop);
    }
  }

  lemma {:induction false} SumZero(names: seq<Name>, f: Name -> nat)
    requires forall n :: n in names ==> f(n) == 0
    ensures Sum(names, f) == 0
  {
    if names != [] { SumZero(names[1..], f); }
  }

  lemma StartInv(route: Route)
    ensures Inv(route, START)
  {
    forall stage, to ensures Handed(route, START, stage, to) {
      SumZero(route.roster.With(stage), HopsTo(START, stage, to.name));
    }
    forall stage, next ensures Balanced(route, START, stage, next) {
      SumZero(route.roster.With(stage), Deliveries(START, stage));
      SumZero(route.roster.With(next), Loads(START, next));
    }
  }

  lemma {:induction false} RunInv(route: Route, run: seq<Event>)
    requires Sound(route)
    ensures Inv(route, After(route, run))
  {
    if run == [] {
      StartInv(route);
    } else {
      RunInv(route, run[..|run| - 1]);
      StepInv(route, After(route, run[..|run| - 1]), run[|run| - 1]);
    }
  }

  lemma RouteSound(roster: Roster, hash: (Stage, Bytes.Text, Contract) -> nat)
    requires roster.Distinct() && !roster.Refused()
    ensures Sound(RouteOf(roster, hash))
  {
    RouteServes(roster, hash);
    forall stage: Stage ensures NoDuplicates(roster.With(stage)) { ServingDistinct(roster.nodes, stage); }
  }

  function Verdicts(net: Net, stage: Stage): Name -> nat {
    (n: Name) => R(net, Seat(n, stage)).verdicts
  }

  function Unreadable(net: Net, stage: Stage): Name -> nat {
    (n: Name) => R(net, Seat(n, stage)).unreadable
  }

  function Waiting(net: Net, stage: Stage): Name -> nat {
    (n: Name) => |At(net.boxes, Seat(n, stage))|
  }

  function Hops(net: Net, stage: Stage): Name -> nat {
    (n: Name) => |R(net, Seat(n, stage)).hops|
  }

  /** Nobody of a stage holds what it claimed and has not judged: every node of
      it is between two ticks. */
  ghost predicate BetweenTicks(route: Route, net: Net, stage: Stage) {
    forall name :: name in route.roster.With(stage) ==> R(net, Seat(name, stage)).hand == []
  }

  lemma {:induction false} LoadsAre(names: seq<Name>, net: Net, stage: Stage)
    requires forall n :: n in names ==> R(net, Seat(n, stage)).hand == []
    ensures Sum(names, Loads(net, stage)) ==
            Sum(names, Verdicts(net, stage)) + Sum(names, Unreadable(net, stage)) + Sum(names, Waiting(net, stage))
  {
    if names != [] { LoadsAre(names[1..], net, stage); }
  }

  lemma {:induction false} DeliveriesAreHops(names: seq<Name>, net: Net, stage: Stage)
    requires forall n :: n in names ==> R(net, Seat(n, stage)).delivered == |R(net, Seat(n, stage)).hops|
    ensures Sum(names, Deliveries(net, stage)) == Sum(names, Hops(net, stage))
  {
    if names != [] { DeliveriesAreHops(names[1..], net, stage); }
  }

  /** Path conservation: in every run of a cluster whose roster is not refused,
      a stage's deliveries are its hops, and the next stage has judged them,
      failed to read them or still has them waiting. */
  lemma PathConserved(roster: Roster, hash: (Stage, Bytes.Text, Contract) -> nat, run: seq<Event>, stage: Stage, next: Stage)
    requires roster.Distinct() && !roster.Refused() && NextStage(stage) == Some(next)
    requires BetweenTicks(RouteOf(roster, hash), After(RouteOf(roster, hash), run), next)
    ensures var net, here, there := After(RouteOf(roster, hash), run), roster.With(stage), roster.With(next);
            && Sum(here, Deliveries(net, stage)) == Sum(here, Hops(net, stage))
            && Sum(here, Hops(net, stage)) ==
                 Sum(there, Verdicts(net, next)) + Sum(there, Unreadable(net, next)) + Sum(there, Waiting(net, next))
  {
    var route := RouteOf(roster, hash);
    var net := After(route, run);
    RouteSound(roster, hash);
    RunInv(route, run);
    assert Balanced(route, net, stage, next);
    forall n ensures R(net, Seat(n, stage)).delivered == |R(net, Seat(n, stage)).hops| {
      assert HopsAreDeliveries(route, net, Seat(n, stage));
    }
    DeliveriesAreHops(roster.With(stage), net, stage);
    LoadsAre(roster.With(next), net, next);
  }

  /** And node by node: what the stage before handed to one node is what that
      node waits for, holds, judged or could not read, and nobody is handed to
      who does not serve the stage. */
  lemma EachTargetConserved(roster: Roster, hash: (Stage, Bytes.Text, Contract) -> nat, run: seq<Event>, stage: Stage, to: Seat)
    requires roster.Distinct() && !roster.Refused() && NextStage(stage) == Some(to.stage)
    ensures var net := After(RouteOf(roster, hash), run);
            && (to.name in roster.With(to.stage) ==>
                  Sum(roster.With(stage), HopsTo(net, stage, to.name)) ==
                    |At(net.boxes, to)| + |R(net, to).hand| + R(net, to).verdicts + R(net, to).unreadable)
            && (to.name !in roster.With(to.stage) ==>
                  forall from :: to.name !in R(net, Seat(from, stage)).hops)
  {
    var route := RouteOf(roster, hash);
    RouteSound(roster, hash);
    RunInv(route, run);
    assert Handed(route, After(route, run), stage, to);
    forall from | to.name !in roster.With(to.stage) ensures to.name !in R(After(route, run), Seat(from, stage)).hops {
      assert HopsAreDeliveries(route, After(route, run), Seat(from, stage));
    }
  }
}
