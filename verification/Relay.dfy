/**
  A relay at its seat: what it settles, claims and hands on, as functions of its
  state and the inboxes, and the object that does so in place.
 */
module Relays {
  import opened Options
  import opened Bytes
  import opened Contracts
  import opened Handoffs
  import opened Stages
  import opened Rosters
  import opened Workers

  /** A stage at a node: where a relay runs and where its inbox is. */
  datatype Seat = Seat(name: Name, stage: Stage)

  /** A file in an inbox, by who sent it under which of its counts. */
  datatype Key = Key(from: Name, sequence: nat)

  type Box = map<Key, seq<Byte>>

  type Boxes = map<Seat, Box>

  /** How a cluster hands pairs on: its roster, whom a node hands a pair to,
      and how a handoff is written and read back. `RouteOf` is the one it has. */
  datatype Route = Route(roster: Roster, to: (Name, Stage, Handoff) -> Option<Name>,
                         encode: Handoff -> seq<Byte>, decode: seq<Byte> -> Option<Handoff>)

  function RouteOf(roster: Roster, hash: (Stage, Bytes.Text, Contract) -> nat): Route {
    Route(roster,
          (from: Name, stage: Stage, h: Handoff) => roster.Target(from, stage, hash(stage, h.transport, h.contract)),
          Encode, Decode)
  }

  function At(boxes: Boxes, seat: Seat): Box {
    if seat in boxes then boxes[seat] else map[]
  }

  /** What a relay has come to: the verdicts it folded and how many delivered,
      its hops per target, what it could not read, its own count of handoffs,
      and what it has claimed and not yet judged. */
  datatype Relay = Relay(verdicts: nat, delivered: nat, hops: multiset<Name>, unreadable: nat,
                         sequence: nat, hand: seq<Handoff>)

  const FRESH := Relay(0, 0, multiset{}, 0, 0, [])

  /** A pair judged: delivered or not, and the handoff it leaves to forward. */
  datatype Judged = Judged(delivered: bool, forward: Option<Handoff>)

  /** A receive stage's arrival: what came whole is handed on. */
  function Received(seat: Seat, transport: Bytes.Text, contract: Contract, round: U64, arrived: Option<Payload>): Judged {
    match arrived
    case Some(bytes) => Judged(true, Some(Handoff(transport, contract, round, seat.name, bytes)))
    case None => Judged(false, None)
  }

  /** A later stage's work on what it claimed: an injected fault fails it, a
      process stage hands on what its contract holds over, a send stage ends. */
  function Worked(seat: Seat, h: Handoff, fault: bool, held: bool): Judged {
    if fault then Judged(false, None)
    else if seat.stage.Process? then Judged(held, if held then Some(h.(from := seat.name)) else None)
    else Judged(held, None)
  }

  /** Hand `h` on from `seat`; `written` says whether the inbox took the file. */
  function HandOn(route: Route, seat: Seat, r: Relay, boxes: Boxes, h: Handoff, written: bool)
    : (Relay, Boxes, bool)
  {
    match NextStage(seat.stage)
    case None => (r, boxes, false)
    case Some(next) =>
      match route.to(seat.name, next, h)
      case None => (r, boxes, false)
      case Some(to) =>
        var r' := r.(sequence := r.sequence + 1);
        if !written then (r', boxes, false)
        else
          var inbox := Seat(to, next);
          (r'.(hops := r.hops + multiset{to}),
           boxes[inbox := At(boxes, inbox)[Key(seat.name, r'.sequence) := route.encode(h)]],
           true)
  }

  /** Settle one judged pair: hand on what it forwards, and fold its verdict,
      failed when it could not be handed on. */
  function Settle(route: Route, seat: Seat, r: Relay, boxes: Boxes, one: Judged, written: bool): (Relay, Boxes) {
    var (r', boxes', handed) :=
      if one.forward.Some? then HandOn(route, seat, r, boxes, one.forward.value, written) else (r, boxes, true);
    (r'.(verdicts := r'.verdicts + 1,
         delivered := if one.delivered && handed then r'.delivered + 1 else r'.delivered), boxes')
  }

  function SettleAll(route: Route, seat: Seat, r: Relay, boxes: Boxes, judged: seq<(Judged, bool)>): (Relay, Boxes) {
    if judged == [] then (r, boxes) else
    var n := |judged| - 1;
    var (r', boxes') := SettleAll(route, seat, r, boxes, judged[..n]);
    Settle(route, seat, r', boxes', judged[n].0, judged[n].1)
  }

  /** What is free about one claimed handoff's judgement. */
  datatype Say = Say(fault: bool, held: bool, written: bool)

  function First(n: nat, says: nat -> Say): (some: seq<Say>)
    ensures |some| == n && forall i: nat :: i < n ==> some[i] == says(i)
  {
    seq(n, i requires 0 <= i < n => says(i))
  }

  /** A hand judged, from its first handoff on. */
  function WorkedAll(seat: Seat, hand: seq<Handoff>, says: seq<Say>): seq<(Judged, bool)>
    requires |says| <= |hand|
  {
    seq(|says|, i requires 0 <= i < |says| => (Worked(seat, hand[i], says[i].fault, says[i].held), says[i].written))
  }

  /** What arrives at a receive stage for one pair of its slice. */
  datatype Arrival = Arrival(transport: Bytes.Text, contract: Contract, round: U64, arrived: Option<Payload>, written: bool)

  /** What is free about one pair's arrival: what came, if it came whole, and whether
      its handoff could be written. */
  datatype Came = Came(arrived: Option<Payload>, written: bool)

  function ReceivedAll(seat: Seat, came: seq<Arrival>): seq<(Judged, bool)> {
    seq(|came|, i requires 0 <= i < |came| =>
      (Received(seat, came[i].transport, came[i].contract, came[i].round, came[i].arrived), came[i].written))
  }

  /** Take one file out of the seat's inbox: in hand when it reads back, counted
      unreadable when it does not. */
  function Claim(route: Route, seat: Seat, r: Relay, boxes: Boxes, key: Key): (Relay, Boxes)
    requires key in At(boxes, seat)
  {
    var read := route.decode(At(boxes, seat)[key]);
    (if read.Some? then r.(hand := r.hand + [read.value]) else r.(unreadable := r.unreadable + 1),
     boxes[seat := At(boxes, seat) - {key}])
  }

  /** Claim every listed file that is still there. */
  function ClaimAll(route: Route, seat: Seat, r: Relay, boxes: Boxes, keys: seq<Key>): (Relay, Boxes) {
    if keys == [] then (r, boxes) else
    var n := |keys| - 1;
    var (r', boxes') := ClaimAll(route, seat, r, boxes, keys[..n]);
    if keys[n] in At(boxes', seat) then Claim(route, seat, r', boxes', keys[n]) else (r', boxes')
  }

  /** The share of the matrix the receiving node `name` takes. */
  function Share<T>(roster: Roster, name: Name, pairs: seq<T>, at: nat): seq<T>
    requires at <= |pairs|
  {
    if at == 0 then []
    else Share(roster, name, pairs, at - 1) + if roster.Receives(name, at - 1) then [pairs[at - 1]] else []
  }

  /** The shared directory every inbox is in. */
  class Shared {
    var boxes: Boxes

    constructor ()
      ensures boxes == map[]
    {
      boxes := map[];
    }
  }

  /** One relay as it runs: its fields change, the inboxes change, and both by
      exactly the functions above. */
  class Running<T(==)> {
    const route: Route
    const seat: Seat
    const pairs: seq<T>
    const names: T -> (Bytes.Text, Contract)
    const perRound: nat
    var state: Relay
    var round: nat
    var cursor: nat

    constructor (route: Route, seat: Seat, pairs: seq<T>, names: T -> (Bytes.Text, Contract), perRound: nat)
      requires MayRelay(route.roster, seat.name, seat.stage)
      ensures this.route == route && this.seat == seat && this.pairs == pairs && this.names == names
      ensures this.perRound == if perRound > 1 then perRound else 1
      ensures state == FRESH && round == 0 && cursor == 0
    {
      this.route, this.seat, this.pairs, this.names := route, seat, pairs, names;
      this.perRound := if perRound > 1 then perRound else 1;
      state, round, cursor := FRESH, 0, 0;
    }

    /** Which pairs this round receives: the slice at the cursor, which moves on. */
    method NextPairs() returns (driven: seq<T>)
      modifies this`cursor
      ensures var share := Share(route.roster, seat.name, pairs, |pairs|);
              && driven == Slice(share, old(cursor), Some(perRound))
              && cursor == Advanced(share, old(cursor), |driven|)
    {
      var share: seq<T> := [];
      for i := 0 to |pairs|
        invariant share == Share(route.roster, seat.name, pairs, i)
      {
        if route.roster.Receives(seat.name, i) {
          share := share + [pairs[i]];
        }
      }
      driven := Slice(share, cursor, Some(perRound));
      cursor := Advanced(share, cursor, |driven|);
    }

    /** Claim what the sorted listing shows, no more than the round's bound. */
    method DrainInbox(shared: Shared, listing: seq<Key>)
      modifies this`state, shared
      ensures var n := if perRound < |listing| then perRound else |listing|;
              (state, shared.boxes) == ClaimAll(route, seat, old(state), old(shared.boxes), listing[..n])
    {
      var n := if perRound < |listing| then perRound else |listing|;
      for i := 0 to n
        invariant (state, shared.boxes) == ClaimAll(route, seat, old(state), old(shared.boxes), listing[..i])
      {
        assert listing[..i + 1][..i] == listing[..i];
        var box := At(shared.boxes, seat);
        if listing[i] in box {
          var read := route.decode(box[listing[i]]);
          if read.Some? {
            state := state.(hand := state.hand + [read.value]);
          } else {
            state := state.(unreadable := state.unreadable + 1);
          }
          shared.boxes := shared.boxes[seat := box - {listing[i]}];
        }
      }
    }

    /** Deliver a handoff to the node its hash falls to and record the hop. */
    method HandOnTo(shared: Shared, h: Handoff, written: bool) returns (handed: bool)
      modifies this`state, shared
      ensures (state, shared.boxes, handed) == HandOn(route, seat, old(state), old(shared.boxes), h, written)
    {
      var next := NextStage(seat.stage);
      if next.None? {
        return false;
      }
      var to := route.to(seat.name, next.value, h);
      if to.None? {
        return false;
      }
      state := state.(sequence := state.sequence + 1);
      if !written {
        return false;
      }
      var inbox := Seat(to.value, next.value);
      var box := At(shared.boxes, inbox);
      shared.boxes := shared.boxes[inbox := box[Key(seat.name, state.sequence) := route.encode(h)]];
      state := state.(hops := state.hops + multiset{to.value});
      return true;
    }

    /** Hand on what one pair forwards and fold its verdict. */
    method SettleOne(shared: Shared, one: Judged, written: bool)
      modifies this`state, shared
      ensures (state, shared.boxes) == Settle(route, seat, old(state), old(shared.boxes), one, written)
    {
      var handed := true;
      if one.forward.Some? {
        handed := HandOnTo(shared, one.forward.value, written);
      }
      state := state.(verdicts := state.verdicts + 1,
                      delivered := if one.delivered && handed then state.delivered + 1 else state.delivered);
    }

    /** A round over what was judged, the hand with it: hand on, then fold, one
        after the other. */
    method Tick(shared: Shared, judged: seq<(Judged, bool)>)
      modifies this`state, this`round, shared
      ensures (state, shared.boxes) == SettleAll(route, seat, old(state).(hand := []), old(shared.boxes), judged)
      ensures round == old(round) + 1
    {
      round := round + 1;
      state := state.(hand := []);
      for i := 0 to |judged|
        invariant round == old(round) + 1
        invariant (state, shared.boxes) == SettleAll(route, seat, old(state).(hand := []), old(shared.boxes), judged[..i])
      {
        assert judged[..i + 1][..i] == judged[..i];
        SettleOne(shared, judged[i].0, judged[i].1);
      }
      assert judged[..|judged|] == judged;
    }

    /** A later stage's whole round: claim what the listing shows, judge all that is
        in hand, and settle each. */
    method Work(shared: Shared, listing: seq<Key>, says: nat -> Say)
      modifies this`state, this`round, shared
      ensures var n := if perRound < |listing| then perRound else |listing|;
              var (r, boxes) := ClaimAll(route, seat, old(state), old(shared.boxes), listing[..n]);
              (state, shared.boxes) ==
                SettleAll(route, seat, r.(hand := []), boxes, WorkedAll(seat, r.hand, First(|r.hand|, says)))
      ensures round == old(round) + 1
    {
      DrainInbox(shared, listing);
      var hand := state.hand;
      var judged: seq<(Judged, bool)> := [];
      for i := 0 to |hand|
        invariant |judged| == i
        invariant forall j :: 0 <= j < i ==> judged[j] == (Worked(seat, hand[j], says(j).fault, says(j).held), says(j).written)
      {
        judged := judged + [(Worked(seat, hand[i], says(i).fault, says(i).held), says(i).written)];
      }
      assert judged == WorkedAll(seat, hand, First(|hand|, says));
      Tick(shared, judged);
    }

    /** A receive stage's whole round: the next slice of its share, each pair under its
        own transport and contract and this round's number, and settle each as it came. */
    method Receive(shared: Shared, comes: T -> Came)
      requires round + 1 < TWO_64
      modifies this`state, this`round, this`cursor, shared
      ensures round == old(round) + 1
      ensures var share := Share(route.roster, seat.name, pairs, |pairs|);
              var driven := Slice(share, old(cursor), Some(perRound));
              && cursor == Advanced(share, old(cursor), |driven|)
              && (state, shared.boxes) ==
                   SettleAll(route, seat, old(state).(hand := []), old(shared.boxes), ReceivedAll(seat, Arrived(driven, names, old(round) + 1, comes)))
    {
      var driven := NextPairs();
      var came := Arrived(driven, names, round + 1, comes);
      var judged: seq<(Judged, bool)> := [];
      for i := 0 to |came|
        invariant |judged| == i
        invariant forall j :: 0 <= j < i ==> judged[j] == ReceivedAll(seat, came)[j]
      {
        judged := judged + [(Received(seat, came[i].transport, came[i].contract, came[i].round, came[i].arrived), came[i].written)];
      }
      assert judged == ReceivedAll(seat, came);
      Tick(shared, judged);
    }
  }

  function Arrived<T>(driven: seq<T>, names: T -> (Bytes.Text, Contract), round: U64, comes: T -> Came): seq<Arrival> {
    seq(|driven|, i requires 0 <= i < |driven| =>
      Arrival(names(driven[i]).0, names(driven[i]).1, round, comes(driven[i]).arrived, comes(driven[i]).written))
  }
}
