/**
  Parties spread over transports, and the fault that visits one Party after the
  other, first on one side and then on the other, a turn every fifty seconds.
 */
module Rotations {
  import opened Options
  import opened Contracts
  import opened Stages
  import Workers

  const PERIOD: nat := 50
  const STRIKE: nat := 10
  const STEADY: string := "file"

  function Place(transports: seq<string>, transport: string): (at: nat)
    ensures transport in transports ==> at < |transports| && transports[at] == transport
  {
    if transports == [] then 0
    else if transports[0] == transport then 0
    else if transport in transports[1..] then 1 + Place(transports[1..], transport)
    else 0
  }

  /** Those of a list a Party is on. */
  function Those(list: seq<string>, whose: string -> nat, party: nat): (some: seq<string>)
    ensures forall t :: t in some <==> t in list && whose(t) == party
  {
    if list == [] then []
    else (if whose(list[0]) == party then [list[0]] else []) + Those(list[1..], whose, party)
  }

  function Moving(list: seq<string>): (some: seq<string>)
    ensures forall t :: t in some <==> t in list && t != STEADY
  {
    if list == [] then [] else (if list[0] != STEADY then [list[0]] else []) + Moving(list[1..])
  }

  /** Parties by their place, of which there is at least one, spread over the
      transports in order. */
  datatype Spread = Spread(parties: nat, transports: seq<string>) {
    predicate Valid() {
      parties > 0
    }

    function Sender(transport: string): nat
      requires Valid()
    {
      Place(transports, transport) % parties
    }

    function Receiver(transport: string): nat
      requires Valid()
    {
      (Place(transports, transport) + 1) % parties
    }

    function Sends(party: nat): seq<string>
      requires Valid()
    {
      Those(transports, (t: string) => Sender(t), party)
    }

    function Receives(party: nat): seq<string>
      requires Valid()
    {
      Those(transports, (t: string) => Receiver(t), party)
    }
  }

  datatype Strike = Strike(party: nat, stage: Stage, transport: string, contract: Option<Contract>)

  function PartyAt(s: Spread, turn: nat): nat
    requires s.Valid()
  {
    turn % s.parties
  }

  function StageAt(s: Spread, turn: nat): Stage
    requires s.Valid()
  {
    if (turn / s.parties) % 2 == 0 then Receive else Send
  }

  function Candidates(s: Spread, turn: nat): seq<string>
    requires s.Valid()
  {
    Moving(if StageAt(s, turn).Send? then s.Receives(PartyAt(s, turn)) else s.Sends(PartyAt(s, turn)))
  }

  /** What a turn strikes; `mix` and the high bits it yields are free. */
  function Turn(s: Spread, mix: nat -> (nat, nat), turn: nat): Option<Strike>
    requires s.Valid()
  {
    var candidates := Candidates(s, turn);
    if candidates == [] then None
    else
      var transport := candidates[mix(turn).0 % |candidates|];
      Some(Strike(PartyAt(s, turn), StageAt(s, turn), transport,
                  if turn % 2 == 1 then Some(CONTRACTS[mix(turn).1 % |CONTRACTS|]) else None))
  }

  function Striking(s: Spread, mix: nat -> (nat, nat), second: nat): Option<Strike>
    requires s.Valid()
  {
    if second % PERIOD < STRIKE then Turn(s, mix, second / PERIOD) else None
  }

  /** Whether the pair at `stage` suffers a fault at a second. */
  predicate Struck(s: Spread, mix: nat -> (nat, nat), stage: Stage, transport: string, contract: Contract, second: nat)
    requires s.Valid()
  {
    var strike := Striking(s, mix, second);
    && strike.Some? && strike.value.stage == stage && strike.value.transport == transport
    && (strike.value.contract.None? || strike.value.contract.value == contract)
  }

  // The turns.

  lemma SplitTurn(turn: nat, count: nat, q: nat, p: nat)
    requires p < count
    ensures turn == count * q + p <==> turn / count == q && turn % count == p
  {
    if turn == count * q + p { Workers.ModUnique(turn, count, q, p); }
  }

  /** Each block of twice the Parties' turns meets each Party on each side, at one
      turn and no other. */
  lemma EachSideOnce(s: Spread, block: nat, turn: nat, party: nat, stage: Stage)
    requires s.Valid() && party < s.parties && !stage.Process?
    ensures InBlock(s, block, turn) && PartyAt(s, turn) == party && StageAt(s, turn) == stage <==>
            turn == s.parties * (2 * block + if stage.Send? then 1 else 0) + party
  {
    var side := if stage.Send? then 1 else 0;
    SplitTurn(turn, s.parties, 2 * block + side, party);
    BlockIs(s, block, turn);
    var q := turn / s.parties;
    assert q == 2 * block + side <==> q / 2 == block && q % 2 == side;
  }

  predicate InBlock(s: Spread, block: nat, turn: nat) {
    s.parties * (2 * block) <= turn < s.parties * (2 * block + 2)
  }

  lemma BlockIs(s: Spread, block: nat, turn: nat)
    requires s.Valid()
    ensures (turn / s.parties) / 2 == block <==> InBlock(s, block, turn)
  {
    var c, q, p := s.parties, turn / s.parties, turn % s.parties;
    assert turn == c * q + p;
    Order(c, q, p, 2 * block);
    Order(c, q, p, 2 * block + 2);
  }

  lemma Order(c: nat, q: nat, p: nat, m: nat)
    requires p < c
    ensures c * m <= c * q + p <==> m <= q
  {
    if m <= q {
      assert c * q == c * m + c * (q - m);
    } else {
      assert c * m == c * q + c * (m - q);
      Workers.AtLeastOne(c, m - q);
    }
  }

  lemma SameParity(c: nat, q: nat, r: nat, p: nat)
    requires q % 2 == r % 2
    ensures (c * q + p) % 2 == (c * r + p) % 2
  {
    var a, b, e := q / 2, r / 2, q % 2;
    assert c * q == 2 * (c * a) + c * e && c * r == 2 * (c * b) + c * e;
  }

  lemma TurnsAlike(count: nat, t: nat, u: nat)
    requires count > 0 && t % count == u % count && (t / count) % 2 == (u / count) % 2
    ensures t % 2 == u % 2
  {
    var p, q, r := t % count, t / count, u / count;
    assert t == count * q + p && u == count * r + p;
    SameParity(count, q, r, p);
  }

  lemma StreamOnOddTurns(s: Spread, mix: nat -> (nat, nat), turn: nat)
    requires s.Valid() && Turn(s, mix, turn).Some?
    ensures Turn(s, mix, turn).value.contract.Some? <==> turn % 2 == 1
  {
  }

  /** A Party is struck on a side always the same way: two turns that meet it there
      both strike a whole transport or both one stream of it. */
  lemma KindIsFixed(s: Spread, mix: nat -> (nat, nat), t: nat, u: nat)
    requires s.Valid() && PartyAt(s, t) == PartyAt(s, u) && StageAt(s, t) == StageAt(s, u)
    requires Turn(s, mix, t).Some? && Turn(s, mix, u).Some?
    ensures Turn(s, mix, t).value.contract.Some? <==> Turn(s, mix, u).value.contract.Some?
  {
    SidesAlike(s, t, u);
    StreamOnOddTurns(s, mix, t);
    StreamOnOddTurns(s, mix, u);
  }

  lemma SidesAlike(s: Spread, t: nat, u: nat)
    requires s.Valid() && PartyAt(s, t) == PartyAt(s, u) && StageAt(s, t) == StageAt(s, u)
    ensures t % 2 == u % 2
  {
    TurnsAlike(s.parties, t, u);
  }

  /** What is struck is that Party's on that side and never the steady one, and
      something is struck exactly where there is such a transport. */
  lemma StruckIsTheirs(s: Spread, mix: nat -> (nat, nat), turn: nat)
    requires s.Valid()
    ensures var over := if StageAt(s, turn).Send? then s.Receives(PartyAt(s, turn)) else s.Sends(PartyAt(s, turn));
            && (Turn(s, mix, turn).Some? <==> exists t :: t in over && t != STEADY)
            && (Turn(s, mix, turn).Some? ==>
                  var strike := Turn(s, mix, turn).value;
                  && strike.transport in over && strike.transport in s.transports && strike.transport != STEADY
                  && strike.party == (if strike.stage.Send? then s.Receiver(strike.transport) else s.Sender(strike.transport))
                  && (strike.contract.Some? <==> turn % 2 == 1))
  {
    var candidates := Candidates(s, turn);
    if candidates != [] {
      assert candidates[0] in candidates;
      assert candidates[mix(turn).0 % |candidates|] in candidates;
    }
  }

  /** The steady transport never suffers, and whatever does is the struck Party's on
      that side, at a second of its turn's first ten. */
  lemma SteadyIsNeverStruck(s: Spread, mix: nat -> (nat, nat), stage: Stage, transport: string, contract: Contract, second: nat)
    requires s.Valid() && Struck(s, mix, stage, transport, contract, second)
    ensures transport != STEADY && transport in s.transports && second % PERIOD < STRIKE
    ensures PartyAt(s, second / PERIOD) == if stage.Send? then s.Receiver(transport) else s.Sender(transport)
  {
    StruckIsTheirs(s, mix, second / PERIOD);
  }

  /** Whom a Party may be struck over at a turn: those of its transports on the side
      the turn is for that are not the steady one. */
  ghost predicate MayBeStruck(s: Spread, turn: nat, transport: string)
    requires s.Valid()
  {
    && transport in s.transports && transport != STEADY
    && PartyAt(s, turn) == if StageAt(s, turn).Send? then s.Receiver(transport) else s.Sender(transport)
  }

  lemma CandidatesMay(s: Spread, turn: nat, transport: string)
    requires s.Valid()
    ensures transport in Candidates(s, turn) <==> MayBeStruck(s, turn, transport)
  {
  }

  /** What may be struck stands in the transports' order. */
  lemma CandidatesInOrder(s: Spread, turn: nat, i: nat, j: nat)
    requires s.Valid() && i < j < |Candidates(s, turn)|
    ensures exists a, b :: 0 <= a < b < |s.transports|
                           && s.transports[a] == Candidates(s, turn)[i] && s.transports[b] == Candidates(s, turn)[j]
  {
    var over := if StageAt(s, turn).Send? then s.Receives(PartyAt(s, turn)) else s.Sends(PartyAt(s, turn));
    var c, d := MovingInOrder(over, i, j);
    if StageAt(s, turn).Send? {
      var a, b := ThoseInOrder(s.transports, (t: string) => s.Receiver(t), PartyAt(s, turn), c, d);
    } else {
      var a, b := ThoseInOrder(s.transports, (t: string) => s.Sender(t), PartyAt(s, turn), c, d);
    }
  }

  lemma {:induction false} ThoseInOrder(list: seq<string>, whose: string -> nat, party: nat, i: nat, j: nat) returns (a: nat, b: nat)
    requires i < j < |Those(list, whose, party)|
    ensures a < b < |list| && list[a] == Those(list, whose, party)[i] && list[b] == Those(list, whose, party)[j]
  {
    var d := if whose(list[0]) == party then 1 else 0;
    if d == 1 && i == 0 {
      var rest := Those(list[1..], whose, party);
      assert rest[j - 1] in rest;
      var k :| 0 <= k < |list[1..]| && list[1..][k] == rest[j - 1];
      a, b := 0, k + 1;
    } else {
      var c, e := ThoseInOrder(list[1..], whose, party, i - d, j - d);
      a, b := c + 1, e + 1;
    }
  }

  lemma {:induction false} MovingInOrder(list: seq<string>, i: nat, j: nat) returns (a: nat, b: nat)
    requires i < j < |Moving(list)|
    ensures a < b < |list| && list[a] == Moving(list)[i] && list[b] == Moving(list)[j]
  {
    var d := if list[0] != STEADY then 1 else 0;
    if d == 1 && i == 0 {
      var rest := Moving(list[1..]);
      assert rest[j - 1] in rest;
      var k :| 0 <= k < |list[1..]| && list[1..][k] == rest[j - 1];
      a, b := 0, k + 1;
    } else {
      var c, e := MovingInOrder(list[1..], i - d, j - d);
      a, b := c + 1, e + 1;
    }
  }

  /** Exactly which pairs suffer at a second. Past the first ten of a turn, or where
      its Party has nothing to strike, none. Otherwise those of one transport of that
      Party on that side, the same all the turn, the one at the place the mix falls
      to: every stream of it on an even turn and one, by the mix, on an odd one. */
  lemma SuffersExactly(s: Spread, mix: nat -> (nat, nat), second: nat) returns (transport: string)
    requires s.Valid()
    ensures var turn := second / 50;
            var candidates := Candidates(s, turn);
            var strikes := second % 50 < 10 && exists t :: MayBeStruck(s, turn, t);
            && (strikes ==> candidates != [] && transport == candidates[mix(turn).0 % |candidates|] && MayBeStruck(s, turn, transport))
            && forall stage, t, contract :: Struck(s, mix, stage, t, contract, second) <==>
                 && strikes && stage == StageAt(s, turn) && t == transport
                 && (turn % 2 == 1 ==> Index(contract) == mix(turn).1 % 20)
  {
    var turn := second / PERIOD;
    var candidates := Candidates(s, turn);
    forall t ensures t in candidates <==> MayBeStruck(s, turn, t) { CandidatesMay(s, turn, t); }
    transport := STEADY;
    if second % PERIOD < STRIKE && candidates != [] {
      transport := candidates[mix(turn).0 % |candidates|];
      assert transport in candidates;
      IndexIs(mix(turn).1 % 20);
    } else if candidates != [] {
      assert candidates[0] in candidates;
    }
  }

  // The seconds.

  function Count(holds: nat -> bool, from: nat, n: nat): nat {
    if n == 0 then 0 else Count(holds, from, n - 1) + if holds(from + n - 1) then 1 else 0
  }

  lemma {:induction false} CountSame(f: nat -> bool, g: nat -> bool, from: nat, n: nat)
    requires forall u :: from <= u < from + n ==> f(u) == g(u)
    ensures Count(f, from, n) == Count(g, from, n)
  {
    if n > 0 { CountSame(f, g, from, n - 1); }
  }

  lemma {:induction false} CountShift(f: nat -> bool, from: nat, n: nat)
    ensures Count(f, from, n) + (if f(from + n) then 1 else 0) == Count(f, from + 1, n) + if f(from) then 1 else 0
  {
    if n > 0 { CountShift(f, from, n - 1); }
  }

  function Early(): nat -> bool {
    (u: nat) => u % PERIOD < STRIKE
  }

  lemma {:induction false} CountEarly(n: nat)
    requires n <= PERIOD
    ensures Count(Early(), 0, n) == if n < STRIKE then n else STRIKE
  {
    if n > 0 { CountEarly(n - 1); }
  }

  lemma {:induction false} AnyWindow(from: nat)
    ensures Count(Early(), from, PERIOD) == STRIKE
  {
    if from == 0 {
      CountEarly(PERIOD);
    } else {
      AnyWindow(from - 1);
      CountShift(Early(), from - 1, PERIOD);
      assert (from - 1 + PERIOD) % PERIOD == (from - 1) % PERIOD;
    }
  }

  function IsStruck(s: Spread, mix: nat -> (nat, nat)): nat -> bool
    requires s.Valid()
  {
    (u: nat) => Striking(s, mix, u).Some?
  }

  /** Any fifty seconds in a row hold exactly ten struck ones, wherever they
      start, when the turns they touch have a target. */
  lemma TenOfFifty(s: Spread, mix: nat -> (nat, nat), from: nat)
    requires s.Valid()
    requires Turn(s, mix, from / PERIOD).Some? && Turn(s, mix, from / PERIOD + 1).Some?
    ensures Count(IsStruck(s, mix), from, PERIOD) == STRIKE
  {
    forall u | from <= u < from + PERIOD ensures IsStruck(s, mix)(u) == Early()(u) {
      assert u / PERIOD == from / PERIOD || u / PERIOD == from / PERIOD + 1;
    }
    CountSame(IsStruck(s, mix), Early(), from, PERIOD);
    AnyWindow(from);
  }

  // The Parties.

  ghost predicate Distinct(transports: seq<string>) {
    forall i, j :: 0 <= i < j < |transports| ==> transports[i] != transports[j]
  }

  /** Each transport has one Party that sends over it, the Parties taken in turn
      along the transports, and one it delivers to, the next. */
  lemma TransportsParted(s: Spread, i: nat, party: nat)
    requires s.Valid() && Distinct(s.transports) && i < |s.transports|
    ensures s.transports[i] in s.Sends(party) <==> party == i % s.parties
    ensures s.transports[i] in s.Receives(party) <==> party == (i + 1) % s.parties
  {
    assert Place(s.transports, s.transports[i]) == i by {
      var at := Place(s.transports, s.transports[i]);
      assert s.transports[at] == s.transports[i];
    }
  }

  /** No Party sends and receives over one transport, exactly when there are two
      Parties or no transport. */
  lemma NeverBothWays(s: Spread)
    requires s.Valid()
    ensures (forall party, t :: !(t in s.Sends(party) && t in s.Receives(party))) <==> s.parties >= 2 || s.transports == []
  {
    if s.parties >= 2 {
      forall party, t ensures !(t in s.Sends(party) && t in s.Receives(party)) {
        Workers.ModDiffers(Place(s.transports, t), 1, s.parties);
      }
    } else if s.transports != [] {
      var t := s.transports[0];
      assert t in s.Sends(0) && t in s.Receives(0);
    }
  }
}
