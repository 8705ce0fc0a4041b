/**
  The hops a relay keeps, link by link, and the topology drawn from them: over every
  run of the message path it draws the roster's links and no other, each with as many
  handoffs as went over it.
 */
module PathLinks {
  import opened Options
  import opened Bytes
  import opened Contracts
  import opened Handoffs
  import opened Stages
  import opened Rosters
  import opened Relays
  import opened RelayPath
  import Links = HandoffLinks

  /** One handoff delivered: the seat it left and the one it reached. */
  datatype Made = Made(from: Seat, to: Seat)

  const SLASH: Byte := 47

  lemma StageWordIsPlain(stage: Stage)
    ensures Plain(StageWord(stage)) && '/' !in StageWord(stage)
  {
  }

  function StageName(stage: Stage): (name: seq<Byte>)
    ensures SLASH !in name
  {
    StageWordIsPlain(stage);
    var name := Ascii(StageWord(stage));
    assert forall i :: 0 <= i < |name| ==> name[i] == StageWord(stage)[i] as int && StageWord(stage)[i] in StageWord(stage);
    name
  }

  lemma StageNameTells(a: Stage, b: Stage)
    requires StageName(a) == StageName(b)
    ensures a == b
  {
    var x, y := StageWord(a), StageWord(b);
    assert |x| == |StageName(a)| == |StageName(b)| == |y|;
    assert x[0] as int == StageName(a)[0] == StageName(b)[0] == y[0] as int;
  }

  /** What one end of a link is called. */
  function EndOf(seat: Seat): seq<Byte> {
    seat.name + [SLASH] + StageName(seat.stage)
  }

  type LinkKey = (seq<Byte>, seq<Byte>)

  function KeyOf(made: Made): LinkKey {
    (EndOf(made.from), EndOf(made.to))
  }

  lemma LastSlash(a: seq<Byte>, x: seq<Byte>, b: seq<Byte>, y: seq<Byte>)
    requires SLASH !in x && SLASH !in y && a + [SLASH] + x == b + [SLASH] + y
    ensures a == b && x == y
  {
    var s := a + [SLASH] + x;
    assert s[|a|] == SLASH && s[|b|] == SLASH;
    assert forall i :: |a| < i < |s| ==> s[i] == x[i - |a| - 1];
    assert forall i :: |b| < i < |s| ==> s[i] == y[i - |b| - 1];
    assert |a| == |b|;
    assert a == s[..|a|] == b && x == s[|a| + 1..] == y;
  }

  lemma EndTells(a: Seat, b: Seat)
    requires EndOf(a) == EndOf(b)
    ensures a == b
  {
    LastSlash(a.name, StageName(a.stage), b.name, StageName(b.stage));
    StageNameTells(a.stage, b.stage);
  }

  /** Two links are kept under one key only if they are one. */
  lemma KeyTells(a: Made, b: Made)
    requires KeyOf(a) == KeyOf(b)
    ensures a == b
  {
    EndTells(a.from, b.from);
    EndTells(a.to, b.to);
  }

  function HopOf(made: Made, count: nat): Links.Hop {
    Links.Hop(made.from.name, StageWord(made.from.stage), made.to.name, StageWord(made.to.stage), count)
  }

  /** What is kept is what was recorded: one hop for each link, with its number. */
  ghost predicate IsHistory(links: map<LinkKey, Links.Hop>, history: multiset<Made>) {
    && (forall made :: made in history ==> KeyOf(made) in links && links[KeyOf(made)] == HopOf(made, history[made]))
    && (forall key :: key in links ==> exists made :: made in history && KeyOf(made) == key)
  }

  lemma HeldIsMade(links: map<LinkKey, Links.Hop>, history: multiset<Made>, made: Made)
    requires IsHistory(links, history)
    ensures KeyOf(made) in links <==> made in history
  {
    if KeyOf(made) in links {
      var other :| other in history && KeyOf(other) == KeyOf(made);
      KeyTells(other, made);
    }
  }

  lemma RecordCounts(links: map<LinkKey, Links.Hop>, history: multiset<Made>, made: Made, other: Made)
    requires IsHistory(links, history) && other in history && other != made
    ensures KeyOf(other) in links && KeyOf(other) != KeyOf(made) && links[KeyOf(other)] == HopOf(other, history[other])
  {
    if KeyOf(other) == KeyOf(made) { KeyTells(other, made); }
  }

  lemma RecordCounted(links: map<LinkKey, Links.Hop>, history: multiset<Made>, made: Made)
    requires IsHistory(links, history)
    ensures var links', history' := links[KeyOf(made) := HopOf(made, history[made] + 1)], history + multiset{made};
            forall other :: other in history' ==> KeyOf(other) in links' && links'[KeyOf(other)] == HopOf(other, history'[other])
  {
    forall other | other in history && other != made
      ensures KeyOf(other) in links && KeyOf(other) != KeyOf(made) && links[KeyOf(other)] == HopOf(other, history[other])
    {
      RecordCounts(links, history, made, other);
    }
  }

  lemma RecordKeys(links: map<LinkKey, Links.Hop>, history: multiset<Made>, made: Made, key: LinkKey)
    requires IsHistory(links, history) && (key in links || key == KeyOf(made))
    ensures exists other :: other in history + multiset{made} && KeyOf(other) == key
  {
    if key == KeyOf(made) {
      assert made in history + multiset{made};
    } else {
      var other :| other in history && KeyOf(other) == key;
      assert other in history + multiset{made};
    }
  }

  lemma CountsOn(links: map<LinkKey, Links.Hop>, history: multiset<Made>, made: Made)
    requires IsHistory(links, history)
    ensures (if KeyOf(made) in links then links[KeyOf(made)].count else 0) == history[made]
  {
    HeldIsMade(links, history, made);
  }

  lemma RecordNext(links: map<LinkKey, Links.Hop>, history: multiset<Made>, made: Made)
    requires IsHistory(links, history)
    ensures (KeyOf(made) in links <==> made in history)
    ensures var count := if KeyOf(made) in links then links[KeyOf(made)].count else 0;
            IsHistory(links[KeyOf(made) := HopOf(made, count + 1)], history + multiset{made})
  {
    HeldIsMade(links, history, made);
    CountsOn(links, history, made);
    RecordCounted(links, history, made);
    forall key | key in links || key == KeyOf(made) ensures exists other :: other in history + multiset{made} && KeyOf(other) == key {
      RecordKeys(links, history, made, key);
    }
  }

  class Hops {
    var links: map<LinkKey, Links.Hop>
    ghost var history: multiset<Made>

    ghost predicate Valid()
      reads this
    {
      IsHistory(links, history)
    }

    constructor ()
      ensures Valid() && history == multiset{}
    {
      links, history := map[], multiset{};
    }

    /** One delivered handoff more, from one node's stage to another's. */
    method Record(from: Seat, to: Seat)
      requires Valid()
      modifies this
      ensures Valid() && history == old(history) + multiset{Made(from, to)}
    {
      var made := Made(from, to);
      RecordNext(links, history, made);
      var key := KeyOf(made);
      var hop := if key in links then links[key] else HopOf(made, 0);
      assert key in links ==> hop == HopOf(made, hop.count);
      links := links[key := Links.Hop(hop.from, hop.fromStage, hop.to, hop.toStage, hop.count + 1)];
      history := history + multiset{made};
    }
  }

  // What the topology makes of them.

  function MadeOf(pair: Links.Pair): Made {
    Made(Seat(pair.from, pair.fromStage), Seat(pair.to, pair.toStage))
  }

  /** A hop is read as the pair of stages it was recorded between. */
  lemma HopIsPair(made: Made, count: nat, pair: Links.Pair)
    ensures Links.PairOf(HopOf(made, count)) == Some(pair) <==> made == MadeOf(pair)
  {
    Links.NamedByItsWord(StageWord(made.from.stage), made.from.stage);
    Links.NamedByItsWord(StageWord(made.to.stage), made.to.stage);
  }

  /** All that is kept, in any order. */
  ghost predicate Lists(hops: seq<Links.Hop>, all: seq<Made>, history: multiset<Made>) {
    && |hops| == |all| && NoDuplicates(all)
    && (forall made :: made in all <==> made in history)
    && (forall i :: 0 <= i < |all| ==> hops[i] == HopOf(all[i], history[all[i]]))
  }

  lemma {:induction false} ListedOnce(hops: seq<Links.Hop>, all: seq<Made>, history: multiset<Made>, pair: Links.Pair)
    requires |hops| == |all| && NoDuplicates(all)
    requires forall i :: 0 <= i < |all| ==> hops[i] == HopOf(all[i], history[all[i]])
    ensures Links.Observations(hops, pair) == if MadeOf(pair) in all then history[MadeOf(pair)] else 0
  {
    if hops != [] {
      var n := |hops| - 1;
      ListedOnce(hops[..n], all[..n], history, pair);
      HopIsPair(all[n], history[all[n]], pair);
      assert all == all[..n] + [all[n]];
    }
  }

  /** Over a pair of stages as many handoffs are observed as were recorded there. */
  lemma ObservedIsRecorded(hops: seq<Links.Hop>, all: seq<Made>, history: multiset<Made>, pair: Links.Pair)
    requires Lists(hops, all, history)
    ensures Links.Observations(hops, pair) == history[MadeOf(pair)]
  {
    ListedOnce(hops, all, history, pair);
  }

  /** The hops every node keeps over the path, in one list: over each pair of a
      stage and the next as many as the relay handed on, and none over any other. */
  ghost predicate Reports(net: Net, hops: seq<Links.Hop>) {
    && (forall i :: 0 <= i < |hops| ==> hops[i].count > 0)
    && forall pair: Links.Pair :: Links.Observations(hops, pair) == HandedOver(net, pair)
  }

  function HandedOver(net: Net, pair: Links.Pair): nat {
    if NextStage(pair.fromStage) == Some(pair.toStage) then R(net, Seat(pair.from, pair.fromStage)).hops[pair.to] else 0
  }

  /** What one relay recorded: each of its hops, from its seat to its target's. */
  ghost predicate Recorded(r: Relay, seat: Seat, history: multiset<Made>) {
    forall made :: history[made] ==
      if made.from == seat && NextStage(seat.stage) == Some(made.to.stage) then r.hops[made.to.name] else 0
  }

  /** Handing on records the one hop it makes. */
  lemma RecordedNext(route: Route, seat: Seat, r: Relay, boxes: Boxes, h: Handoff, written: bool, history: multiset<Made>)
    requires Recorded(r, seat, history) && HandOn(route, seat, r, boxes, h, written).2
    ensures var next := NextStage(seat.stage).value;
            var to := route.to(seat.name, next, h).value;
            Recorded(HandOn(route, seat, r, boxes, h, written).0, seat, history + multiset{Made(seat, Seat(to, next))})
  {
  }

  lemma {:induction false} ObservationsJoin(a: seq<Links.Hop>, b: seq<Links.Hop>, pair: Links.Pair)
    ensures Links.Observations(a + b, pair) == Links.Observations(a, pair) + Links.Observations(b, pair)
  {
    if b == [] {
      assert a + b == a;
    } else {
      ObservationsJoin(a, b[..|b| - 1], pair);
      assert (a + b)[..|a + b| - 1] == a + b[..|b| - 1];
    }
  }

  lemma LastOrBefore(seats: seq<Seat>, seat: Seat)
    requires seats != [] && NoDuplicates(seats)
    ensures var n := |seats| - 1;
            (seat in seats <==> seat in seats[..n] || seat == seats[n]) && !(seat in seats[..n] && seat == seats[n])
  {
  }

  lemma JoinedOnce(net: Net, seat: Seat, parts: seq<seq<Links.Hop>>, all: seq<Made>, history: multiset<Made>, pair: Links.Pair)
    requires parts != [] && Recorded(R(net, seat), seat, history) && Lists(parts[|parts| - 1], all, history)
    ensures Links.Observations(Joined(parts), pair) ==
            Links.Observations(Joined(parts[..|parts| - 1]), pair)
            + if seat == Seat(pair.from, pair.fromStage) then HandedOver(net, pair) else 0
  {
    var n := |parts| - 1;
    ObservationsJoin(Joined(parts[..n]), parts[n], pair);
    ObservedIsRecorded(parts[n], all, history, pair);
  }

  /** One relay's list and the rest's: every seat's hops are reported once. */
  lemma {:induction false} ListsReport(net: Net, seats: seq<Seat>, parts: seq<seq<Links.Hop>>, alls: seq<seq<Made>>,
                                       histories: seq<multiset<Made>>, pair: Links.Pair)
    requires |seats| == |parts| == |alls| == |histories| && NoDuplicates(seats)
    requires forall i :: 0 <= i < |seats| ==> Recorded(R(net, seats[i]), seats[i], histories[i])
    requires forall i :: 0 <= i < |seats| ==> Lists(parts[i], alls[i], histories[i])
    ensures Links.Observations(Joined(parts), pair) ==
            if Seat(pair.from, pair.fromStage) in seats then HandedOver(net, pair) else 0
  {
    if seats != [] {
      var n := |seats| - 1;
      ListsReport(net, seats[..n], parts[..n], alls[..n], histories[..n], pair);
      JoinedOnce(net, seats[n], parts, alls[n], histories[n], pair);
      LastOrBefore(seats, Seat(pair.from, pair.fromStage));
    }
  }

  function Joined(parts: seq<seq<Links.Hop>>): seq<Links.Hop> {
    if parts == [] then [] else Joined(parts[..|parts| - 1]) + parts[|parts| - 1]
  }

  lemma {:induction false} JoinedCounts(parts: seq<seq<Links.Hop>>)
    requires forall i, j :: 0 <= i < |parts| && 0 <= j < |parts[i]| ==> parts[i][j].count > 0
    ensures forall i :: 0 <= i < |Joined(parts)| ==> Joined(parts)[i].count > 0
  {
    if parts != [] { JoinedCounts(parts[..|parts| - 1]); }
  }

  /** The hops of all nodes, each as its `Hops` keeps them, report the path. */
  lemma NodesReport(net: Net, seats: seq<Seat>, parts: seq<seq<Links.Hop>>, alls: seq<seq<Made>>, histories: seq<multiset<Made>>)
    requires |seats| == |parts| == |alls| == |histories| && NoDuplicates(seats)
    requires forall i :: 0 <= i < |seats| ==> Recorded(R(net, seats[i]), seats[i], histories[i])
    requires forall i :: 0 <= i < |seats| ==> Lists(parts[i], alls[i], histories[i])
    requires forall seat :: R(net, seat).hops != multiset{} ==> seat in seats
    ensures Reports(net, Joined(parts))
  {
    forall pair: Links.Pair ensures Links.Observations(Joined(parts), pair) == HandedOver(net, pair) {
      ListsReport(net, seats, parts, alls, histories, pair);
    }
    forall i, j | 0 <= i < |parts| && 0 <= j < |parts[i]| ensures parts[i][j].count > 0 {
      assert alls[i][j] in alls[i];
    }
    JoinedCounts(parts);
  }

  // Over the path's runs.

  ghost predicate Idle(route: Route, net: Net) {
    forall seat: Seat :: seat.name !in route.roster.With(seat.stage) ==> R(net, seat) == FRESH
  }

  lemma StepIdle(route: Route, net: Net, e: Event)
    requires Idle(route, net)
    ensures Idle(route, Step(route, net, e))
  {
  }

  /** A node does nothing at a stage it did not declare. */
  lemma {:induction false} RunIdle(route: Route, run: seq<Event>)
    ensures Idle(route, After(route, run))
  {
    if run != [] {
      RunIdle(route, run[..|run| - 1]);
      StepIdle(route, After(route, run[..|run| - 1]), run[|run| - 1]);
    }
  }

  lemma {:induction false} SeenIsObserved(hops: seq<Links.Hop>, i: nat, pair: Links.Pair)
    requires i < |hops| && hops[i].count > 0 && Links.PairOf(hops[i]) == Some(pair)
    ensures Links.Observations(hops, pair) > 0
  {
    if i < |hops| - 1 { SeenIsObserved(hops[..|hops| - 1], i, pair); }
  }

  lemma HandedIsConfigured(roster: Roster, hash: (Stage, Bytes.Text, Contract) -> nat, run: seq<Event>, pair: Links.Pair)
    requires roster.Distinct() && !roster.Refused()
    requires HandedOver(After(RouteOf(roster, hash), run), pair) > 0
    ensures Links.Configures(roster, pair)
  {
    var route := RouteOf(roster, hash);
    var net, seat := After(route, run), Seat(pair.from, pair.fromStage);
    RouteSound(roster, hash);
    RunInv(route, run);
    RunIdle(route, run);
    assert HopsAreDeliveries(route, net, seat);
    assert pair.to in R(net, seat).hops;
  }

  /** The topology over every run of a cluster whose roster is not refused: each link
      drawn is configured, once, with as many handoffs as its sender handed on over
      it, and said to be observed as well exactly when there was one. */
  lemma PathIsDrawn(roster: Roster, hash: (Stage, Bytes.Text, Contract) -> nat, run: seq<Event>, hops: seq<Links.Hop>, i: nat)
    requires roster.Distinct() && !roster.Refused()
    requires Reports(After(RouteOf(roster, hash), run), hops) && i < |Links.Merged(Links.Drawn(Some(roster)), hops)|
    ensures var net, link := After(RouteOf(roster, hash), run), Links.Merged(Links.Drawn(Some(roster)), hops)[i];
            && Links.Configures(roster, link.pair)
            && link.count == HandedOver(net, link.pair)
            && Links.OriginOf(link) == if HandedOver(net, link.pair) > 0 then Links.Both else Links.Configured
  {
    var links := Links.Merged(Links.Drawn(Some(roster)), hops);
    var pair := links[i].pair;
    forall stage: Stage ensures NoDuplicates(roster.With(stage)) { ServingDistinct(roster.nodes, stage); }
    Links.LinksAre(roster, hops, i);
    Links.DrawnExactly(roster, hops, pair);
    assert Links.Known(links, pair);
    if !Links.Configures(roster, pair) {
      var j :| 0 <= j < |hops| && Links.PairOf(hops[j]) == Some(pair);
      SeenIsObserved(hops, j, pair);
      HandedIsConfigured(roster, hash, run, pair);
    }
  }
}
