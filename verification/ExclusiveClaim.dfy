/**
  The judge of an exclusive pickup: from the done records alone it says whether
  every item had one holder, none was missed and each key kept its sequence;
  and what it says of every run that reaches the join.
 */
module ExclusiveClaim {
  import opened Pickup
  import opened PickupSafety
  import opened PickupReach
  import opened PickupJoin

  /** How many items a lane is staged with. */
  const DROPPED: nat := KEYS * PER_KEY

  datatype Breach = TwoHolders(item: Item, who: set<Holder>, injected: bool) | Reordered

  datatype Verdict = Held(items: nat) | Contended(why: Breach) | Missed(items: nat)

  ghost function HoldersOf(led: seq<Processed>, item: Item): set<Holder> {
    set p | p in led && p.item == item :: p.holder
  }

  function ItemsOf(led: seq<Processed>): set<Item> {
    set p | p in led :: p.item
  }

  /** Record `i` was processed before record `j`; ties stay as listed. */
  predicate Before(led: seq<Processed>, i: nat, j: nat)
    requires i < |led| && j < |led|
  {
    led[i].order < led[j].order || (led[i].order == led[j].order && i < j)
  }

  /** Every two records of one key are in sequence. */
  ghost predicate InOrder(led: seq<Processed>) {
    forall i: nat, j: nat :: i < |led| && j < |led| && led[i].item.key == led[j].item.key && Before(led, i, j) ==>
                               led[i].item.seqNo <= led[j].item.seqNo
  }

  ghost predicate Breached(led: seq<Processed>) {
    exists item :: |HoldersOf(led, item)| > 1
  }

  /** What the judge owes: the breach first, then what was missed, then the
      order where the style keeps one. */
  ghost predicate Judgement(ordered: bool, dropped: nat, led: seq<Processed>, v: Verdict) {
    if Breached(led) then
      && v.Contended? && v.why.TwoHolders?
      && v.why.who == HoldersOf(led, v.why.item) && |v.why.who| > 1
      && (v.why.injected <==> exists p :: p in led && p.injected)
    else if |ItemsOf(led)| < dropped then v == Missed(dropped - |ItemsOf(led)|)
    else if ordered && !InOrder(led) then v == Contended(Reordered)
    else v == Held(dropped)
  }

  method Holders(led: seq<Processed>) returns (holders: map<Item, set<Holder>>)
    ensures holders.Keys == ItemsOf(led)
    ensures forall item :: item in holders ==> holders[item] == HoldersOf(led, item)
  {
    holders := map[];
    for i := 0 to |led|
      invariant holders.Keys == ItemsOf(led[..i])
      invariant forall item :: item in holders ==> holders[item] == HoldersOf(led[..i], item)
    {
      var r := led[i];
      assert led[..i + 1] == led[..i] + [r];
      var who := if r.item in holders then holders[r.item] else {};
      assert who == HoldersOf(led[..i], r.item);
      holders := holders[r.item := who + {r.holder}];
    }
    assert led[..|led|] == led;
  }

  /** `places` holds the first `n` records in the order they were processed. */
  ghost predicate Placed(led: seq<Processed>, places: seq<nat>, n: nat)
    requires n <= |led|
  {
    && (forall t :: 0 <= t < |places| ==> places[t] < n)
    && (forall i: nat :: i < n ==> i in places)
    && (forall t, u :: 0 <= t < u < |places| ==> Before(led, places[t], places[u]))
  }

  lemma PlacedNext(led: seq<Processed>, places: seq<nat>, n: nat, at: nat)
    requires n < |led| && Placed(led, places, n) && at <= |places|
    requires forall t :: at <= t < |places| ==> led[n].order < led[places[t]].order
    requires at > 0 ==> led[places[at - 1]].order <= led[n].order
    ensures Placed(led, places[..at] + [n] + places[at..], n + 1)
  {
    var placed := places[..at] + [n] + places[at..];
    forall i: nat | i < n + 1 ensures i in placed {
      if i == n {
        assert placed[at] == n;
      } else {
        assert i in places;
        var t :| 0 <= t < |places| && places[t] == i;
        assert placed[if t < at then t else t + 1] == i;
      }
    }
    forall t | 0 <= t < at ensures Before(led, places[t], n) {
      if t < at - 1 { assert Before(led, places[t], places[at - 1]); }
    }
  }

  /** The records' places in the order they were processed: a stable sort. */
  method SortByOrder(led: seq<Processed>) returns (places: seq<nat>)
    ensures Placed(led, places, |led|)
  {
    places := [];
    for n := 0 to |led|
      invariant Placed(led, places, n)
    {
      var at := |places|;
      while at > 0 && led[n].order < led[places[at - 1]].order
        invariant 0 <= at <= |places|
        invariant forall t :: at <= t < |places| ==> led[n].order < led[places[t]].order
      {
        at := at - 1;
      }
      PlacedNext(led, places, n, at);
      places := places[..at] + [n] + places[at..];
    }
  }

  /** Every earlier item of a key comes before every later one. */
  ghost predicate Ascending(items: seq<Item>) {
    forall t, u :: 0 <= t < u < |items| && items[t].key == items[u].key ==> items[t].seqNo <= items[u].seqNo
  }

  /** The last-seen loop: each item against its key's last one decides every
      pair. */
  method LastSeen(items: seq<Item>) returns (ascending: bool)
    ensures ascending <==> Ascending(items)
  {
    var last: map<nat, nat> := map[];
    for t := 0 to |items|
      invariant Ascending(items[..t])
      invariant forall u :: 0 <= u < t ==> items[u].key in last && items[u].seqNo <= last[items[u].key]
      invariant forall key :: key in last ==> exists u :: 0 <= u < t && items[u] == Item(items[u].lane, key, last[key])
    {
      if items[t].key in last && items[t].seqNo < last[items[t].key] {
        return false;
      }
      last := last[items[t].key := items[t].seqNo];
    }
    assert items[..|items|] == items;
    return true;
  }

  lemma PlacesDecide(led: seq<Processed>, places: seq<nat>, items: seq<Item>)
    requires Placed(led, places, |led|)
    requires |items| == |places| && forall t :: 0 <= t < |places| ==> items[t] == led[places[t]].item
    ensures Ascending(items) <==> InOrder(led)
  {
    if Ascending(items) {
      forall i: nat, j: nat | i < |led| && j < |led| && led[i].item.key == led[j].item.key && Before(led, i, j)
        ensures led[i].item.seqNo <= led[j].item.seqNo
      {
        assert i in places && j in places;
        var t :| 0 <= t < |places| && places[t] == i;
        var u :| 0 <= u < |places| && places[u] == j;
        assert t < u || u < t || i == j;
      }
    }
  }

  /** True exactly when every same-key pair of records is in sequence. */
  method OrderedPerKey(led: seq<Processed>) returns (ordered: bool)
    ensures ordered <==> InOrder(led)
  {
    var places := SortByOrder(led);
    var items := seq(|places|, t requires 0 <= t < |places| => led[places[t]].item);
    PlacesDecide(led, places, items);
    ordered := LastSeen(items);
  }

  method Judge(ordered: bool, dropped: nat, led: seq<Processed>) returns (v: Verdict)
    ensures Judgement(ordered, dropped, led, v)
  {
    var holders := Holders(led);
    assert forall item :: item !in holders ==> HoldersOf(led, item) == {};
    if item :| item in holders && |holders[item]| > 1 {
      return Contended(TwoHolders(item, holders[item], exists p :: p in led && p.injected));
    }
    assert forall item :: |HoldersOf(led, item)| > 1 ==> item in holders;
    assert |holders.Keys| == |holders|;
    if |holders| < dropped {
      return Missed(dropped - |holders|);
    }
    if ordered {
      var kept := OrderedPerKey(led);
      if !kept {
        return Contended(Reordered);
      }
    }
    return Held(dropped);
  }

  lemma SizeOfDistinct(s: seq<Item>)
    requires forall i, j :: 0 <= i < j < |s| ==> s[i] != s[j]
    ensures |set x | x in s| == |s|
  {
    if s != [] {
      var rest := s[..|s| - 1];
      SizeOfDistinct(rest);
      assert (set x | x in s) == (set x | x in rest) + {s[|s| - 1]};
      assert s[|s| - 1] !in (set x | x in rest);
    }
  }

  function LaneSet(lane: Lane): set<Item> {
    set item | item in LaneItems(lane)
  }

  lemma LaneSetIs(sys: System, lane: Lane)
    requires lane in sys.lanes
    ensures |LaneSet(lane)| == DROPPED
    ensures forall item :: item in LaneSet(lane) <==> sys.Has(item) && item.lane == lane
  {
    SizeOfDistinct(LaneItems(lane));
    LaneItemsAll(sys, map[], lane);
    forall item | sys.Has(item) && item.lane == lane ensures item in LaneItems(lane) {
      assert LaneItems(lane)[item.key * PER_KEY + item.seqNo] == item;
    }
  }

  lemma MoreIsLarger<T>(a: set<T>, b: set<T>)
    requires a <= b
    ensures |a| <= |b|
  {
    if a != {} {
      var x :| x in a;
      MoreIsLarger(a - {x}, b - {x});
    }
  }

  /** At the join of honest readers over a lane each of its items has one holder:
      the winner of its lock. */
  lemma OneHolderEach(sys: System, run: seq<Event>, i: nat, led: seq<Processed>, item: Item)
    requires sys.Valid() && i < |sys.readers| && sys.Has(item) && item.lane == sys.readers[i].own
    requires HonestOver(sys, item.lane) && JoinedOver(sys, After(sys, Init(sys), run), item.lane)
    requires IsLedger(After(sys, Init(sys), run).files, item.lane, led)
    ensures |HoldersOf(led, item)| == 1
  {
    var s := After(sys, Init(sys), run);
    assert MayList(sys, i, item.lane);
    JoinedLaneIsDrained(sys, run, i, item);
    var winner: nat :| sys.Honest(winner) && Holds(s, sys.LockOf(item), winner)
                       && Signed(s, item, sys.readers[winner].holder);
    var holder := sys.readers[winner].holder;
    var mine := View(item, holder, s.files[Done(item, holder)]);
    assert mine in led && mine.item == item && mine.holder == holder;
    forall p | p in led && p.item == item ensures p.holder == holder {
      HonestRecord(sys, run, Done(item, p.holder));
      HonestRecord(sys, run, Done(item, holder));
      OneHonestHolder(sys, run, item, p.holder, holder);
    }
    assert HoldersOf(led, item) == {holder};
  }

  /** Over a lane only honest readers scan, every record is an honest one's. */
  lemma HonestRecord(sys: System, run: seq<Event>, n: Name)
    requires sys.Valid() && n.Done? && n in After(sys, Init(sys), run).files && HonestOver(sys, n.item.lane)
    ensures var s := After(sys, Init(sys), run);
            FileSound(sys, s, n) && s.files[n].Record? && sys.Honest(s.files[n].maker) && MayList(sys, s.files[n].maker, n.item.lane)
  {
    Reachable(sys, run);
    ReachAlways(sys, run);
    var s := After(sys, Init(sys), run);
    assert FileSound(sys, s, n) && MadeWithin(sys, n, s.files[n]);
  }

  /** Two records of one key whose files are sound and sequenced are in order. */
  lemma RecordsInOrder(sys: System, s: State, p: Processed, q: Processed)
    requires HonestOver(sys, p.item.lane) && sys.ordered && |s.control| == |sys.readers| && JoinedOver(sys, s, p.item.lane)
    requires Recorded(sys, s, p) && Recorded(sys, s, q)
    requires Sequenced(sys, s, Done(q.item, q.holder), Done(p.item, p.holder))
    requires p.item.lane == q.item.lane && p.item.key == q.item.key && p.order <= q.order
    ensures p.item.seqNo <= q.item.seqNo
  {
  }

  /** `p` is what its done record says, and the record is sound. */
  ghost predicate Recorded(sys: System, s: State, p: Processed)
    requires |s.control| == |sys.readers|
  {
    var n := Done(p.item, p.holder);
    && n in s.files && p == View(p.item, p.holder, s.files[n])
    && FileSound(sys, s, n) && s.files[n].Record? && MayList(sys, s.files[n].maker, p.item.lane)
  }

  lemma SequencedAlways(sys: System, run: seq<Event>, n: Name, m: Name)
    requires sys.Valid() && n.Done? && m.Done?
    requires n in After(sys, Init(sys), run).files && m in After(sys, Init(sys), run).files
    ensures Sequenced(sys, After(sys, Init(sys), run), n, m)
  {
    JoinReachable(sys, run);
  }

  /** And where the style is Sequential, each key is in sequence. */
  lemma KeysInOrder(sys: System, run: seq<Event>, lane: Lane, led: seq<Processed>)
    requires sys.Valid() && sys.ordered && HonestOver(sys, lane) && JoinedOver(sys, After(sys, Init(sys), run), lane)
    requires IsLedger(After(sys, Init(sys), run).files, lane, led)
    ensures InOrder(led)
  {
    var s := After(sys, Init(sys), run);
    forall i: nat, j: nat | i < |led| && j < |led| && led[i].item.key == led[j].item.key && Before(led, i, j)
      ensures led[i].item.seqNo <= led[j].item.seqNo
    {
      var n, m := Done(led[i].item, led[i].holder), Done(led[j].item, led[j].holder);
      assert led[i] in led && led[j] in led;
      HonestRecord(sys, run, n);
      HonestRecord(sys, run, m);
      SequencedAlways(sys, run, m, n);
      RecordsInOrder(sys, s, led[i], led[j]);
    }
  }

  /** The judge tells the truth of the honest: once the readers that scan a lane
      are joined, wherever anyone else is, for every order of the ledger the
      verdict is Held. */
  lemma HeldAtTheJoin(sys: System, run: seq<Event>, i: nat, led: seq<Processed>, v: Verdict)
    requires sys.Valid() && i < |sys.readers| && HonestOver(sys, sys.readers[i].own)
    requires JoinedOver(sys, After(sys, Init(sys), run), sys.readers[i].own)
    requires IsLedger(After(sys, Init(sys), run).files, sys.readers[i].own, led)
    requires Judgement(sys.ordered, DROPPED, led, v)
    ensures v == Held(DROPPED)
    ensures forall item :: sys.Has(item) && item.lane == sys.readers[i].own ==> |HoldersOf(led, item)| == 1
  {
    var s, lane := After(sys, Init(sys), run), sys.readers[i].own;
    LaneSetIs(sys, lane);
    forall item | sys.Has(item) && item.lane == lane ensures |HoldersOf(led, item)| == 1 && item in ItemsOf(led) {
      OneHolderEach(sys, run, i, led, item);
      var h :| h in HoldersOf(led, item);
    }
    forall p | p in led ensures sys.Has(p.item) {
      HonestRecord(sys, run, Done(p.item, p.holder));
    }
    assert ItemsOf(led) == LaneSet(lane);
    forall item ensures |HoldersOf(led, item)| <= 1 {
      if item !in ItemsOf(led) { assert HoldersOf(led, item) == {}; }
    }
    if sys.ordered { KeysInOrder(sys, run, lane, led); }
  }

  /** And of the broken: with the claim dropped by all that scan a lane and two
      readers of different names that own it, the verdict at their join is an
      injected contention. */
  lemma ContendedWithoutTheClaim(sys: System, run: seq<Event>, i: nat, j: nat, led: seq<Processed>, v: Verdict)
    requires sys.Valid() && i < |sys.readers| && j < |sys.readers| && BrokenOver(sys, sys.readers[i].own)
    requires sys.readers[i].own == sys.readers[j].own && sys.readers[i].holder != sys.readers[j].holder
    requires JoinedOver(sys, After(sys, Init(sys), run), sys.readers[i].own)
    requires IsLedger(After(sys, Init(sys), run).files, sys.readers[i].own, led)
    requires Judgement(sys.ordered, DROPPED, led, v)
    ensures v.Contended? && v.why.TwoHolders? && v.why.injected
  {
    var item := Item(sys.readers[i].own, 0, 0);
    JoinedBreachIsTotal(sys, run, i, item);
    JoinedBreachIsTotal(sys, run, j, item);
    Counted(After(sys, Init(sys), run), led, item, sys.readers[i].holder);
    Counted(After(sys, Init(sys), run), led, item, sys.readers[j].holder);
    MoreIsLarger({sys.readers[i].holder, sys.readers[j].holder}, HoldersOf(led, item));
  }

  lemma Counted(s: State, led: seq<Processed>, item: Item, holder: Holder)
    requires IsLedger(s.files, item.lane, led) && Done(item, holder) in s.files
    ensures holder in HoldersOf(led, item) && View(item, holder, s.files[Done(item, holder)]) in led
  {
    var p := View(item, holder, s.files[Done(item, holder)]);
    assert p in led && p.item == item && p.holder == holder;
  }

  lemma {:induction false} DoneStays(sys: System, s: State, run: seq<Event>, n: Name)
    requires Inv(sys, s) && n in s.files && n.Done?
    ensures Inv(sys, After(sys, s, run)) && n in After(sys, s, run).files
  {
    if run != [] {
      var s', e := After(sys, s, run[..|run| - 1]), run[|run| - 1];
      DoneStays(sys, s, run[..|run| - 1], n);
      NextInv(sys, s', e);
      if e.reader < |sys.readers| {
        assert Awake(sys, s', e);
        NextExtends(sys, s', e);
      }
    }
  }

  ghost predicate Drained(sys: System, s: State, lane: Lane) {
    forall item :: sys.Has(item) && item.lane == lane ==> ItemFile(item) !in s.files
  }

  lemma GoneHasRecord(sys: System, run: seq<Event>, item: Item) returns (holder: Holder)
    requires sys.Valid() && sys.Has(item) && ItemFile(item) !in After(sys, Init(sys), run).files
    ensures Done(item, holder) in After(sys, Init(sys), run).files
  {
    GoneIsSigned(sys, run, item);
    var s := After(sys, Init(sys), run);
    var winner: nat :| sys.Honest(winner) && Signed(s, item, sys.readers[winner].holder);
    holder := sys.readers[winner].holder;
    assert Signed(s, item, holder);
  }

  lemma GoneStaysCounted(sys: System, before: seq<Event>, between: seq<Event>, led: seq<Processed>, item: Item)
    requires sys.Valid() && sys.Has(item) && ItemFile(item) !in After(sys, Init(sys), before).files
    requires IsLedger(After(sys, Init(sys), before + between).files, item.lane, led)
    ensures item in ItemsOf(led)
  {
    var holder := GoneHasRecord(sys, before, item);
    assert Done(item, holder) in After(sys, Init(sys), before + between).files by {
      Reachable(sys, before);
      AfterTwo(sys, Init(sys), before, between);
      DoneStays(sys, After(sys, Init(sys), before), between, Done(item, holder));
    }
    Counted(After(sys, Init(sys), before + between), led, item, holder);
  }

  /** List the lane first and take the ledger after, whatever anyone does in
      between: a drained lane is never judged missed. */
  lemma ListThenLedger(sys: System, before: seq<Event>, between: seq<Event>, lane: Lane, led: seq<Processed>, v: Verdict)
    requires sys.Valid() && lane in sys.lanes
    requires Drained(sys, After(sys, Init(sys), before), lane)
    requires IsLedger(After(sys, Init(sys), before + between).files, lane, led)
    requires Judgement(sys.ordered, DROPPED, led, v)
    ensures LaneSet(lane) <= ItemsOf(led) && !v.Missed?
  {
    LaneSetIs(sys, lane);
    forall item | item in LaneSet(lane) ensures item in ItemsOf(led) {
      GoneStaysCounted(sys, before, between, led, item);
    }
    MoreIsLarger(LaneSet(lane), ItemsOf(led));
  }

  lemma {:induction false} FinishAll(sys: System, s: State, n: nat) returns (run: seq<Event>)
    requires JoinInv(sys, s) && n <= |sys.readers|
    ensures JoinInv(sys, After(sys, s, run))
    ensures forall i :: 0 <= i < n ==> After(sys, s, run).control[i].Finished?
    ensures forall i :: n <= i < |sys.readers| ==> After(sys, s, run).control[i] == s.control[i]
  {
    if n == 0 {
      run := [];
    } else {
      var first := FinishAll(sys, s, n - 1);
      var last := Finish(sys, After(sys, s, first), n - 1);
      run := first + last;
      AfterTwo(sys, s, first, last);
    }
  }

  /** No run is stuck: whatever was done so far, the readers can be joined. */
  lemma EveryRunCanJoin(sys: System, run: seq<Event>) returns (rest: seq<Event>)
    requires sys.Valid()
    ensures Joined(After(sys, Init(sys), run + rest))
  {
    JoinReachable(sys, run);
    rest := FinishAll(sys, After(sys, Init(sys), run), |sys.readers|);
    AfterTwo(sys, Init(sys), run, rest);
  }
}
