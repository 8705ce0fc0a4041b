/**
  What holds of retention over every sequence of clock readings, backward ones
  too.
 */
module RetentionRuns {
  import opened Bytes
  import opened Contracts
  import opened Retentions

  ghost predicate Ascending(items: seq<Item>) {
    forall i, j :: 0 <= i < j < |items| ==> items[i].id < items[j].id
  }

  ghost predicate Below(items: seq<Item>, next: nat) {
    forall i :: 0 <= i < |items| ==> items[i].id < next
  }

  ghost predicate Inv(rules: Rules, b: Books) {
    Accounts(rules, b.live, b.archived, b.store, b.emitted, b.next)
  }

  /** Everything the first `n` ids were created as, each once. */
  ghost function Made(mint: nat -> Item, n: nat): multiset<Item> {
    if n == 0 then multiset{} else Made(mint, n - 1) + multiset{mint(n - 1)}
  }

  lemma {:induction false} BatchJoins(mint: nat -> Item, b: nat, c: nat)
    requires b <= c
    ensures Made(mint, c) == Made(mint, b) + multiset(Batch(mint, b, c))
  {
    if b < c {
      BatchJoins(mint, b, c - 1);
      Appended(Batch(mint, b, c - 1), mint(c - 1));
    }
  }

  lemma Appended(items: seq<Item>, item: Item)
    ensures multiset(items + [item]) == multiset(items) + multiset{item}
  {
  }

  /** Each id is on what it is created as. */
  ghost predicate Numbers(mint: nat -> Item) {
    forall id :: mint(id).id == id
  }

  lemma {:induction false} BatchFollows(mint: nat -> Item, live: seq<Item>, next: nat, next': nat)
    requires Numbers(mint) && next <= next' && Ascending(live) && Below(live, next)
    ensures Ascending(live + Batch(mint, next, next')) && Below(live + Batch(mint, next, next'), next')
  {
    if next < next' {
      BatchFollows(mint, live, next, next' - 1);
      assert live + Batch(mint, next, next') == live + Batch(mint, next, next' - 1) + [mint(next' - 1)];
    } else {
      assert live + [] == live;
    }
  }

  lemma RealNumbers(rules: Rules)
    requires Real(rules)
    ensures Numbers(rules.mint)
  {
    forall id: nat ensures rules.mint(id).id == id { assert Minted(id).id == id; }
  }

  ghost predicate Accounts(rules: Rules, live: seq<Item>, archived: seq<Item>, store: seq<seq<Byte>>, emitted: nat, next: nat) {
    && next == emitted * CLASSES
    && Ascending(live)
    && Below(live, next)
    && multiset(live) + multiset(archived) == Made(rules.mint, next)
    && store == Labels(rules, archived)
  }

  lemma GrownInv(rules: Rules, b: Books, day: nat)
    requires Numbers(rules.mint) && Inv(rules, b) && b.emitted <= day
    ensures Inv(rules, Grown(rules, b, day))
  {
    var b' := Grown(rules, b, day);
    var batch := Batch(rules.mint, b.next, b'.next);
    BatchJoins(rules.mint, b.next, b'.next);
    BatchFollows(rules.mint, b.live, b.next, b'.next);
    Counts(b.live, batch, b.archived);
  }

  lemma Counts(live: seq<Item>, batch: seq<Item>, archived: seq<Item>)
    ensures multiset(live + batch) + multiset(archived) == multiset(live) + multiset(archived) + multiset(batch)
  {
  }

  lemma CreatedInv(rules: Rules, b: Books, now: nat)
    requires Numbers(rules.mint) && Inv(rules, b)
    ensures Inv(rules, Created(rules, b, now))
  {
    if b.emitted < Target(now, b.emitted) { GrownInv(rules, b, Target(now, b.emitted)); }
  }

  /** A sweep parts the items: each is kept or gone, and none is made or lost. */
  lemma {:induction false} SweepParts(stays: Item -> bool, items: seq<Item>)
    ensures multiset(Kept(stays, items)) + multiset(Gone(stays, items)) == multiset(items)
  {
    if items != [] {
      var n := |items| - 1;
      SweepParts(stays, items[..n]);
      OneMoreParted(items[..n], Kept(stays, items[..n]), Gone(stays, items[..n]), items[n], stays(items[n]));
      assert items == items[..n] + [items[n]];
    }
  }

  lemma OneMoreParted(items: seq<Item>, kept: seq<Item>, gone: seq<Item>, item: Item, stays: bool)
    requires multiset(kept) + multiset(gone) == multiset(items)
    ensures multiset(kept + if stays then [item] else []) + multiset(gone + if stays then [] else [item]) ==
            multiset(items + [item])
  {
  }

  lemma {:induction false} KeptIs(stays: Item -> bool, items: seq<Item>)
    requires Ascending(items)
    ensures Ascending(Kept(stays, items))
    ensures forall x :: x in Kept(stays, items) <==> x in items && stays(x)
  {
    if items != [] {
      var n := |items| - 1;
      KeptIs(stays, items[..n]);
      var kept := Kept(stays, items[..n]);
      assert items == items[..n] + [items[n]];
      forall i | 0 <= i < |kept| ensures kept[i].id < items[n].id {
        assert kept[i] in kept;
      }
    }
  }

  lemma KeptBelow(stays: Item -> bool, items: seq<Item>, next: nat)
    requires Ascending(items) && Below(items, next)
    ensures Below(Kept(stays, items), next)
  {
    KeptIs(stays, items);
    var kept := Kept(stays, items);
    forall i | 0 <= i < |kept| ensures kept[i].id < next {
      assert kept[i] in kept;
    }
  }

  lemma SweptInv(rules: Rules, b: Books, now: nat)
    requires Inv(rules, b)
    ensures Inv(rules, Swept(rules, b, now))
  {
    var stays := Staying(rules, now, b.round);
    KeptIs(stays, b.live);
    KeptBelow(stays, b.live, b.next);
    SweepParts(stays, b.live);
    var kept, gone := Kept(stays, b.live), Gone(stays, b.live);
    MovesOver(b.live, b.archived, kept, gone);
    LabelsJoin(rules, b.archived, gone);
  }

  lemma {:induction false} LabelsJoin(rules: Rules, a: seq<Item>, b: seq<Item>)
    ensures Labels(rules, a + b) == Labels(rules, a) + Labels(rules, b)
  {
    if b == [] {
      assert a + b == a;
    } else {
      var n := |b| - 1;
      LabelsJoin(rules, a, b[..n]);
      assert (a + b)[..|a| + n] == a + b[..n];
    }
  }

  lemma MovesOver(live: seq<Item>, archived: seq<Item>, kept: seq<Item>, gone: seq<Item>)
    requires multiset(kept) + multiset(gone) == multiset(live)
    ensures multiset(kept) + multiset(archived + gone) == multiset(live) + multiset(archived)
  {
  }

  lemma MadeInv(rules: Rules, b: Books, now: nat)
    requires Numbers(rules.mint) && Inv(rules, b)
    ensures Inv(rules, Created(rules, NextRound(b), now))
  {
    CreatedInv(rules, NextRound(b), now);
  }

  lemma TickedInv(rules: Rules, b: Books, now: nat)
    requires Numbers(rules.mint) && Inv(rules, b)
    ensures Inv(rules, Ticked(rules, b, now))
  {
    MadeInv(rules, b, now);
    SweptInv(rules, Created(rules, NextRound(b), now), now);
  }

  lemma RunNext(rules: Rules, clock: seq<nat>)
    requires clock != []
    ensures Run(rules, clock) == Ticked(rules, Run(rules, clock[..|clock| - 1]), clock[|clock| - 1])
  {
  }

  lemma {:induction false} RunInv(rules: Rules, clock: seq<nat>)
    requires Numbers(rules.mint)
    ensures Inv(rules, Run(rules, clock))
  {
    if clock != [] {
      var n := |clock| - 1;
      RunInv(rules, clock[..n]);
      TickedInv(rules, Run(rules, clock[..n]), clock[n]);
      RunNext(rules, clock);
    }
  }

  lemma {:induction false} MadeOnce(mint: nat -> Item, n: nat, item: Item)
    requires Numbers(mint)
    ensures Made(mint, n)[item] == if item == mint(item.id) && item.id < n then 1 else 0
  {
    if n > 0 { MadeOnce(mint, n - 1, item); }
  }

  /** Conservation: after any run every id ever created names one item, in
      exactly one of live and archived; no other item is in either; and the store
      holds the archived ones. */
  lemma EveryItemOnce(rules: Rules, clock: seq<nat>, item: Item)
    requires Real(rules)
    ensures var b := Run(rules, clock);
            && multiset(b.live)[item] + multiset(b.archived)[item] ==
                 (if item == Minted(item.id) && item.id < b.next then 1 else 0)
            && b.store == Labels(rules, b.archived) && b.next == b.emitted * CLASSES
  {
    var b := Run(rules, clock);
    RealNumbers(rules);
    RunInv(rules, clock);
    MadeOnce(rules.mint, b.next, item);
    assert (multiset(b.live) + multiset(b.archived))[item] == Made(rules.mint, b.next)[item];
  }

  lemma KeptWasMissed(rules: Rules, made: Books, now: nat, c: Contract)
    requires Ascending(made.live) && Overdue(rules, now, Swept(rules, made, now).live, c)
    ensures Missed(rules, c, made.round)
  {
    KeptIs(Staying(rules, now, made.round), made.live);
  }

  /** Nothing overdue is left by a round that missed no sweep of its class. */
  lemma OverdueWasMissed(rules: Rules, clock: seq<nat>, c: Contract)
    requires Numbers(rules.mint) && clock != []
    requires Overdue(rules, clock[|clock| - 1], Run(rules, clock).live, c)
    ensures Missed(rules, c, |clock|)
  {
    var n := |clock| - 1;
    var b := Run(rules, clock[..n]);
    RoundIs(rules, clock[..n]);
    RunInv(rules, clock[..n]);
    MadeInv(rules, b, clock[n]);
    KeptWasMissed(rules, Created(rules, NextRound(b), clock[n]), clock[n], c);
  }

  lemma {:induction false} RoundIs(rules: Rules, clock: seq<nat>)
    ensures Run(rules, clock).round == |clock|
  {
    if clock != [] { RoundIs(rules, clock[..|clock| - 1]); }
  }

  ghost predicate NoMisses(rules: Rules) {
    forall c, round :: !Missed(rules, c, round)
  }

  /** The day an item was created on, by its id. */
  function DayOf(id: nat): nat {
    id / CLASSES + 1
  }

  /** The policy is the ninety days' one. */
  ghost predicate KeepsNinetyDays(rules: Rules) {
    forall age: nat :: rules.policy(age).Archive? <==> age >= 90 * 86400
  }

  lemma RulesKeepNinetyDays(skip: (Contract, nat) -> bool, fault: (Contract, nat) -> bool)
    ensures KeepsNinetyDays(RulesOf(skip, fault))
  {
  }

  lemma PastByDays(rules: Rules, now: nat, id: nat)
    requires KeepsNinetyDays(rules)
    ensures PastWindow(rules, now, Minted(id)) <==> now / DAY >= DayOf(id) + 90
  {
  }

  lemma SweptLive(rules: Rules, made: Books, now: nat, item: Item)
    requires Ascending(made.live) && NoMisses(rules) && item in Swept(rules, made, now).live
    ensures item in made.live && !PastWindow(rules, now, item)
  {
    KeptIs(Staying(rules, now, made.round), made.live);
  }

  /** What one round leaves live was live or made before it, and is not overdue. */
  lemma TickedLive(rules: Rules, b: Books, now: nat, item: Item)
    requires Numbers(rules.mint) && Inv(rules, b) && NoMisses(rules) && item in Ticked(rules, b, now).live
    ensures item in Created(rules, NextRound(b), now).live && !PastWindow(rules, now, item)
  {
    MadeInv(rules, b, now);
    SweptLive(rules, Created(rules, NextRound(b), now), now, item);
  }

  lemma StillEmitted(rules: Rules, b: Books, now: nat)
    ensures var emitted := Ticked(rules, b, now).emitted;
            (emitted == b.emitted && Created(rules, NextRound(b), now).live == b.live) || emitted <= now / DAY
  {
  }

  /** With no sweep missed, whatever is live was created in the last ninety days
      of creation, whatever the clock does. */
  lemma {:induction false} LiveIsRecent(rules: Rules, clock: seq<nat>, item: Item)
    requires Real(rules) && NoMisses(rules) && KeepsNinetyDays(rules) && item in Run(rules, clock).live
    ensures DayOf(item.id) + 90 > Run(rules, clock).emitted
  {
    var n := |clock| - 1;
    var b := Run(rules, clock[..n]);
    RunNext(rules, clock);
    RealNumbers(rules);
    RunInv(rules, clock[..n]);
    TickedLive(rules, b, clock[n], item);
    StillEmitted(rules, b, clock[n]);
    EveryItemOnce(rules, clock, item);
    PastByDays(rules, clock[n], item.id);
    if Run(rules, clock).emitted > clock[n] / DAY {
      LiveIsRecent(rules, clock[..n], item);
    }
  }

  lemma {:induction false} AscendingFits(items: seq<Item>, lo: nat, hi: nat)
    requires Ascending(items) && lo <= hi
    requires forall i :: 0 <= i < |items| ==> lo <= items[i].id < hi
    ensures |items| <= hi - lo
  {
    if items != [] {
      var n := |items| - 1;
      AscendingFits(items[..n], lo, items[n].id);
    }
  }

  /** With no sweep missed, the working set never outgrows its window. */
  lemma LiveIsBounded(rules: Rules, clock: seq<nat>)
    requires Real(rules) && NoMisses(rules) && KeepsNinetyDays(rules)
    ensures |Run(rules, clock).live| <= 1800
  {
    var b := Run(rules, clock);
    RealNumbers(rules);
    RunInv(rules, clock);
    var lo := if b.emitted < 90 then 0 else (b.emitted - 90) * CLASSES;
    forall i | 0 <= i < |b.live| ensures lo <= b.live[i].id {
      LiveIsRecent(rules, clock, b.live[i]);
    }
    AscendingFits(b.live, lo, b.next);
  }

  ghost predicate WasDue(rules: Rules, clock: seq<nat>, item: Item) {
    exists i :: 0 <= i < |clock| && PastWindow(rules, clock[i], item)
  }

  lemma {:induction false} GoneIs(stays: Item -> bool, items: seq<Item>, x: Item)
    requires x in Gone(stays, items)
    ensures x in items && !stays(x)
  {
    var n := |items| - 1;
    if x in Gone(stays, items[..n]) {
      GoneIs(stays, items[..n], x);
    }
  }

  /** Nothing is archived before its time, and nothing comes back. */
  lemma {:induction false} ArchivedWasDue(rules: Rules, clock: seq<nat>, item: Item)
    requires item in Run(rules, clock).archived
    ensures WasDue(rules, clock, item)
  {
    var n := |clock| - 1;
    var before := Run(rules, clock[..n]);
    var b := Created(rules, NextRound(before), clock[n]);
    if item in before.archived {
      ArchivedWasDue(rules, clock[..n], item);
      var i :| 0 <= i < n && PastWindow(rules, clock[..n][i], item);
      assert PastWindow(rules, clock[i], item);
    } else {
      GoneIs(Staying(rules, clock[n], b.round), b.live, item);
      assert PastWindow(rules, clock[n], item);
    }
  }

  lemma {:induction false} ArchivedStays(rules: Rules, clock: seq<nat>, n: nat)
    requires n <= |clock|
    ensures Run(rules, clock[..n]).archived <= Run(rules, clock).archived
  {
    if n < |clock| {
      ArchivedStays(rules, clock[..|clock| - 1], n);
      assert clock[..|clock| - 1][..n] == clock[..n];
    } else {
      assert clock[..n] == clock;
    }
  }
}
