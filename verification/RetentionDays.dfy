/**
  Which days retention has come to, over every sequence of clock readings, and what
  each day it has come to has left.
 */
module RetentionDays {
  import opened Bytes
  import opened Contracts
  import opened Retentions
  import opened RetentionRuns

  /** A round comes up to its day, sixty days of it at most, and never goes back. */
  ghost predicate ComesTo(emitted: nat, emitted': nat, day: nat) {
    && (day <= emitted ==> emitted' == emitted)
    && (emitted < day <= emitted + 60 ==> emitted' == day)
    && (emitted + 60 < day ==> emitted' == emitted + 60)
  }

  lemma TickComesTo(rules: Rules, b: Books, now: nat)
    ensures ComesTo(b.emitted, Ticked(rules, b, now).emitted, now / 86400)
  {
  }

  /** Rounds that all read one clock. */
  function Again(now: nat, n: nat): seq<nat> {
    seq(n, _ => now)
  }

  lemma OneMoreRound(rules: Rules, clock: seq<nat>, now: nat, n: nat)
    requires n > 0
    ensures Run(rules, clock + Again(now, n)) == Ticked(rules, Run(rules, clock + Again(now, n - 1)), now)
  {
    var all := clock + Again(now, n);
    assert all[..|all| - 1] == clock + Again(now, n - 1);
  }

  /** It catches up: some rounds of one day on, the days reached are that day or
      sixty for each round, whichever is less; a day not ahead changes nothing. */
  lemma {:induction false} CatchesUp(rules: Rules, clock: seq<nat>, now: nat, n: nat)
    ensures var before, after, day := Run(rules, clock).emitted, Run(rules, clock + Again(now, n)).emitted, now / 86400;
            after == if day <= before then before else if day <= before + 60 * n then day else before + 60 * n
  {
    if n == 0 {
      assert clock + Again(now, 0) == clock;
    } else {
      CatchesUp(rules, clock, now, n - 1);
      OneMoreRound(rules, clock, now, n);
      TickComesTo(rules, Run(rules, clock + Again(now, n - 1)), now);
      Nearer(Run(rules, clock).emitted, Run(rules, clock + Again(now, n - 1)).emitted,
             Run(rules, clock + Again(now, n)).emitted, now / 86400, n);
    }
  }

  lemma Nearer(before: nat, mid: nat, after: nat, day: nat, n: nat)
    requires n > 0 && ComesTo(mid, after, day)
    requires mid == if day <= before then before else if day <= before + 60 * (n - 1) then day else before + 60 * (n - 1)
    ensures after == if day <= before then before else if day <= before + 60 * n then day else before + 60 * n
  {
  }

  /** So however far the clock jumped, enough rounds at one reading come to its day. */
  lemma EveryDayIsReached(rules: Rules, clock: seq<nat>, now: nat)
    ensures Run(rules, clock + Again(now, now / 86400)).emitted >= now / 86400
  {
    CatchesUp(rules, clock, now, now / 86400);
  }

  /** The days come to are the highest a reading called for at most. */
  lemma {:induction false} NoDayAhead(rules: Rules, clock: seq<nat>)
    ensures Run(rules, clock).emitted == 0 || exists i :: 0 <= i < |clock| && Run(rules, clock).emitted <= clock[i] / 86400
  {
    if clock != [] {
      var n := |clock| - 1;
      NoDayAhead(rules, clock[..n]);
      RunNext(rules, clock);
      TickComesTo(rules, Run(rules, clock[..n]), clock[n]);
      if Run(rules, clock).emitted == Run(rules, clock[..n]).emitted && Run(rules, clock).emitted != 0 {
        var i :| 0 <= i < n && Run(rules, clock[..n]).emitted <= clock[..n][i] / 86400;
        assert Run(rules, clock).emitted <= clock[i] / 86400;
      } else {
        assert Run(rules, clock).emitted == 0 || Run(rules, clock).emitted <= clock[n] / 86400;
      }
    }
  }

  predicate IsKept(b: Books, item: Item) {
    item in b.live || item in b.archived
  }

  /** The item of a class on a day. */
  function Of(c: Contract, day: nat): Item
    requires day >= 1
  {
    Item(c, day * 86400, (day - 1) * 20 + Index(c))
  }

  lemma OfIsMinted(c: Contract, day: nat)
    requires day >= 1
    ensures Minted(Of(c, day).id) == Of(c, day)
  {
    MintedOn(day, Index(c));
  }

  lemma IdsOfDays(day: nat, i: nat, emitted: nat)
    requires day >= 1 && i < 20
    ensures (day - 1) * 20 + i < emitted * 20 <==> day <= emitted
  {
  }

  /** Every day come to has its twenty items and no other, one of each class made
      that day, each in exactly one of live and archived. */
  lemma DayHasItsItems(rules: Rules, clock: seq<nat>, day: nat, c: Contract)
    requires Real(rules) && 1 <= day <= Run(rules, clock).emitted
    ensures var b := Run(rules, clock);
            && multiset(b.live)[Of(c, day)] + multiset(b.archived)[Of(c, day)] == 1
            && forall item :: IsKept(b, item) && item.contract == c && item.created == day * 86400 ==> item == Of(c, day)
  {
    var b := Run(rules, clock);
    EveryItemOnce(rules, clock, Of(c, day));
    OfIsMinted(c, day);
    IdsOfDays(day, Index(c), b.emitted);
    forall item | IsKept(b, item) && item.contract == c && item.created == day * 86400 ensures item == Of(c, day) {
      KeptIsMade(rules, clock, item);
    }
  }

  /** And whatever is kept is of a day come to. */
  lemma KeptIsMade(rules: Rules, clock: seq<nat>, item: Item)
    requires Real(rules) && IsKept(Run(rules, clock), item)
    ensures 1 <= item.created / 86400 <= Run(rules, clock).emitted
    ensures item == Of(item.contract, item.created / 86400)
  {
    var b := Run(rules, clock);
    EveryItemOnce(rules, clock, item);
    assert multiset(b.live)[item] + multiset(b.archived)[item] > 0;
    var day := item.id / 20 + 1;
    assert item.created == day * 86400 && item.created / 86400 == day;
    IndexIs(item.id % 20);
    IdsOfDays(day, item.id % 20, b.emitted);
  }

  // What the store tells apart.

  lemma NoWordIsHashed(c: Contract)
    ensures '#' !in Word(c)
  {
  }

  lemma NoClassIsHashed(c: Contract)
    ensures HASH !in Name(c)
  {
    NoWordIsHashed(c);
    WordIsPlain(c);
    forall i | 0 <= i < |Name(c)| ensures Name(c)[i] != HASH {
      assert Word(c)[i] in Word(c) && Name(c)[i] == Word(c)[i] as int;
    }
  }

  lemma HashSplits(a: seq<Byte>, rest: seq<Byte>)
    requires HASH !in a
    ensures var s := a + [HASH] + rest;
            Find(s, HASH) == |a| && s[..|a|] == a && s[|a| + 1..] == rest
  {
    FindFirst(a, HASH, rest);
  }

  lemma LabelIs(item: Item)
    ensures Identifier(item, false) == Name(item.contract) + [HASH] + Decimal(item.id)
  {
    Joins(Name(item.contract), [HASH], Decimal(item.id));
  }

  lemma Joins(a: seq<Byte>, b: seq<Byte>, c: seq<Byte>)
    ensures [] + a + (b + c) == a + b + c
  {
  }

  lemma LabelSplits(item: Item)
    ensures var tag := Identifier(item, false);
            Find(tag, HASH) == |Name(item.contract)|
            && tag[..|Name(item.contract)|] == Name(item.contract)
            && tag[|Name(item.contract)| + 1..] == Decimal(item.id)
  {
    NoClassIsHashed(item.contract);
    LabelIs(item);
    HashSplits(Name(item.contract), Decimal(item.id));
  }

  /** A label tells its item's class and id. */
  lemma LabelTells(a: Item, b: Item)
    requires Identifier(a, false) == Identifier(b, false)
    ensures a.contract == b.contract && a.id == b.id
  {
    LabelSplits(a);
    LabelSplits(b);
    NamesDiffer(a.contract, b.contract);
    DecimalValue(a.id);
    DecimalValue(b.id);
  }

  lemma {:induction false} LabelsAre(rules: Rules, items: seq<Item>)
    ensures |Labels(rules, items)| == |items|
    ensures forall i :: 0 <= i < |items| ==> Labels(rules, items)[i] == rules.tagged(items[i], false)
  {
    if items != [] { LabelsAre(rules, items[..|items| - 1]); }
  }

  lemma AtMostOnce(items: seq<Item>, i: nat, j: nat)
    requires i < j < |items| && items[i] == items[j]
    ensures multiset(items)[items[i]] >= 2
  {
    assert items == items[..j] + items[j..];
    assert items[i] in items[..j] && items[j..][0] == items[i];
  }

  /** The store holds each archived item once, under a label no other has. */
  lemma StoreTellsItems(skip: (Contract, nat) -> bool, fault: (Contract, nat) -> bool, clock: seq<nat>, i: nat, j: nat)
    requires i < j < |Run(RulesOf(skip, fault), clock).archived|
    ensures var b := Run(RulesOf(skip, fault), clock);
            && |b.store| == |b.archived| && b.store[i] == Identifier(b.archived[i], false)
            && b.archived[i] != b.archived[j] && b.store[i] != b.store[j]
  {
    var rules := RulesOf(skip, fault);
    var b := Run(rules, clock);
    RulesAreReal(skip, fault);
    EveryItemOnce(rules, clock, b.archived[i]);
    EveryItemOnce(rules, clock, b.archived[j]);
    LabelsAre(rules, b.archived);
    if b.archived[i] == b.archived[j] { AtMostOnce(b.archived, i, j); }
    if b.store[i] == b.store[j] {
      LabelTells(b.archived[i], b.archived[j]);
    }
  }
}
