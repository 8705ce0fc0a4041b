/**
  Retention over a simulated clock: items are created one per content class per
  day, retained while young, then archived, and never deleted.
 */
module Retentions {
  import opened Bytes
  import opened Contracts

  const DAY: nat := 86400
  const KEEP_DAYS: nat := 90
  const MAX_DAYS_PER_TICK: nat := 60
  const CLASSES: nat := 20

  datatype Item = Item(contract: Contract, created: nat, id: nat)

  /** The item an id was created as: one of each class a day, in their order. */
  function Minted(id: nat): (item: Item)
    ensures item.id == id
  {
    Item(CONTRACTS[id % CLASSES], (id / CLASSES + 1) * DAY, id)
  }

  lemma MintedOn(day: nat, i: nat)
    requires day >= 1 && i < CLASSES
    ensures Minted((day - 1) * CLASSES + i) == Item(CONTRACTS[i], day * DAY, (day - 1) * CLASSES + i)
  {
    var id := (day - 1) * CLASSES + i;
    assert id / CLASSES == day - 1 && id % CLASSES == i;
  }

  /** What the ids from `first` to before `end` are created as. */
  function Batch(mint: nat -> Item, first: nat, end: nat): (items: seq<Item>)
    requires first <= end
  {
    if first == end then [] else Batch(mint, first, end - 1) + [mint(end - 1)]
  }

  lemma {:induction false} BatchTwo(mint: nat -> Item, first: nat, mid: nat, end: nat)
    requires first <= mid <= end
    ensures Batch(mint, first, end) == Batch(mint, first, mid) + Batch(mint, mid, end)
  {
    if mid < end { BatchTwo(mint, first, mid, end - 1); }
  }

  function Age(now: nat, item: Item): nat {
    if now < item.created then 0 else now - item.created
  }

  datatype Action = Keep | Archive

  function ActionFor(age: nat): Action {
    if age / DAY < KEEP_DAYS then Keep else Archive
  }

  /** What ages are kept; which sweeps are missed, by class and round, left undone or
      refused by the store; what an id is created as; and how an item is labelled,
      poisoned or not, and what label the store refuses. `RulesOf` is what is in use. */
  datatype Rules = Rules(policy: nat -> Action, skip: (Contract, nat) -> bool, fault: (Contract, nat) -> bool,
                         mint: nat -> Item, tagged: (Item, bool) -> seq<Byte>, refuses: seq<Byte> -> bool)

  predicate PastWindow(rules: Rules, now: nat, item: Item) {
    rules.policy(Age(now, item)).Archive?
  }

  const POISON: seq<Byte> := [112, 111, 105, 115, 111, 110, 45]
  const HASH: Byte := 35

  function Identifier(item: Item, poisoned: bool): seq<Byte> {
    (if poisoned then POISON else []) + Name(item.contract) + ([HASH] + Decimal(item.id))
  }

  predicate StoreRefuses(identifier: seq<Byte>) {
    |POISON| <= |identifier| && identifier[..|POISON|] == POISON
  }

  lemma NoWordIsPoison(c: Contract)
    ensures |Word(c)| >= 2 && (Word(c)[0] == 'p' ==> Word(c)[1] == 'r')
  {
  }

  lemma NoClassIsPoison(c: Contract)
    ensures |Name(c)| >= 2 && Name(c)[..2] != POISON[..2]
  {
    NoWordIsPoison(c);
    var name := Name(c);
    assert name[0] == Word(c)[0] as int && name[1] == Word(c)[1] as int;
    assert name[..2][0] == name[0] && name[..2][1] == name[1];
  }

  /** The store refuses exactly what was poisoned: no class is called so. */
  lemma RefusesThePoisoned(item: Item, poisoned: bool)
    ensures StoreRefuses(Identifier(item, poisoned)) <==> poisoned
  {
    NoClassIsPoison(item.contract);
    PoisonIsRefused(Name(item.contract), [HASH] + Decimal(item.id), poisoned);
  }

  lemma PoisonIsRefused(name: seq<Byte>, rest: seq<Byte>, poisoned: bool)
    requires |name| >= 2 && name[..2] != POISON[..2]
    ensures StoreRefuses((if poisoned then POISON else []) + name + rest) <==> poisoned
  {
    var identifier := (if poisoned then POISON else []) + name + rest;
    if poisoned {
      assert identifier[..|POISON|] == POISON;
    } else if |POISON| <= |identifier| {
      assert identifier[..|POISON|][..2] == name[..2];
    }
  }

  function RulesOf(skip: (Contract, nat) -> bool, fault: (Contract, nat) -> bool): Rules {
    Rules(ActionFor, skip, fault, Minted, Identifier, StoreRefuses)
  }

  /** Ids are created a day's classes at a time, and the store refuses what was
      poisoned and nothing else. */
  ghost predicate Real(rules: Rules) {
    && (forall id {:trigger Minted(id)} :: rules.mint(id) == Minted(id))
    && (forall item, poisoned :: rules.refuses(rules.tagged(item, poisoned)) <==> poisoned)
  }

  lemma RulesAreReal(skip: (Contract, nat) -> bool, fault: (Contract, nat) -> bool)
    ensures Real(RulesOf(skip, fault))
  {
    forall item, poisoned ensures StoreRefuses(Identifier(item, poisoned)) <==> poisoned {
      RefusesThePoisoned(item, poisoned);
    }
  }

  predicate Missed(rules: Rules, contract: Contract, round: nat) {
    rules.skip(contract, round) || rules.fault(contract, round)
  }

  /** What is kept and where. */
  datatype Books = Books(live: seq<Item>, archived: seq<Item>, store: seq<seq<Byte>>,
                         round: nat, emitted: nat, next: nat)

  const EMPTY := Books([], [], [], 0, 0, 0)

  datatype Leaks = Leaks(retain: set<Contract>, archive: set<Contract>)

  function Target(now: nat, emitted: nat): nat {
    if now / DAY < emitted + MAX_DAYS_PER_TICK then now / DAY else emitted + MAX_DAYS_PER_TICK
  }

  /** A day newly reached brings an item of each class. */
  function Created(rules: Rules, b: Books, now: nat): Books {
    if b.emitted < Target(now, b.emitted) then Grown(rules, b, Target(now, b.emitted)) else b
  }

  /** The books once the days to `day` brought their items. */
  function Grown(rules: Rules, b: Books, day: nat): Books
    requires b.emitted <= day
  {
    var next := b.next + (day - b.emitted) * CLASSES;
    Books(b.live + Batch(rules.mint, b.next, next), b.archived, b.store, b.round, day, next)
  }

  predicate Stays(rules: Rules, now: nat, round: nat, item: Item) {
    PastWindow(rules, now, item) ==> Missed(rules, item.contract, round)
  }

  function Staying(rules: Rules, now: nat, round: nat): Item -> bool {
    (item: Item) => Stays(rules, now, round, item)
  }

  /** What a sweep keeps live, and what it archives, in their order. */
  function Kept(stays: Item -> bool, items: seq<Item>): seq<Item> {
    if items == [] then [] else
    var n := |items| - 1;
    Kept(stays, items[..n]) + if stays(items[n]) then [items[n]] else []
  }

  function Gone(stays: Item -> bool, items: seq<Item>): seq<Item> {
    if items == [] then [] else
    var n := |items| - 1;
    Gone(stays, items[..n]) + if stays(items[n]) then [] else [items[n]]
  }

  function Labels(rules: Rules, items: seq<Item>): seq<seq<Byte>> {
    if items == [] then [] else Labels(rules, items[..|items| - 1]) + [rules.tagged(items[|items| - 1], false)]
  }

  lemma LabelsNext(rules: Rules, items: seq<Item>, item: Item)
    ensures Labels(rules, items + [item]) == Labels(rules, items) + [rules.tagged(item, false)]
    ensures items + [] == items
  {
    assert (items + [item])[..|items|] == items;
  }

  function Swept(rules: Rules, b: Books, now: nat): Books {
    var stays := Staying(rules, now, b.round);
    var gone := Gone(stays, b.live);
    b.(live := Kept(stays, b.live), archived := b.archived + gone,
       store := b.store + Labels(rules, gone))
  }

  function NextRound(b: Books): Books {
    b.(round := b.round + 1)
  }

  function Ticked(rules: Rules, b: Books, now: nat): Books {
    Swept(rules, Created(rules, NextRound(b), now), now)
  }

  /** The books after a whole run of clock readings. */
  function Run(rules: Rules, clock: seq<nat>): Books {
    if clock == [] then EMPTY else Ticked(rules, Run(rules, clock[..|clock| - 1]), clock[|clock| - 1])
  }

  ghost predicate Overdue(rules: Rules, now: nat, items: seq<Item>, contract: Contract) {
    exists item :: item in items && item.contract == contract && PastWindow(rules, now, item)
  }

  /** The leaks a sweep must find: for each class with an overdue item still
      live, in the set of what held it back. */
  ghost predicate Truthful(rules: Rules, now: nat, round: nat, live: seq<Item>, leaks: Leaks) {
    forall c :: && (c in leaks.retain <==> Overdue(rules, now, live, c) && rules.skip(c, round))
                && (c in leaks.archive <==> Overdue(rules, now, live, c) && !rules.skip(c, round))
  }

  class Retention {
    const rules: Rules
    var live: seq<Item>
    var archived: seq<Item>
    var store: seq<seq<Byte>>
    var round: nat
    var emitted: nat
    var nextId: nat

    ghost function Contents(): Books
      reads this
    {
      Books(live, archived, store, round, emitted, nextId)
    }

    /** As many items were made as days were reached, one of each class a day. */
    ghost predicate Valid()
      reads this
    {
      nextId == emitted * CLASSES && Real(rules)
    }

    constructor (skip: (Contract, nat) -> bool, fault: (Contract, nat) -> bool)
      ensures Valid() && rules == RulesOf(skip, fault) && Contents() == EMPTY
    {
      RulesAreReal(skip, fault);
      rules := RulesOf(skip, fault);
      live, archived, store, round, emitted, nextId := [], [], [], 0, 0, 0;
    }

    /** One item of each class for `today`. */
    method CreateDay(today: nat)
      requires Real(rules) && today >= 1 && nextId == (today - 1) * CLASSES
      modifies this`live, this`nextId
      ensures nextId == old(nextId) + CLASSES && live == old(live) + Batch(rules.mint, old(nextId), nextId)
    {
      ghost var was, first := live, nextId;
      var created := today * DAY;
      for i := 0 to CLASSES
        invariant nextId == first + i && live == was + Batch(rules.mint, first, nextId)
      {
        var item := Item(CONTRACTS[i], created, nextId);
        MintedOn(today, i);
        assert rules.mint(nextId) == item;
        live := live + [item];
        nextId := nextId + 1;
      }
    }

    /** Catch up with the clock, a day at a time and sixty at most. */
    method CreateThrough(now: nat)
      requires Valid()
      modifies this`live, this`emitted, this`nextId
      ensures Valid() && Contents() == Created(rules, old(Contents()), now)
      ensures old(emitted) <= emitted <= old(emitted) + MAX_DAYS_PER_TICK
      ensures now / DAY <= emitted || emitted == old(emitted) + MAX_DAYS_PER_TICK
      ensures emitted == old(emitted) || emitted <= now / DAY
    {
      var target := Target(now, emitted);
      ghost var was, first := live, nextId;
      while emitted < target
        invariant old(emitted) <= emitted && (emitted <= target || emitted == old(emitted))
        invariant nextId == emitted * CLASSES && live == was + Batch(rules.mint, first, nextId)
        decreases target - emitted
      {
        emitted := emitted + 1;
        ghost var mid := nextId;
        CreateDay(emitted);
        BatchTwo(rules.mint, first, mid, nextId);
      }
      assert emitted > old(emitted) ==> Contents() == Grown(rules, old(Contents()), emitted);
    }

    /** One overdue item: into the archive and the store, or kept and noted as a leak. */
    method TryArchive(item: Item, leaks: Leaks, kept: seq<Item>) returns (leaks': Leaks, kept': seq<Item>)
      requires Real(rules)
      modifies this`archived, this`store
      ensures Missed(rules, item.contract, round) ==>
                archived == old(archived) && store == old(store) && kept' == kept + [item]
      ensures !Missed(rules, item.contract, round) ==>
                && archived == old(archived) + [item] && store == old(store) + [rules.tagged(item, false)]
                && kept' == kept
      ensures leaks' == if rules.skip(item.contract, round) then Leaks(leaks.retain + {item.contract}, leaks.archive)
                        else if rules.fault(item.contract, round) then Leaks(leaks.retain, leaks.archive + {item.contract})
                        else leaks
    {
      leaks', kept' := leaks, kept;
      if rules.skip(item.contract, round) {
        return Leaks(leaks.retain + {item.contract}, leaks.archive), kept + [item];
      }
      var poisoned := rules.fault(item.contract, round);
      var identifier := rules.tagged(item, poisoned);
      if rules.refuses(identifier) {
        leaks', kept' := Leaks(leaks.retain, leaks.archive + {item.contract}), kept + [item];
      } else {
        store := store + [identifier];
        archived := archived + [item];
      }
    }

    /** Keep one item, or try to archive it. */
    method SweepOne(now: nat, item: Item, leaks: Leaks, kept: seq<Item>) returns (leaks': Leaks, kept': seq<Item>)
      requires Real(rules) && Truthful(rules, now, round, kept, leaks)
      modifies this`archived, this`store
      ensures if Staying(rules, now, round)(item) then kept' == kept + [item] && archived == old(archived) && store == old(store)
              else kept' == kept && archived == old(archived) + [item] && store == old(store) + [rules.tagged(item, false)]
      ensures Truthful(rules, now, round, kept', leaks')
    {
      if rules.policy(Age(now, item)).Keep? {
        leaks', kept' := leaks, kept + [item];
      } else {
        leaks', kept' := TryArchive(item, leaks, kept);
      }
      LeaksFollow(rules, now, round, kept, item, leaks, leaks');
    }

    /** Retain the young and archive the aged, one item after the other. */
    method SweepItems(now: nat) returns (leaks: Leaks, kept: seq<Item>)
      requires Real(rules)
      modifies this`archived, this`store
      ensures var stays := Staying(rules, now, round);
              && kept == Kept(stays, live) && archived == old(archived) + Gone(stays, live)
              && store == old(store) + Labels(rules, Gone(stays, live))
      ensures Truthful(rules, now, round, kept, leaks)
    {
      leaks, kept := Leaks({}, {}), [];
      ghost var stays := Staying(rules, now, round);
      ghost var gone: seq<Item> := [];
      for i := 0 to |live|
        invariant kept == Kept(stays, live[..i]) && gone == Gone(stays, live[..i])
        invariant archived == old(archived) + gone && store == old(store) + Labels(rules, gone)
        invariant Truthful(rules, now, round, kept, leaks)
      {
        assert live[..i + 1][..i] == live[..i];
        LabelsNext(rules, gone, live[i]);
        leaks, kept := SweepOne(now, live[i], leaks, kept);
        gone := gone + if stays(live[i]) then [] else [live[i]];
      }
      assert live[..|live|] == live;
    }

    method SweepLive(now: nat) returns (leaks: Leaks)
      requires Real(rules)
      modifies this`live, this`archived, this`store
      ensures Contents() == Swept(rules, old(Contents()), now)
      ensures Truthful(rules, now, round, live, leaks)
    {
      var kept;
      leaks, kept := SweepItems(now);
      live := kept;
    }

    /** One round at a clock reading: create, age, sweep. */
    method Tick(now: nat) returns (leaks: Leaks)
      requires Valid()
      modifies this
      ensures Valid() && Contents() == Ticked(rules, old(Contents()), now)
      ensures Truthful(rules, now, round, live, leaks)
    {
      round := round + 1;
      CreateThrough(now);
      assert Contents() == Created(rules, NextRound(old(Contents())), now);
      leaks := SweepLive(now);
    }
  }

  lemma OverdueGrows(rules: Rules, now: nat, items: seq<Item>, item: Item)
    ensures forall c :: Overdue(rules, now, items + [item], c) <==>
              Overdue(rules, now, items, c) || (item.contract == c && PastWindow(rules, now, item))
  {
    forall c ensures Overdue(rules, now, items + [item], c) <==> Overdue(rules, now, items, c) || (item.contract == c && PastWindow(rules, now, item)) {
      if Overdue(rules, now, items, c) {
        var x :| x in items && x.contract == c && PastWindow(rules, now, x);
        assert x in items + [item];
      }
      if item.contract == c && PastWindow(rules, now, item) { assert item in items + [item]; }
    }
  }

  /** What one more item swept adds to the leaks. */
  lemma LeaksFollow(rules: Rules, now: nat, round: nat, kept: seq<Item>, item: Item, leaks: Leaks, leaks': Leaks)
    requires Truthful(rules, now, round, kept, leaks)
    requires var c := item.contract;
             leaks' == if !PastWindow(rules, now, item) then leaks
                       else if rules.skip(c, round) then Leaks(leaks.retain + {c}, leaks.archive)
                       else if rules.fault(c, round) then Leaks(leaks.retain, leaks.archive + {c})
                       else leaks
    ensures Truthful(rules, now, round, kept + if Stays(rules, now, round, item) then [item] else [], leaks')
  {
    OverdueGrows(rules, now, kept, item);
    assert kept + [] == kept;
  }
}
