/** What every step of the inbox protocol keeps, and what follows. */
module InboxSafety {
  import opened Options
  import opened Bytes
  import opened Handoffs
  import opened FileNames
  import opened Inboxes

  lemma SendSender(sys: System, s: State, i: nat, upTo: nat, k: nat)
    requires Fits(sys, s) && i < |sys.letters| && k < |sys.letters| && SenderSound(sys, s, i) && SenderSound(sys, s, k)
    requires k != i ==> sys.letters[k].name != sys.letters[i].name
    ensures SenderSound(sys, SendStep(sys, s, i, upTo), k)
  {
    var raw := sys.letters[i].raw;
    assert raw[..|raw|] == raw;
  }

  lemma SendTaker(sys: System, s: State, i: nat, upTo: nat, j: nat)
    requires Fits(sys, s) && i < |sys.letters| && j < |sys.claims| && TakerSound(sys, s, j)
    ensures TakerSound(sys, SendStep(sys, s, i, upTo), j)
  {
    var s', t := SendStep(sys, s, i, upTo), s.takers[j];
    assert forall name, pid :: Claimed(name, pid) in s.dir ==>
      Claimed(name, pid) in s'.dir && s'.dir[Claimed(name, pid)] == s.dir[Claimed(name, pid)];
    assert s'.takers == s.takers && s'.won == s.won;
  }

  /** A letter sent stays sent. */
  lemma SendStays(sys: System, s: State, i: nat, upTo: nat, name: FileBase)
    requires Fits(sys, s) && i < |sys.letters|
    requires exists k :: 0 <= k < |sys.letters| && sys.letters[k].name == name && s.senders[k].Sent?
    ensures var s' := SendStep(sys, s, i, upTo);
            exists k :: 0 <= k < |sys.letters| && sys.letters[k].name == name && s'.senders[k].Sent?
  {
    var k :| 0 <= k < |sys.letters| && sys.letters[k].name == name && s.senders[k].Sent?;
    assert SendStep(sys, s, i, upTo).senders[k].Sent?;
  }

  lemma SendInv(sys: System, s: State, i: nat, upTo: nat)
    requires Inv(sys, s) && i < |sys.letters|
    ensures Inv(sys, SendStep(sys, s, i, upTo))
  {
    var s' := SendStep(sys, s, i, upTo);
    forall k | 0 <= k < |sys.letters| ensures SenderSound(sys, s', k) { SendSender(sys, s, i, upTo, k); }
    forall j | 0 <= j < |sys.claims| ensures TakerSound(sys, s', j) { SendTaker(sys, s, i, upTo, j); }
    forall name | name in s'.won ensures WonSound(sys, s', name) {
      assert WonSound(sys, s, name);
      SendStays(sys, s, i, upTo, name);
    }
    forall name ensures ReadySound(sys, s', name) {
      if Ready(name) in s.dir {
        assert ReadySound(sys, s, name);
        SendStays(sys, s, i, upTo, name);
      } else if Ready(name) in s'.dir {
        assert sys.letters[i].name == name && s'.senders[i].Sent?;
      }
    }
  }

  /** What is ready no one has won. */
  lemma ReadyIsUnwon(sys: System, s: State, name: FileBase)
    requires Inv(sys, s) && Ready(name) in s.dir
    ensures name !in s.won && sys.Writes(name, s.dir[Ready(name)])
  {
    assert ReadySound(sys, s, name);
    var i :| 0 <= i < |sys.letters| && sys.letters[i].name == name && s.senders[i].Sent?;
    assert SenderSound(sys, s, i);
  }

  /** The name a taker's next step renames, if it wins one. */
  ghost predicate Wins(s: State, j: nat, name: FileBase)
    requires j < |s.takers|
  {
    var t := s.takers[j];
    t.phase.Taking? && t.todo != [] && t.todo[0] == name && Ready(name) in s.dir
  }

  lemma TakeOther(sys: System, s: State, j: nat, listing: seq<FileBase>, k: nat)
    requires Fits(sys, s) && j < |sys.claims| && k < |sys.claims| && k != j
    requires TakerSound(sys, s, j) && TakerSound(sys, s, k)
    requires forall name :: Wins(s, j, name) ==> name !in s.won
    ensures TakerSound(sys, TakeStep(sys, s, j, listing), k)
  {
    var s', t, u := TakeStep(sys, s, j, listing), s.takers[j], s.takers[k];
    assert s'.takers[k] == u;
    if u.phase.Reading? {
      assert t.phase.Removing? ==> t.phase.name in s.won && s.won[t.phase.name] == j;
      assert Claimed(u.phase.name, sys.claims[k].pid) in s'.dir;
    }
  }

  lemma TakeReading(sys: System, s: State, j: nat, listing: seq<FileBase>)
    requires Fits(sys, s) && sys.Readable() && j < |sys.claims| && TakerSound(sys, s, j)
    requires s.takers[j].phase.Reading?
    ensures TakerSound(sys, TakeStep(sys, s, j, listing), j)
    ensures TakeStep(sys, s, j, listing).takers[j].names == s.takers[j].names + [s.takers[j].phase.name]
  {
    var s', t := TakeStep(sys, s, j, listing), s.takers[j];
    var mine := Claimed(t.phase.name, sys.claims[j].pid);
    var i :| 0 <= i < |sys.letters| && sys.letters[i].name == t.phase.name && sys.letters[i].raw == s.dir[mine];
    assert sys.Carries(t.phase.name, sys.letters[i].handoff);
    assert Line(s'.takers[j]) == Line(t);
  }

  lemma TakeTaking(sys: System, s: State, j: nat, listing: seq<FileBase>)
    requires Fits(sys, s) && j < |sys.claims| && TakerSound(sys, s, j) && s.takers[j].phase.Taking?
    requires forall name :: Wins(s, j, name) ==> name !in s.won && sys.Writes(name, s.dir[Ready(name)])
    ensures TakerSound(sys, TakeStep(sys, s, j, listing), j)
  {
    var t, t' := s.takers[j], TakeStep(sys, s, j, listing).takers[j];
    if t.todo == [] {
      assert Line(t') == Line(t);
    } else if Ready(t.todo[0]) in s.dir {
      assert Wins(s, j, t.todo[0]);
      assert Line(t') == Line(t);
    } else {
      assert forall k :: 0 <= k < |Line(t')| ==> Line(t')[k] == Line(t)[if k < |t.names| then k else k + 1];
    }
  }

  lemma TakeStarting(sys: System, s: State, j: nat, listing: seq<FileBase>)
    requires Fits(sys, s) && j < |sys.claims| && TakerSound(sys, s, j) && s.takers[j].phase.Starting?
    ensures TakerSound(sys, TakeStep(sys, s, j, listing), j)
  {
    var s', t := TakeStep(sys, s, j, listing), s.takers[j];
    assert Line(t) == [] && t.names == [] && t.todo == [];
    if Lists(sys, s, listing) {
      var take := if sys.claims[j].limit < |listing| then sys.claims[j].limit else |listing|;
      assert s'.takers[j] == Taker(Taking, listing[..take], [], [], 0);
      AscendingPrefix(sys, listing, take);
      assert Line(s'.takers[j]) == listing[..take];
    } else {
      assert s' == s;
    }
  }

  lemma AscendingPrefix(sys: System, names: seq<FileBase>, n: nat)
    requires n <= |names| && sys.Ascending(names)
    ensures sys.Ascending(names[..n])
  {
  }

  lemma TakeRemoving(sys: System, s: State, j: nat, listing: seq<FileBase>)
    requires Fits(sys, s) && j < |sys.claims| && TakerSound(sys, s, j) && s.takers[j].phase.Removing?
    ensures TakerSound(sys, TakeStep(sys, s, j, listing), j)
  {
    assert Line(TakeStep(sys, s, j, listing).takers[j]) == Line(s.takers[j]);
  }

  lemma TakeOwn(sys: System, s: State, j: nat, listing: seq<FileBase>)
    requires Fits(sys, s) && sys.Readable() && j < |sys.claims| && TakerSound(sys, s, j)
    requires forall name :: Wins(s, j, name) ==> name !in s.won && sys.Writes(name, s.dir[Ready(name)])
    ensures TakerSound(sys, TakeStep(sys, s, j, listing), j)
  {
    match s.takers[j].phase {
      case Taking => TakeTaking(sys, s, j, listing);
      case Reading(_) => TakeReading(sys, s, j, listing);
      case Starting => TakeStarting(sys, s, j, listing);
      case Removing(_) => TakeRemoving(sys, s, j, listing);
      case Returned =>
    }
  }

  lemma TakeSender(sys: System, s: State, j: nat, listing: seq<FileBase>, i: nat)
    requires Fits(sys, s) && j < |sys.claims| && i < |sys.letters| && SenderSound(sys, s, i)
    ensures SenderSound(sys, TakeStep(sys, s, j, listing), i)
  {
  }

  /** A taker keeps the names it took, and the one it reads next. */
  lemma TakeKeepsNames(sys: System, s: State, j: nat, listing: seq<FileBase>, k: nat, name: FileBase)
    requires Fits(sys, s) && sys.Readable() && j < |sys.claims| && k < |sys.claims| && TakerSound(sys, s, j)
    requires s.takers[k].phase == Reading(name) || name in s.takers[k].names
    ensures var t' := TakeStep(sys, s, j, listing).takers[k]; t'.phase == Reading(name) || name in t'.names
  {
    if k == j && s.takers[j].phase.Reading? { TakeReading(sys, s, j, listing); }
  }

  lemma TakeWon(sys: System, s: State, j: nat, listing: seq<FileBase>, name: FileBase)
    requires Fits(sys, s) && sys.Readable() && j < |sys.claims| && TakerSound(sys, s, j)
    requires name in s.won ==> WonSound(sys, s, name)
    requires ReadySound(sys, s, name) && name in TakeStep(sys, s, j, listing).won
    requires Wins(s, j, name) ==> name !in s.won
    ensures WonSound(sys, TakeStep(sys, s, j, listing), name)
  {
    if name in s.won { TakeKeepsNames(sys, s, j, listing, s.won[name], name); }
  }

  lemma TakeInv(sys: System, s: State, j: nat, listing: seq<FileBase>)
    requires Inv(sys, s) && j < |sys.claims|
    ensures Inv(sys, TakeStep(sys, s, j, listing))
  {
    var s' := TakeStep(sys, s, j, listing);
    assert TakerSound(sys, s, j);
    forall name | Wins(s, j, name) ensures name !in s.won && sys.Writes(name, s.dir[Ready(name)]) {
      ReadyIsUnwon(sys, s, name);
    }
    forall i | 0 <= i < |sys.letters| ensures SenderSound(sys, s', i) { TakeSender(sys, s, j, listing, i); }
    forall k | 0 <= k < |sys.claims| ensures TakerSound(sys, s', k) {
      if k == j { TakeOwn(sys, s, j, listing); } else { TakeOther(sys, s, j, listing, k); }
    }
    forall name | name in s'.won ensures WonSound(sys, s', name) {
      assert ReadySound(sys, s, name) && TakerSound(sys, s, j);
      TakeWon(sys, s, j, listing, name);
    }
    forall name ensures ReadySound(sys, s', name) { assert ReadySound(sys, s, name); }
  }

  /** Every state of every run. */
  lemma {:induction false} Reachable(sys: System, run: seq<Event>)
    requires sys.Distinct() && sys.Readable()
    ensures Inv(sys, After(sys, Init(sys), run))
  {
    if run != [] {
      var s, e := After(sys, Init(sys), run[..|run| - 1]), run[|run| - 1];
      Reachable(sys, run[..|run| - 1]);
      match e {
        case Send(i, upTo) => if i < |sys.letters| { SendInv(sys, s, i, upTo); }
        case Take(j, listing) => if j < |sys.claims| { TakeInv(sys, s, j, listing); }
      }
    }
  }

  ghost function SentNames(sys: System, s: State): set<FileBase>
    requires Fits(sys, s)
  {
    set i | 0 <= i < |sys.letters| && s.senders[i].Sent? :: sys.letters[i].name
  }

  ghost function WaitingNames(s: State): set<FileBase> {
    set f | f in s.dir && f.Ready? :: f.name
  }

  ghost function InHandNames(s: State): set<FileBase> {
    set j | 0 <= j < |s.takers| && s.takers[j].phase.Reading? :: s.takers[j].phase.name
  }

  ghost function GotNames(s: State): set<FileBase> {
    set j, k | 0 <= j < |s.takers| && 0 <= k < |s.takers[j].names| :: s.takers[j].names[k]
  }

  lemma HeldNamesAreWon(sys: System, s: State, name: FileBase)
    requires Inv(sys, s) && (name in InHandNames(s) || name in GotNames(s))
    ensures name in s.won && name in SentNames(sys, s)
  {
    if name in InHandNames(s) {
      var j :| 0 <= j < |s.takers| && s.takers[j].phase == Reading(name);
      assert TakerSound(sys, s, j);
    } else {
      var j, k :| 0 <= j < |s.takers| && 0 <= k < |s.takers[j].names| && s.takers[j].names[k] == name;
      assert TakerSound(sys, s, j);
    }
    assert WonSound(sys, s, name);
  }

  lemma InHandIsNotGot(sys: System, s: State, name: FileBase)
    requires Inv(sys, s) && name in InHandNames(s)
    ensures name !in GotNames(s)
  {
    var j :| 0 <= j < |s.takers| && s.takers[j].phase == Reading(name);
    assert TakerSound(sys, s, j);
    var t := s.takers[j];
    forall k | 0 <= k < |t.names| ensures t.names[k] != name {
      assert Line(t)[k] == t.names[k] && Line(t)[|t.names|] == name;
    }
    forall i, k | 0 <= i < |s.takers| && 0 <= k < |s.takers[i].names| ensures s.takers[i].names[k] != name {
      assert TakerSound(sys, s, i);
    }
  }

  lemma SentIsAccounted(sys: System, s: State, name: FileBase)
    requires Inv(sys, s)
    ensures name in SentNames(sys, s) <==> name in WaitingNames(s) || name in InHandNames(s) || name in GotNames(s)
  {
    assert ReadySound(sys, s, name);
    if name in InHandNames(s) || name in GotNames(s) { HeldNamesAreWon(sys, s, name); }
    if name in SentNames(sys, s) {
      var i :| 0 <= i < |sys.letters| && s.senders[i].Sent? && sys.letters[i].name == name;
      assert SenderSound(sys, s, i);
      if name in s.won {
        assert WonSound(sys, s, name);
      } else {
        assert Ready(name) in s.dir && Ready(name).name == name;
      }
    }
  }

  lemma InOnePlace(sys: System, s: State, name: FileBase)
    requires Inv(sys, s)
    ensures name in WaitingNames(s) ==> name !in InHandNames(s) && name !in GotNames(s)
    ensures name in InHandNames(s) ==> name !in GotNames(s)
  {
    if name in WaitingNames(s) {
      ReadyIsUnwon(sys, s, name);
      if name in InHandNames(s) || name in GotNames(s) { HeldNamesAreWon(sys, s, name); }
    }
    if name in InHandNames(s) { InHandIsNotGot(sys, s, name); }
  }

  lemma ThreeParts<T>(all: set<T>, a: set<T>, b: set<T>, c: set<T>)
    requires all == a + b + c && a !! b !! c
    ensures |all| == |a| + |b| + |c|
  {
  }

  /** Nothing is lost or doubled: in every state what was delivered is what
      waits, what is in hand and what was returned, and those are disjoint. */
  lemma Conserved(sys: System, run: seq<Event>)
    requires sys.Distinct() && sys.Readable()
    ensures var s := After(sys, Init(sys), run);
            && SentNames(sys, s) == WaitingNames(s) + InHandNames(s) + GotNames(s)
            && WaitingNames(s) !! InHandNames(s) !! GotNames(s)
            && |SentNames(sys, s)| == |WaitingNames(s)| + |InHandNames(s)| + |GotNames(s)|
  {
    Reachable(sys, run);
    var s := After(sys, Init(sys), run);
    forall name ensures name in SentNames(sys, s) <==> name in WaitingNames(s) + InHandNames(s) + GotNames(s) {
      SentIsAccounted(sys, s, name);
    }
    forall name ensures name in WaitingNames(s) ==> name !in InHandNames(s) && name !in GotNames(s)
                ensures name in InHandNames(s) ==> name !in GotNames(s)
    {
      InOnePlace(sys, s, name);
    }
    ThreeParts(SentNames(sys, s), WaitingNames(s), InHandNames(s), GotNames(s));
  }

  /** Returned at most once, whole and unchanged: one claim, one place in it,
      and there the handoff that was delivered. */
  lemma ReturnedOnceWhole(sys: System, run: seq<Event>, j: nat, k: nat)
    requires sys.Distinct() && sys.Readable() && j < |sys.claims|
    requires k < |After(sys, Init(sys), run).takers[j].names|
    ensures var s := After(sys, Init(sys), run);
            var name := s.takers[j].names[k];
            && |s.takers[j].got| == |s.takers[j].names| && sys.Carries(name, s.takers[j].got[k])
            && forall i, m :: 0 <= i < |s.takers| && 0 <= m < |s.takers[i].names| && s.takers[i].names[m] == name ==>
                 i == j && m == k
  {
    Reachable(sys, run);
    var s := After(sys, Init(sys), run);
    assert TakerSound(sys, s, j);
    var name := s.takers[j].names[k];
    forall i, m | 0 <= i < |s.takers| && 0 <= m < |s.takers[i].names| && s.takers[i].names[m] == name
      ensures i == j && m == k
    {
      assert TakerSound(sys, s, i);
      assert Line(s.takers[i])[m] == name && Line(s.takers[j])[k] == name;
    }
  }

  /** No half-written file is ever ready, and none a claim took was unreadable. */
  lemma NothingTorn(sys: System, run: seq<Event>)
    requires sys.Distinct() && sys.Readable()
    ensures var s := After(sys, Init(sys), run);
            && (forall name :: Ready(name) in s.dir ==> sys.Writes(name, s.dir[Ready(name)]))
            && forall j :: 0 <= j < |s.takers| ==> s.takers[j].lost == 0
  {
    Reachable(sys, run);
    var s := After(sys, Init(sys), run);
    forall name | Ready(name) in s.dir ensures sys.Writes(name, s.dir[Ready(name)]) { ReadyIsUnwon(sys, s, name); }
    forall j | 0 <= j < |s.takers| ensures s.takers[j].lost == 0 { assert TakerSound(sys, s, j); }
  }

  /** The inbox as it is: handoffs with clean names read back. */
  lemma PostedIsReadable(handoffs: seq<Handoff>, counts: seq<U64>, claims: seq<Claim>)
    requires |handoffs| == |counts|
    requires forall i :: 0 <= i < |handoffs| ==> Clean(handoffs[i].transport) && Clean(handoffs[i].from)
    ensures Posted(handoffs, counts, claims).Readable()
  {
    var sys := Posted(handoffs, counts, claims);
    forall i | 0 <= i < |handoffs| ensures sys.decode(sys.letters[i].raw) == Some(sys.letters[i].handoff) {
      RoundTrip(handoffs[i]);
    }
  }

  /** And names are apart while senders are, and no sender's count recurs. */
  lemma PostedIsDistinct(handoffs: seq<Handoff>, counts: seq<U64>, claims: seq<Claim>)
    requires |handoffs| == |counts|
    requires forall i :: 0 <= i < |handoffs| ==> handoffs[i].round < TEN_DIGITS && counts[i] < TEN_DIGITS
    requires forall i, j :: 0 <= i < j < |handoffs| ==>
               Apart(handoffs[i].from, handoffs[j].from) && (handoffs[i].from == handoffs[j].from ==> counts[i] != counts[j])
    ensures Posted(handoffs, counts, claims).Distinct()
  {
    forall i, j | 0 <= i < j < |handoffs|
      ensures FileName(handoffs[i], counts[i]) != FileName(handoffs[j], counts[j])
    {
      if FileName(handoffs[i], counts[i]) == FileName(handoffs[j], counts[j]) {
        NamesTellSenders(handoffs[i], counts[i], handoffs[j], counts[j]);
      }
    }
  }

  /** One claim returns rounds oldest first, while rounds fit ten digits. */
  lemma OldestFirst(handoffs: seq<Handoff>, counts: seq<U64>, claims: seq<Claim>, run: seq<Event>, j: nat, k: nat, m: nat)
    requires |handoffs| == |counts| && j < |claims|
    requires Posted(handoffs, counts, claims).Distinct() && Posted(handoffs, counts, claims).Readable()
    requires forall i :: 0 <= i < |handoffs| ==> handoffs[i].round < TEN_DIGITS
    requires var s := After(Posted(handoffs, counts, claims), Init(Posted(handoffs, counts, claims)), run);
             k < m < |s.takers[j].got|
    ensures var s := After(Posted(handoffs, counts, claims), Init(Posted(handoffs, counts, claims)), run);
            s.takers[j].got[k].round <= s.takers[j].got[m].round
  {
    var sys := Posted(handoffs, counts, claims);
    Reachable(sys, run);
    var t := After(sys, Init(sys), run).takers[j];
    assert TakerSound(sys, After(sys, Init(sys), run), j);
    assert Line(t)[k] == t.names[k] && Line(t)[m] == t.names[m];
    var i :| 0 <= i < |sys.letters| && sys.letters[i].name == t.names[k] && sys.letters[i].handoff == t.got[k];
    var l :| 0 <= l < |sys.letters| && sys.letters[l].name == t.names[m] && sys.letters[l].handoff == t.got[m];
    if handoffs[i].round != handoffs[l].round {
      NamesSortByRound(handoffs[i], counts[i], handoffs[l], counts[l]);
    }
  }

  /** Deliver letter `i` alone, from wherever the others left the inbox. */
  lemma DeliverOne(sys: System, s: State, i: nat) returns (run: seq<Event>)
    requires Fits(sys, s) && i < |sys.letters| && s.senders[i].Idle? && sys.letters[i].raw != []
    ensures After(sys, s, run) ==
            s.(dir := (s.dir - {Writing(sys.letters[i].name)})[Ready(sys.letters[i].name) := sys.letters[i].raw],
               senders := s.senders[i := Sent])
  {
    var raw, name := sys.letters[i].raw, sys.letters[i].name;
    var e := Send(i, |raw|);
    run := [e, e, e];
    assert run[..2] == [e, e] && [e, e][..1] == [e] && [e][..0] == [];
    var s1 := s.(dir := s.dir[Writing(name) := []], senders := s.senders[i := Filling(0)]);
    assert After(sys, s, []) == s && After(sys, s, [e]) == s1;
    assert raw[..|raw|] == raw;
    var s2 := s.(dir := s.dir[Writing(name) := raw], senders := s.senders[i := Filling(|raw|)]);
    assert After(sys, s, [e, e]) == s2;
    assert s2.dir - {Writing(name)} == s.dir - {Writing(name)};
  }

  lemma {:induction false} AfterTwo(sys: System, s: State, a: seq<Event>, b: seq<Event>)
    requires Fits(sys, s)
    ensures After(sys, s, a + b) == After(sys, After(sys, s, a), b)
  {
    if b == [] {
      assert a + b == a;
    } else {
      AfterTwo(sys, s, a, b[..|b| - 1]);
      assert (a + b)[..|a + b| - 1] == a + b[..|b| - 1];
    }
  }

  /** Why names must not recur: two letters of one name, delivered one after
      the other with nobody claiming, leave one file waiting. */
  lemma AlikeNamesLose(sys: System, a: nat, b: nat) returns (run: seq<Event>)
    requires a < b < |sys.letters| && sys.letters[a].name == sys.letters[b].name
    requires sys.letters[a].raw != [] && sys.letters[b].raw != []
    ensures var s := After(sys, Init(sys), run);
            && s.senders[a].Sent? && s.senders[b].Sent? && s.won == map[]
            && |WaitingNames(s)| == 1 && InHandNames(s) == {} && GotNames(s) == {}
  {
    var first := DeliverOne(sys, Init(sys), a);
    var s1 := After(sys, Init(sys), first);
    var second := DeliverOne(sys, s1, b);
    run := first + second;
    AfterTwo(sys, Init(sys), first, second);
    var s := After(sys, Init(sys), run);
    assert s.dir == map[Ready(sys.letters[a].name) := sys.letters[b].raw];
    assert WaitingNames(s) == {Ready(sys.letters[a].name).name};
  }

  // The exact condition: letters against files, whatever their names.

  ghost function SentLetters(sys: System, s: State): set<nat>
    requires Fits(sys, s)
  {
    set i: nat | i < |sys.letters| && s.senders[i].Sent?
  }

  ghost function NamesOf(sys: System, some: set<nat>): set<FileBase>
    requires forall i :: i in some ==> i < |sys.letters|
  {
    set i | i in some :: sys.letters[i].name
  }

  lemma {:induction false} AsManyNames(sys: System, some: set<nat>)
    requires sys.Distinct() && forall i :: i in some ==> i < |sys.letters|
    ensures |NamesOf(sys, some)| == |some|
  {
    if some != {} {
      var i :| i in some;
      var rest := some - {i};
      AsManyNames(sys, rest);
      assert NamesOf(sys, some) == NamesOf(sys, rest) + {sys.letters[i].name};
      forall j | j in rest ensures sys.letters[j].name != sys.letters[i].name {}
    }
  }

  /** As many letters were sent as files wait, are in hand or were returned. */
  ghost predicate Balances(sys: System, run: seq<Event>) {
    var s := After(sys, Init(sys), run);
    |SentLetters(sys, s)| == |WaitingNames(s)| + |InHandNames(s)| + |GotNames(s)|
  }

  lemma DistinctBalances(sys: System, run: seq<Event>)
    requires sys.Distinct() && sys.Readable()
    ensures Balances(sys, run)
  {
    var s := After(sys, Init(sys), run);
    Conserved(sys, run);
    AsManyNames(sys, SentLetters(sys, s));
    SentUnderNames(sys, s);
  }

  lemma SentUnderNames(sys: System, s: State)
    requires Fits(sys, s)
    ensures NamesOf(sys, SentLetters(sys, s)) == SentNames(sys, s)
  {
    var some := SentLetters(sys, s);
    forall name | name in SentNames(sys, s) ensures name in NamesOf(sys, some) {
      var i: nat :| i < |sys.letters| && s.senders[i].Sent? && sys.letters[i].name == name;
      assert i in some;
    }
  }

  /** Nothing is lost in any run exactly when no two letters have one name. */
  lemma ConservedExactly(sys: System)
    requires sys.Readable() && forall i :: 0 <= i < |sys.letters| ==> sys.letters[i].raw != []
    ensures (forall run :: Balances(sys, run)) <==> sys.Distinct()
  {
    if sys.Distinct() {
      forall run ensures Balances(sys, run) { DistinctBalances(sys, run); }
    } else {
      var a, b :| 0 <= a < b < |sys.letters| && sys.letters[a].name == sys.letters[b].name;
      var run := AlikeNamesLose(sys, a, b);
      var s := After(sys, Init(sys), run);
      AtLeastTwo(SentLetters(sys, s), a, b);
      assert !Balances(sys, run);
    }
  }

  lemma AtLeastTwo(some: set<nat>, a: nat, b: nat)
    requires a in some && b in some && a != b
    ensures |some| >= 2
  {
    assert |some - {a} - {b}| == |some| - 2;
  }
}
