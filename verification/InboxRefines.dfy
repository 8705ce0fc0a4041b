/**
  The inbox protocol seen from the message path: of all its file operations, each
  leaves what waits and what is in hand alone, files one handoff or takes one.
 */
module InboxRefines {
  import opened Options
  import opened Bytes
  import opened Handoffs
  import opened Inboxes
  import opened InboxSafety
  import Relays
  import Stages

  /** What waits in an inbox, by name. */
  ghost function Waiting(dir: Directory): map<FileBase, seq<Byte>> {
    map f | f in dir && f.Ready? :: f.name := dir[f]
  }

  /** What a claim has taken so far, in order: read, or renamed and about to be. */
  ghost function Hand(sys: System, s: State, j: nat): seq<Handoff>
    requires Fits(sys, s) && j < |sys.claims|
  {
    var t := s.takers[j];
    if !t.phase.Reading? then t.got
    else
      var mine := Claimed(t.phase.name, sys.claims[j].pid);
      if mine in s.dir && sys.decode(s.dir[mine]).Some? then t.got + [sys.decode(s.dir[mine]).value] else t.got
  }

  ghost predicate SameHands(sys: System, s: State, s': State, but: int)
    requires Fits(sys, s) && Fits(sys, s')
  {
    forall j :: 0 <= j < |sys.claims| && j != but ==> Hand(sys, s', j) == Hand(sys, s, j)
  }

  ghost predicate Stutters(sys: System, s: State, s': State)
    requires Fits(sys, s) && Fits(sys, s')
  {
    Waiting(s'.dir) == Waiting(s.dir) && SameHands(sys, s, s', -1)
  }

  /** Letter `i` is filed, whole, under a name nothing waits under. */
  ghost predicate FilesOne(sys: System, s: State, s': State, i: nat)
    requires Fits(sys, s) && Fits(sys, s')
  {
    && i < |sys.letters| && !s.senders[i].Sent? && s'.senders[i].Sent?
    && sys.letters[i].name !in Waiting(s.dir)
    && Waiting(s'.dir) == Waiting(s.dir)[sys.letters[i].name := sys.letters[i].raw]
    && SameHands(sys, s, s', -1)
  }

  /** Claim `j` takes what waits under `name`, and has it in hand as it reads. */
  ghost predicate TakesOne(sys: System, s: State, s': State, j: nat, name: FileBase)
    requires Fits(sys, s) && Fits(sys, s')
  {
    && j < |sys.claims| && name in Waiting(s.dir)
    && Waiting(s'.dir) == Waiting(s.dir) - {name}
    && sys.decode(Waiting(s.dir)[name]).Some?
    && Hand(sys, s', j) == Hand(sys, s, j) + [sys.decode(Waiting(s.dir)[name]).value]
    && SameHands(sys, s, s', j)
  }

  lemma WaitingHas(dir: Directory, name: FileBase)
    ensures name in Waiting(dir) <==> Ready(name) in dir
    ensures Ready(name) in dir ==> Waiting(dir)[name] == dir[Ready(name)]
  {
    if Ready(name) in dir { assert Ready(name).name == name; }
  }

  /** Two directories alike in their ready files have the same waiting. */
  lemma SameWaiting(dir: Directory, dir': Directory)
    requires forall name :: (Ready(name) in dir <==> Ready(name) in dir') && (Ready(name) in dir ==> dir'[Ready(name)] == dir[Ready(name)])
    ensures Waiting(dir') == Waiting(dir)
  {
    forall name ensures (name in Waiting(dir') <==> name in Waiting(dir)) && (name in Waiting(dir) ==> Waiting(dir')[name] == Waiting(dir)[name]) {
      WaitingHas(dir, name);
      WaitingHas(dir', name);
    }
  }

  lemma FiledWaiting(dir: Directory, dir': Directory, name: FileBase, raw: seq<Byte>)
    requires Ready(name) in dir' && dir'[Ready(name)] == raw
    requires forall n :: n != name ==> (Ready(n) in dir <==> Ready(n) in dir') && (Ready(n) in dir ==> dir'[Ready(n)] == dir[Ready(n)])
    ensures Waiting(dir') == Waiting(dir)[name := raw]
  {
    var filed := Waiting(dir)[name := raw];
    forall n ensures (n in Waiting(dir') <==> n in filed) && (n in filed ==> Waiting(dir')[n] == filed[n]) {
      WaitingHas(dir, n);
      WaitingHas(dir', n);
    }
  }

  lemma TakenWaiting(dir: Directory, dir': Directory, name: FileBase)
    requires Ready(name) !in dir'
    requires forall n :: n != name ==> (Ready(n) in dir <==> Ready(n) in dir') && (Ready(n) in dir ==> dir'[Ready(n)] == dir[Ready(n)])
    ensures Waiting(dir') == Waiting(dir) - {name}
  {
    var taken := Waiting(dir) - {name};
    forall n ensures (n in Waiting(dir') <==> n in taken) && (n in taken ==> Waiting(dir')[n] == taken[n]) {
      WaitingHas(dir, n);
      WaitingHas(dir', n);
    }
  }

  lemma SendHands(sys: System, s: State, i: nat, upTo: nat)
    requires Fits(sys, s) && i < |sys.letters|
    ensures SameHands(sys, s, SendStep(sys, s, i, upTo), -1)
  {
  }

  lemma SendRefines(sys: System, s: State, i: nat, upTo: nat)
    requires Inv(sys, s) && i < |sys.letters|
    ensures var s' := SendStep(sys, s, i, upTo); Stutters(sys, s, s') || FilesOne(sys, s, s', i)
  {
    var s', name := SendStep(sys, s, i, upTo), sys.letters[i].name;
    SendHands(sys, s, i, upTo);
    assert SenderSound(sys, s, i);
    if s'.senders[i].Sent? && !s.senders[i].Sent? {
      WaitingHas(s.dir, name);
      FiledWaiting(s.dir, s'.dir, name, sys.letters[i].raw);
    } else {
      SameWaiting(s.dir, s'.dir);
    }
  }

  /** A hand is what its claim and the file it reads say. */
  lemma HandFrom(sys: System, s: State, s': State, k: nat)
    requires Fits(sys, s) && Fits(sys, s') && k < |sys.claims| && s'.takers[k] == s.takers[k]
    requires s.takers[k].phase.Reading? ==>
               var mine := Claimed(s.takers[k].phase.name, sys.claims[k].pid);
               (mine in s.dir <==> mine in s'.dir) && (mine in s.dir ==> s'.dir[mine] == s.dir[mine])
    ensures Hand(sys, s', k) == Hand(sys, s, k)
  {
  }

  /** A step changes no file another claim has renamed. */
  lemma OthersFile(sys: System, s: State, j: nat, listing: seq<FileBase>, name: FileBase, pid: nat)
    requires Inv(sys, s) && j < |sys.claims| && name in s.won && s.won[name] != j
    ensures var dir', mine := TakeStep(sys, s, j, listing).dir, Claimed(name, pid);
            (mine in s.dir <==> mine in dir') && (mine in s.dir ==> dir'[mine] == s.dir[mine])
  {
    assert TakerSound(sys, s, j);
    var t := s.takers[j];
    if t.phase.Taking? && t.todo != [] && Ready(t.todo[0]) in s.dir {
      ReadyIsUnwon(sys, s, t.todo[0]);
    }
    if t.phase.Removing? {
      assert t.phase.name in s.won && s.won[t.phase.name] == j;
    }
  }

  /** Another claim's hand is not touched: what it reads nobody else won. */
  lemma OtherHand(sys: System, s: State, j: nat, listing: seq<FileBase>, k: nat)
    requires Inv(sys, s) && j < |sys.claims| && k < |sys.claims| && k != j
    ensures Hand(sys, TakeStep(sys, s, j, listing), k) == Hand(sys, s, k)
  {
    assert TakerSound(sys, s, k);
    if s.takers[k].phase.Reading? {
      OthersFile(sys, s, j, listing, s.takers[k].phase.name, sys.claims[k].pid);
    }
    HandFrom(sys, s, TakeStep(sys, s, j, listing), k);
  }

  lemma ReadyReads(sys: System, s: State, name: FileBase)
    requires Inv(sys, s) && Ready(name) in s.dir
    ensures name !in s.won && sys.decode(s.dir[Ready(name)]).Some?
  {
    ReadyIsUnwon(sys, s, name);
    assert ReadySound(sys, s, name);
    var i :| 0 <= i < |sys.letters| && sys.letters[i].name == name && s.senders[i].Sent?;
    assert SenderSound(sys, s, i);
  }

  /** Winning a rename takes one. */
  lemma WinTakes(sys: System, s: State, j: nat, listing: seq<FileBase>)
    requires Inv(sys, s) && j < |sys.claims| && s.takers[j].phase.Taking?
    requires s.takers[j].todo != [] && Ready(s.takers[j].todo[0]) in s.dir
    ensures TakesOne(sys, s, TakeStep(sys, s, j, listing), j, s.takers[j].todo[0])
  {
    var s', name := TakeStep(sys, s, j, listing), s.takers[j].todo[0];
    ReadyReads(sys, s, name);
    WaitingHas(s.dir, name);
    TakenWaiting(s.dir, s'.dir, name);
    forall k | 0 <= k < |sys.claims| && k != j ensures Hand(sys, s', k) == Hand(sys, s, k) { OtherHand(sys, s, j, listing, k); }
  }

  /** Every other step of a claim leaves its hand as it was. */
  lemma OwnHand(sys: System, s: State, j: nat, listing: seq<FileBase>)
    requires Inv(sys, s) && j < |sys.claims|
    requires !(s.takers[j].phase.Taking? && s.takers[j].todo != [] && Ready(s.takers[j].todo[0]) in s.dir)
    ensures Hand(sys, TakeStep(sys, s, j, listing), j) == Hand(sys, s, j)
  {
    assert TakerSound(sys, s, j);
    if s.takers[j].phase.Reading? {
      var name := s.takers[j].phase.name;
      var i :| 0 <= i < |sys.letters| && sys.letters[i].name == name
               && sys.letters[i].raw == s.dir[Claimed(name, sys.claims[j].pid)];
    }
  }

  lemma TakeRefines(sys: System, s: State, j: nat, listing: seq<FileBase>)
    requires Inv(sys, s) && j < |sys.claims|
    ensures var s' := TakeStep(sys, s, j, listing);
            Stutters(sys, s, s') || exists name :: TakesOne(sys, s, s', j, name)
  {
    var s', t := TakeStep(sys, s, j, listing), s.takers[j];
    if t.phase.Taking? && t.todo != [] && Ready(t.todo[0]) in s.dir {
      WinTakes(sys, s, j, listing);
    } else {
      SameWaiting(s.dir, s'.dir);
      forall k | 0 <= k < |sys.claims| ensures Hand(sys, s', k) == Hand(sys, s, k) {
        if k == j { OwnHand(sys, s, j, listing); } else { OtherHand(sys, s, j, listing, k); }
      }
    }
  }

  ghost predicate Refines(sys: System, s: State, s': State)
    requires Fits(sys, s) && Fits(sys, s')
  {
    || Stutters(sys, s, s')
    || (exists i :: FilesOne(sys, s, s', i))
    || (exists j, name :: TakesOne(sys, s, s', j, name))
  }

  lemma NextRefines(sys: System, s: State, e: Event)
    requires Inv(sys, s)
    ensures Refines(sys, s, Next(sys, s, e))
  {
    match e
    case Send(i, upTo) => if i < |sys.letters| { SendRefines(sys, s, i, upTo); }
    case Take(j, listing) => if j < |sys.claims| { TakeRefines(sys, s, j, listing); }
  }

  /** In every run each step leaves what waits and what is in hand alone, files one
      handoff whole under a fresh name, or takes one that waits into one hand. */
  lemma EveryStepRefines(sys: System, run: seq<Event>, e: Event)
    requires sys.Distinct() && sys.Readable()
    ensures Refines(sys, After(sys, Init(sys), run), After(sys, Init(sys), run + [e]))
  {
    Reachable(sys, run);
    NextRefines(sys, After(sys, Init(sys), run), e);
    OneMore(sys, run, e);
  }

  lemma OneMore(sys: System, run: seq<Event>, e: Event)
    ensures After(sys, Init(sys), run + [e]) == Next(sys, After(sys, Init(sys), run), e)
  {
    assert (run + [e])[..|run|] == run;
  }

  // And so it is the message path's inbox.

  ghost predicate Stands(named: Relays.Key -> FileBase, box: Relays.Box, name: FileBase) {
    exists key :: key in box && named(key) == name
  }

  /** A box of the path is what waits, its keys under their names. */
  ghost predicate Represents(named: Relays.Key -> FileBase, box: Relays.Box, waiting: map<FileBase, seq<Byte>>) {
    && (forall key :: key in box ==> named(key) in waiting && waiting[named(key)] == box[key])
    && (forall name :: name in waiting ==> Stands(named, box, name))
    && (forall k, l :: k in box && l in box && named(k) == named(l) ==> k == l)
  }

  /** Filing one is handing one on: the box gains the key the name stands for. */
  lemma FilingIsHandingOn(named: Relays.Key -> FileBase, route: Relays.Route, seat: Relays.Seat, r: Relays.Relay, boxes: Relays.Boxes,
                          h: Handoff, inbox: Relays.Seat, waiting: map<FileBase, seq<Byte>>)
    requires Represents(named, Relays.At(boxes, inbox), waiting)
    requires Relays.HandOn(route, seat, r, boxes, h, true).2
    requires Some(inbox.stage) == Stages.NextStage(seat.stage) && Some(inbox.name) == route.to(seat.name, inbox.stage, h)
    requires named(Relays.Key(seat.name, r.sequence + 1)) !in waiting
    ensures var after := Relays.HandOn(route, seat, r, boxes, h, true);
            Represents(named, Relays.At(after.1, inbox), waiting[named(Relays.Key(seat.name, r.sequence + 1)) := route.encode(h)])
  {
    var key := Relays.Key(seat.name, r.sequence + 1);
    var box := Relays.At(boxes, inbox);
    assert Relays.At(Relays.HandOn(route, seat, r, boxes, h, true).1, inbox) == box[key := route.encode(h)];
    GainsOne(named, box, waiting, key, route.encode(h));
  }

  lemma GainsOne(named: Relays.Key -> FileBase, box: Relays.Box, waiting: map<FileBase, seq<Byte>>, key: Relays.Key, raw: seq<Byte>)
    requires Represents(named, box, waiting) && named(key) !in waiting
    ensures Represents(named, box[key := raw], waiting[named(key) := raw])
  {
    var box', waiting' := box[key := raw], waiting[named(key) := raw];
    forall name | name in waiting' ensures Stands(named, box', name) {
      if name == named(key) {
        assert key in box';
      } else {
        assert Stands(named, box, name);
        var k :| k in box && named(k) == name;
        assert k in box';
      }
    }
  }

  /** Taking one is claiming one: the box loses the key, and what was under it is in
      hand as it reads. */
  lemma TakingIsClaiming(named: Relays.Key -> FileBase, route: Relays.Route, seat: Relays.Seat, r: Relays.Relay, boxes: Relays.Boxes,
                         key: Relays.Key, waiting: map<FileBase, seq<Byte>>)
    requires Represents(named, Relays.At(boxes, seat), waiting) && key in Relays.At(boxes, seat)
    ensures var after := Relays.Claim(route, seat, r, boxes, key);
            && Represents(named, Relays.At(after.1, seat), waiting - {named(key)})
            && (route.decode(waiting[named(key)]).Some? ==>
                  after.0.hand == r.hand + [route.decode(waiting[named(key)]).value] && after.0.unreadable == r.unreadable)
  {
    var box := Relays.At(boxes, seat);
    assert Relays.At(Relays.Claim(route, seat, r, boxes, key).1, seat) == box - {key};
    LosesOne(named, box, waiting, key);
  }

  lemma LosesOne(named: Relays.Key -> FileBase, box: Relays.Box, waiting: map<FileBase, seq<Byte>>, key: Relays.Key)
    requires Represents(named, box, waiting) && key in box
    ensures Represents(named, box - {key}, waiting - {named(key)})
  {
    var box', waiting' := box - {key}, waiting - {named(key)};
    forall name | name in waiting' ensures Stands(named, box', name) {
      assert Stands(named, box, name);
      var k :| k in box && named(k) == name;
      assert k in box';
    }
  }
}
