/**
  A claim run alone: what it returns, what it drops and what it leaves, whatever
  the deliverers and the other claims had done by then.
 */
module InboxClaims {
  import opened Options
  import opened Handoffs
  import opened Inboxes
  import opened InboxSafety

  /** A handoff waits under `name`, and this is the file. */
  predicate Waits(dir: Directory, name: FileBase) {
    Ready(name) in dir
  }

  predicate ReadsBack(sys: System, dir: Directory, name: FileBase) {
    Waits(dir, name) && sys.decode(dir[Ready(name)]).Some?
  }

  /** This is what the file under `name` reads back as. */
  predicate ReadsAs(sys: System, dir: Directory, name: FileBase, handoff: Handoff) {
    Waits(dir, name) && sys.decode(dir[Ready(name)]) == Some(handoff)
  }

  /** The names among these that pass, in their order. */
  function Passing(names: seq<FileBase>, passes: FileBase -> bool): (some: seq<FileBase>)
    ensures |some| <= |names|
    ensures forall name :: name in some <==> name in names && passes(name)
  {
    if names == [] then []
    else (if passes(names[0]) then [names[0]] else []) + Passing(names[1..], passes)
  }

  function Waiting(dir: Directory, names: seq<FileBase>): seq<FileBase> {
    Passing(names, name => Waits(dir, name))
  }

  function Whole(sys: System, dir: Directory, names: seq<FileBase>): seq<FileBase> {
    Passing(names, name => ReadsBack(sys, dir, name))
  }

  /** These names' files are gone, under every name this process gave them, and
      nothing else is touched. */
  ghost predicate Cleared(dir: Directory, dir': Directory, names: seq<FileBase>, pid: nat) {
    && (forall file :: file in dir' <==> file in dir && !Clears(dir, file, names, pid))
    && forall file :: file in dir' ==> dir'[file] == dir[file]
  }

  predicate Clears(dir: Directory, file: File, names: seq<FileBase>, pid: nat) {
    file.name in names && Waits(dir, file.name) && (file == Ready(file.name) || file == Claimed(file.name, pid))
  }

  /** What these files read back as was added, in their order. */
  ghost predicate Gained(sys: System, dir: Directory, got: seq<Handoff>, got': seq<Handoff>, whole: seq<FileBase>) {
    && |got'| == |got| + |whole| && got'[..|got|] == got
    && forall k :: 0 <= k < |whole| ==> ReadsAs(sys, dir, whole[k], got'[|got| + k])
  }

  /** A claim has these names' handoffs, each that waited and read back, and counts
      the others that waited. */
  ghost predicate Has(sys: System, dir: Directory, t: Taker, t': Taker, names: seq<FileBase>) {
    && t'.names == t.names + Whole(sys, dir, names)
    && Gained(sys, dir, t.got, t'.got, Whole(sys, dir, names))
    && t'.lost == t.lost + |Waiting(dir, names)| - |Whole(sys, dir, names)|
  }

  /** Claim `j` took these names, and touched nothing else. */
  ghost predicate Took(sys: System, s: State, s': State, j: nat, names: seq<FileBase>)
    requires Fits(sys, s) && Fits(sys, s') && j < |sys.claims|
  {
    && s'.senders == s.senders
    && (forall i :: 0 <= i < |s.takers| && i != j ==> s'.takers[i] == s.takers[i])
    && Has(sys, s.dir, s.takers[j], s'.takers[j], names)
    && Cleared(s.dir, s'.dir, names, sys.claims[j].pid)
  }

  lemma {:induction false} PassingAlike(names: seq<FileBase>, one: FileBase -> bool, other: FileBase -> bool)
    requires forall name :: name in names ==> one(name) == other(name)
    ensures Passing(names, one) == Passing(names, other)
  {
    if names != [] { PassingAlike(names[1..], one, other); }
  }

  /** What is first on the list is dealt with in one step or in three. */
  lemma TakeFirst(sys: System, s: State, j: nat) returns (run: seq<Event>)
    requires Fits(sys, s) && j < |sys.claims| && s.takers[j].phase.Taking? && s.takers[j].todo != []
    ensures var s' := After(sys, s, run);
            s'.takers[j].phase.Taking? && s'.takers[j].todo == s.takers[j].todo[1..]
            && Took(sys, s, s', j, s.takers[j].todo[..1])
  {
    var name := s.takers[j].todo[0];
    var step := Take(j, []);
    var s1 := Next(sys, s, step);
    assert [step][..0] == [] && After(sys, s, []) == s;
    assert After(sys, s, [step]) == s1;
    assert s.takers[j].todo[..1] == [name];
    if !Waits(s.dir, name) {
      run := [step];
      Missed(sys, s, j);
    } else {
      run := [step, step, step];
      var s2 := Next(sys, s1, step);
      assert [step, step][..1] == [step] && run[..2] == [step, step];
      assert After(sys, s, [step, step]) == s2;
      var s3 := Next(sys, s2, step);
      assert After(sys, s, run) == s3;
      Won(sys, s, j);
    }
  }

  lemma Missed(sys: System, s: State, j: nat)
    requires Fits(sys, s) && j < |sys.claims| && s.takers[j].phase.Taking? && s.takers[j].todo != []
    requires !Waits(s.dir, s.takers[j].todo[0])
    ensures var s' := TakeStep(sys, s, j, []);
            s'.takers[j].phase.Taking? && s'.takers[j].todo == s.takers[j].todo[1..]
            && Took(sys, s, s', j, [s.takers[j].todo[0]])
  {
    PassingOne(s.takers[j].todo[0], name => Waits(s.dir, name));
    PassingOne(s.takers[j].todo[0], name => ReadsBack(sys, s.dir, name));
  }

  lemma PassingOne(name: FileBase, passes: FileBase -> bool)
    ensures Passing([name], passes) == if passes(name) then [name] else []
  {
    assert [name][1..] == [];
  }

  lemma Won(sys: System, s: State, j: nat)
    requires Fits(sys, s) && j < |sys.claims| && s.takers[j].phase.Taking? && s.takers[j].todo != []
    requires Waits(s.dir, s.takers[j].todo[0])
    ensures var s' := TakeStep(sys, TakeStep(sys, TakeStep(sys, s, j, []), j, []), j, []);
            s'.takers[j].phase.Taking? && s'.takers[j].todo == s.takers[j].todo[1..]
            && Took(sys, s, s', j, [s.takers[j].todo[0]])
  {
    var name, pid := s.takers[j].todo[0], sys.claims[j].pid;
    PassingOne(name, name => Waits(s.dir, name));
    PassingOne(name, name => ReadsBack(sys, s.dir, name));
    var s1 := TakeStep(sys, s, j, []);
    assert s1.takers[j].phase == Reading(name) && s1.dir[Claimed(name, pid)] == s.dir[Ready(name)];
    var s2 := TakeStep(sys, s1, j, []);
    var s3 := TakeStep(sys, s2, j, []);
    assert s3.dir == s1.dir - {Claimed(name, pid)};
    assert s3.takers[j].names == s2.takers[j].names && s3.takers[j].got == s2.takers[j].got;
  }

  /** What one taking leaves of the names to come is what stood there. */
  lemma TookLeaves(sys: System, s: State, s1: State, j: nat, first: FileBase, rest: seq<FileBase>)
    requires Fits(sys, s) && Fits(sys, s1) && j < |sys.claims| && Took(sys, s, s1, j, [first]) && first !in rest
    ensures Waiting(s1.dir, rest) == Waiting(s.dir, rest) && Whole(sys, s1.dir, rest) == Whole(sys, s.dir, rest)
    ensures forall name :: name in rest && Waits(s.dir, name) ==> Waits(s1.dir, name) && s1.dir[Ready(name)] == s.dir[Ready(name)]
  {
    forall name | name in rest
      ensures Waits(s1.dir, name) == Waits(s.dir, name)
      ensures Waits(s.dir, name) ==> s1.dir[Ready(name)] == s.dir[Ready(name)]
    {
      assert !Clears(s.dir, Ready(name), [first], sys.claims[j].pid);
    }
    PassingAlike(rest, name => Waits(s1.dir, name), name => Waits(s.dir, name));
    PassingAlike(rest, name => ReadsBack(sys, s1.dir, name), name => ReadsBack(sys, s.dir, name));
  }

  lemma TookOn(sys: System, s: State, s1: State, s2: State, j: nat, first: FileBase, rest: seq<FileBase>)
    requires Fits(sys, s) && Fits(sys, s1) && Fits(sys, s2) && j < |sys.claims| && first !in rest
    requires Took(sys, s, s1, j, [first]) && Took(sys, s1, s2, j, rest)
    ensures Took(sys, s, s2, j, [first] + rest)
  {
    TookLeaves(sys, s, s1, j, first, rest);
    HasOn(sys, s.dir, s1.dir, s.takers[j], s1.takers[j], s2.takers[j], first, rest);
    ClearedOn(s.dir, s1.dir, s2.dir, first, rest, sys.claims[j].pid);
  }

  lemma HasOn(sys: System, dir: Directory, dir1: Directory, t: Taker, t1: Taker, t2: Taker, first: FileBase, rest: seq<FileBase>)
    requires Has(sys, dir, t, t1, [first]) && Has(sys, dir1, t1, t2, rest)
    requires Waiting(dir1, rest) == Waiting(dir, rest) && Whole(sys, dir1, rest) == Whole(sys, dir, rest)
    requires forall name :: name in rest && Waits(dir, name) ==> Waits(dir1, name) && dir1[Ready(name)] == dir[Ready(name)]
    ensures Has(sys, dir, t, t2, [first] + rest)
  {
    BothSplit(sys, dir, first, rest);
    StillReads(sys, dir, dir1, rest);
    GainedOn(sys, dir, dir1, t.got, t1.got, t2.got, Whole(sys, dir, [first]), Whole(sys, dir, rest));
  }

  lemma BothSplit(sys: System, dir: Directory, first: FileBase, rest: seq<FileBase>)
    ensures Waiting(dir, [first] + rest) == Waiting(dir, [first]) + Waiting(dir, rest)
    ensures Whole(sys, dir, [first] + rest) == Whole(sys, dir, [first]) + Whole(sys, dir, rest)
  {
    PassingSplit(first, rest, name => Waits(dir, name));
    PassingSplit(first, rest, name => ReadsBack(sys, dir, name));
  }

  lemma StillReads(sys: System, dir: Directory, dir1: Directory, rest: seq<FileBase>)
    requires forall name :: name in rest && Waits(dir, name) ==> Waits(dir1, name) && dir1[Ready(name)] == dir[Ready(name)]
    ensures forall k, h :: 0 <= k < |Whole(sys, dir, rest)| && ReadsAs(sys, dir1, Whole(sys, dir, rest)[k], h) ==>
              ReadsAs(sys, dir, Whole(sys, dir, rest)[k], h)
  {
    var more := Whole(sys, dir, rest);
    assert forall k :: 0 <= k < |more| ==> more[k] in more;
  }

  lemma PassingSplit(first: FileBase, rest: seq<FileBase>, passes: FileBase -> bool)
    ensures Passing([first] + rest, passes) == Passing([first], passes) + Passing(rest, passes)
  {
    PassingOne(first, passes);
    assert ([first] + rest)[1..] == rest;
  }

  lemma ClearedOn(dir: Directory, dir1: Directory, dir2: Directory, first: FileBase, rest: seq<FileBase>, pid: nat)
    requires first !in rest && Cleared(dir, dir1, [first], pid) && Cleared(dir1, dir2, rest, pid)
    ensures Cleared(dir, dir2, [first] + rest, pid)
  {
    forall file
      ensures file in dir2 <==> file in dir && !Clears(dir, file, [first] + rest, pid)
      ensures file in dir2 ==> dir2[file] == dir[file]
    {
      assert file.name in rest ==> !Clears(dir, Ready(file.name), [first], pid);
    }
  }

  lemma GainedOn(sys: System, dir: Directory, dir1: Directory, got: seq<Handoff>, got1: seq<Handoff>, got2: seq<Handoff>,
                 one: seq<FileBase>, more: seq<FileBase>)
    requires Gained(sys, dir, got, got1, one) && Gained(sys, dir1, got1, got2, more)
    requires forall k, h :: 0 <= k < |more| && ReadsAs(sys, dir1, more[k], h) ==> ReadsAs(sys, dir, more[k], h)
    ensures Gained(sys, dir, got, got2, one + more)
  {
    assert got2[..|got1|][..|got|] == got2[..|got|];
    forall k | 0 <= k < |one| + |more| ensures ReadsAs(sys, dir, (one + more)[k], got2[|got| + k]) {
      if k < |one| {
        assert got2[|got| + k] == got2[..|got1|][|got| + k];
      } else {
        assert ReadsAs(sys, dir1, more[k - |one|], got2[|got1| + (k - |one|)]);
      }
    }
  }

  lemma {:induction false} TakeList(sys: System, s: State, j: nat) returns (run: seq<Event>)
    requires Fits(sys, s) && j < |sys.claims| && s.takers[j].phase.Taking?
    requires forall a, b :: 0 <= a < b < |s.takers[j].todo| ==> s.takers[j].todo[a] != s.takers[j].todo[b]
    ensures var s' := After(sys, s, run);
            s'.takers[j].phase.Returned? && s'.takers[j].todo == [] && Took(sys, s, s', j, s.takers[j].todo)
    decreases |s.takers[j].todo|
  {
    var todo := s.takers[j].todo;
    if todo == [] {
      run := [Take(j, [])];
      assert After(sys, s, run[..0]) == s;
    } else {
      var first := TakeFirst(sys, s, j);
      var s1 := After(sys, s, first);
      assert todo[..1] == [todo[0]] && todo == [todo[0]] + todo[1..];
      var rest := TakeList(sys, s1, j);
      run := first + rest;
      AfterTwo(sys, s, first, rest);
      TookOn(sys, s, s1, After(sys, s1, rest), j, todo[0], todo[1..]);
    }
  }

  /** What a claim promises, run alone from any state with any listing: it returns;
      of the first names listed, up to its limit, it has every handoff that waited and
      reads back, in the listing's order, and counts the others that waited; those
      files are gone and no other file, sender or claim is touched. */
  lemma ClaimAlone(sys: System, s: State, j: nat, listing: seq<FileBase>) returns (run: seq<Event>)
    requires Fits(sys, s) && j < |sys.claims| && s.takers[j] == Taker(Starting, [], [], [], 0) && Lists(sys, s, listing)
    ensures var s', take := After(sys, s, run), listing[..if sys.claims[j].limit < |listing| then sys.claims[j].limit else |listing|];
            s'.takers[j].phase.Returned? && Took(sys, s, s', j, take)
  {
    var start := Take(j, listing);
    assert [start][..0] == [] && After(sys, s, []) == s;
    var s1 := After(sys, s, [start]);
    var rest := TakeList(sys, s1, j);
    run := [start] + rest;
    AfterTwo(sys, s, [start], rest);
  }

  /** Nothing is left behind: from every state of every run, a claim not yet begun,
      with room for what is listed, returns every handoff that waits, and after it
      nothing does. */
  lemma ClaimEmpties(sys: System, run: seq<Event>, j: nat, listing: seq<FileBase>) returns (more: seq<Event>)
    requires sys.Distinct() && sys.Readable() && j < |sys.claims| && |listing| <= sys.claims[j].limit
    requires After(sys, Init(sys), run).takers[j].phase.Starting? && Lists(sys, After(sys, Init(sys), run), listing)
    ensures var s, s' := After(sys, Init(sys), run), After(sys, Init(sys), run + more);
            s'.takers[j].phase.Returned? && WaitingNames(s') == {} && s'.takers[j].lost == 0
            && forall name :: name in s'.takers[j].names <==> name in WaitingNames(s)
  {
    var s := After(sys, Init(sys), run);
    Reachable(sys, run);
    assert TakerSound(sys, s, j);
    assert Line(s.takers[j]) == [];
    more := ClaimAlone(sys, s, j, listing);
    AfterTwo(sys, Init(sys), run, more);
    var s' := After(sys, s, more);
    assert listing[..|listing|] == listing;
    forall name | Waits(s.dir, name) ensures ReadsBack(sys, s.dir, name) && name in listing {
      ReadyIsUnwon(sys, s, name);
    }
    forall name ensures !Waits(s'.dir, name) {
      assert Waits(s.dir, name) ==> Clears(s.dir, Ready(name), listing, sys.claims[j].pid);
    }
    forall name ensures name in WaitingNames(s) <==> Waits(s.dir, name) {
      if Waits(s.dir, name) { assert Ready(name) in s.dir && Ready(name).name == name; }
    }
    NothingTorn(sys, run + more);
  }
}
