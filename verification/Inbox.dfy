/**
  The inbox protocol: a sender's file becomes ready by a rename once it is whole,
  and a claimer's by a rename of its own that only one wins. Any number of senders
  and claimers, any interleaving of their file operations.
 */
module Inboxes {
  import opened Options
  import opened Bytes
  import opened Handoffs
  import opened FileNames

  type FileBase = seq<Byte>

  /** A handoff, the name it is delivered under and the bytes it is written as. */
  datatype Letter = Letter(name: FileBase, handoff: Handoff, raw: seq<Byte>)

  /** One call to claim: its process, and how many it takes at most. */
  datatype Claim = Claim(pid: nat, limit: nat)

  /** The letters to deliver, the claims to make, how a file is read back and
      how names sort. `Posted` is the system as it is. */
  datatype System = System(letters: seq<Letter>, claims: seq<Claim>,
                           decode: seq<Byte> -> Option<Handoff>, before: (FileBase, FileBase) -> bool)
  {
    ghost predicate Readable() {
      forall i :: 0 <= i < |letters| ==> decode(letters[i].raw) == Some(letters[i].handoff)
    }

    ghost predicate Distinct() {
      forall i, j :: 0 <= i < j < |letters| ==> letters[i].name != letters[j].name
    }

    /** `name` is a letter's, and that letter carries `handoff`. */
    ghost predicate Carries(name: FileBase, handoff: Handoff) {
      exists i :: 0 <= i < |letters| && letters[i].name == name && letters[i].handoff == handoff
    }

    /** `name` is a letter's that is written as `raw`. */
    ghost predicate Writes(name: FileBase, raw: seq<Byte>) {
      exists i :: 0 <= i < |letters| && letters[i].name == name && letters[i].raw == raw
    }

    predicate Ascending(names: seq<FileBase>) {
      forall i, j :: 0 <= i < j < |names| ==> before(names[i], names[j]) && names[i] != names[j]
    }
  }

  /** The inbox as it is: each handoff under its sender's count, encoded, read
      back by decoding, names sorted byte by byte. */
  function Posted(handoffs: seq<Handoff>, counts: seq<U64>, claims: seq<Claim>): System
    requires |handoffs| == |counts|
  {
    System(seq(|handoffs|, i requires 0 <= i < |handoffs| =>
             Letter(FileName(handoffs[i], counts[i]), handoffs[i], Encode(handoffs[i]))),
           claims, Decode, SortsBefore)
  }

  datatype File = Writing(name: FileBase) | Ready(name: FileBase) | Claimed(name: FileBase, pid: nat)

  type Directory = map<File, seq<Byte>>

  datatype Sender = Idle | Filling(written: nat) | Sent

  datatype Phase = Starting | Taking | Reading(name: FileBase) | Removing(name: FileBase) | Returned

  /** A claim under way: what is left to try, and what it took under which
      names. `names` is not kept by the program: the properties are about it. */
  datatype Taker = Taker(phase: Phase, todo: seq<FileBase>, names: seq<FileBase>, got: seq<Handoff>, lost: nat)

  /** `won` notes whose rename of each name succeeded; no step reads it. */
  datatype State = State(dir: Directory, senders: seq<Sender>, takers: seq<Taker>, won: map<FileBase, nat>)

  datatype Event = Send(sender: nat, upTo: nat) | Take(taker: nat, listing: seq<FileBase>)

  ghost predicate Fits(sys: System, s: State) {
    |s.senders| == |sys.letters| && |s.takers| == |sys.claims|
  }

  function Init(sys: System): State {
    State(map[], seq(|sys.letters|, _ => Idle), seq(|sys.claims|, _ => Taker(Starting, [], [], [], 0)), map[])
  }

  /** Create the temporary file, write it a part at a time, rename it. */
  ghost function SendStep(sys: System, s: State, i: nat, upTo: nat): State
    requires Fits(sys, s) && i < |sys.letters|
  {
    var letter, raw := sys.letters[i], sys.letters[i].raw;
    match s.senders[i]
    case Idle => s.(dir := s.dir[Writing(letter.name) := []], senders := s.senders[i := Filling(0)])
    case Filling(written) =>
      if written < |raw| then
        if written < upTo <= |raw| then
          s.(dir := s.dir[Writing(letter.name) := raw[..upTo]], senders := s.senders[i := Filling(upTo)])
        else s
      else if Writing(letter.name) in s.dir then
        s.(dir := (s.dir - {Writing(letter.name)})[Ready(letter.name) := s.dir[Writing(letter.name)]],
           senders := s.senders[i := Sent])
      else s
    case Sent => s
  }

  /** A sorted listing: everything ready, and perhaps names gone meanwhile. */
  ghost predicate Lists(sys: System, s: State, listing: seq<FileBase>) {
    sys.Ascending(listing) && forall name :: Ready(name) in s.dir ==> name in listing
  }

  /** Rename a file to this claim's own name for it, read it, remove it. */
  ghost function TakeStep(sys: System, s: State, j: nat, listing: seq<FileBase>): State
    requires Fits(sys, s) && j < |sys.claims|
  {
    var claim, t := sys.claims[j], s.takers[j];
    match t.phase
    case Starting =>
      if !Lists(sys, s, listing) then s else
      var take := if claim.limit < |listing| then claim.limit else |listing|;
      s.(takers := s.takers[j := t.(phase := Taking, todo := listing[..take])])
    case Taking =>
      if t.todo == [] then s.(takers := s.takers[j := t.(phase := Returned)]) else
      var name, rest := t.todo[0], t.todo[1..];
      if Ready(name) !in s.dir then s.(takers := s.takers[j := t.(todo := rest)]) else
      State((s.dir - {Ready(name)})[Claimed(name, claim.pid) := s.dir[Ready(name)]],
            s.senders,
            s.takers[j := t.(phase := Reading(name), todo := rest)],
            s.won[name := j])
    case Reading(name) =>
      var mine := Claimed(name, claim.pid);
      var read := if mine in s.dir then sys.decode(s.dir[mine]) else None;
      var t' := if read.Some? then t.(names := t.names + [name], got := t.got + [read.value]) else t.(lost := t.lost + 1);
      s.(takers := s.takers[j := t'.(phase := Removing(name))])
    case Removing(name) =>
      s.(dir := s.dir - {Claimed(name, claim.pid)}, takers := s.takers[j := t.(phase := Taking)])
    case Returned => s
  }

  ghost function Next(sys: System, s: State, e: Event): (s': State)
    requires Fits(sys, s)
    ensures Fits(sys, s')
  {
    match e
    case Send(i, upTo) => if i < |sys.letters| then SendStep(sys, s, i, upTo) else s
    case Take(j, listing) => if j < |sys.claims| then TakeStep(sys, s, j, listing) else s
  }

  ghost function After(sys: System, s: State, run: seq<Event>): (s': State)
    requires Fits(sys, s)
    ensures Fits(sys, s')
  {
    if run == [] then s else Next(sys, After(sys, s, run[..|run| - 1]), run[|run| - 1])
  }

  ghost predicate SenderSound(sys: System, s: State, i: nat)
    requires Fits(sys, s) && i < |sys.letters|
  {
    var name, raw := sys.letters[i].name, sys.letters[i].raw;
    match s.senders[i]
    case Idle => Ready(name) !in s.dir && name !in s.won
    case Filling(written) =>
      && written <= |raw| && Ready(name) !in s.dir && name !in s.won
      && Writing(name) in s.dir && s.dir[Writing(name)] == raw[..written]
    case Sent =>
      if name in s.won then Ready(name) !in s.dir else Ready(name) in s.dir && s.dir[Ready(name)] == raw
  }

  /** The names a claim has had to do with and will, in order. */
  function Line(t: Taker): seq<FileBase> {
    t.names + (if t.phase.Reading? then [t.phase.name] else []) + t.todo
  }

  ghost predicate TakerSound(sys: System, s: State, j: nat)
    requires Fits(sys, s) && j < |sys.claims|
  {
    var t := s.takers[j];
    && |t.names| == |t.got| && t.lost == 0 && sys.Ascending(Line(t))
    && (t.phase.Starting? ==> Line(t) == [])
    && (forall k :: 0 <= k < |t.names| ==>
          t.names[k] in s.won && s.won[t.names[k]] == j && sys.Carries(t.names[k], t.got[k]))
    && (t.phase.Reading? ==>
          && t.phase.name in s.won && s.won[t.phase.name] == j
          && Claimed(t.phase.name, sys.claims[j].pid) in s.dir
          && sys.Writes(t.phase.name, s.dir[Claimed(t.phase.name, sys.claims[j].pid)]))
    && (t.phase.Removing? ==> t.names != [] && t.names[|t.names| - 1] == t.phase.name)
  }

  ghost predicate WonSound(sys: System, s: State, name: FileBase)
    requires Fits(sys, s) && name in s.won
  {
    && s.won[name] < |s.takers|
    && (s.takers[s.won[name]].phase == Reading(name) || name in s.takers[s.won[name]].names)
    && exists i :: 0 <= i < |sys.letters| && sys.letters[i].name == name && s.senders[i].Sent?
  }

  ghost predicate ReadySound(sys: System, s: State, name: FileBase)
    requires Fits(sys, s)
  {
    Ready(name) in s.dir ==> exists i :: 0 <= i < |sys.letters| && sys.letters[i].name == name && s.senders[i].Sent?
  }

  ghost predicate Inv(sys: System, s: State) {
    && sys.Distinct() && sys.Readable() && Fits(sys, s)
    && (forall i :: 0 <= i < |sys.letters| ==> SenderSound(sys, s, i))
    && (forall j :: 0 <= j < |sys.claims| ==> TakerSound(sys, s, j))
    && (forall name :: name in s.won ==> WonSound(sys, s, name))
    && (forall name :: ReadySound(sys, s, name))
  }
}
