/**
  A member of the cluster: whether its process runs, and what its beat and its
  publication last said.
 */
module Members {
  import opened Options
  import opened Livenesses
  import opened Tallies

  type Scope = string
  type Time = nat

  /** What a health record says, its words taken apart for a process's own. */
  datatype Words =
    | Free(text: string)
    | ExitedWith(status: int)
    | Finished
    | FinishedRestarted(restarts: nat)
    | NoBeatYet
    | FirstRoundUnderWay
    | Alive
    | AliveRestarted(restarts: nat)

  datatype Said = Said(health: Health, severity: nat, words: Words)

  datatype Published = Published(said: Said, observed: int)

  type Snapshot = map<Scope, Published>

  /** All that is remembered of one node. */
  datatype Known = Known(alive: bool, exit: Option<int>, published: Snapshot, renewed: bool, restarts: nat,
                         since: Time, beat: Option<Time>, beatText: string, rounds: nat,
                         readAt: Option<nat>, parses: nat)

  function Started(now: Time): Known {
    Known(true, None, map[], false, 0, now, None, "", 0, None, 0)
  }

  function Elapsed(from: Time, to: Time): nat {
    if to < from then 0 else to - from
  }

  /** How a beat's text is read: the rounds it says, when it is whole. */
  type Parse = string -> Option<nat>

  /** A changed beat, whole or not, is a sign of life. */
  function Listened(parse: Parse, k: Known, text: Option<string>, now: Time): Known {
    if text.None? || text.value == k.beatText then k
    else k.(rounds := (if parse(text.value).Some? then parse(text.value).value else k.rounds),
            beat := Some(now), beatText := text.value)
  }

  /** What a read finds: the beat's text and when, and the publication where it
      can be read and parsed. */
  datatype Found = Found(text: Option<string>, at: Time, file: Option<Snapshot>)

  predicate Due(k: Known) {
    k.rounds != 0 && k.readAt != Some(k.rounds)
  }

  function Read(parse: Parse, k: Known, found: Found): Known {
    var heard := Listened(parse, k, found.text, found.at);
    if !Due(heard) || found.file.None? then heard
    else heard.(published := found.file.value, readAt := Some(heard.rounds), parses := heard.parses + 1, renewed := true)
  }

  function Restarted(k: Known, now: Time): Known {
    k.(alive := true, exit := None, since := now, beat := None, rounds := 0)
  }

  function Reaped(k: Known, status: Option<int>): Known {
    if k.alive && status.Some? then k.(alive := false, exit := status) else k
  }

  function Killed(k: Known, status: Option<int>): Known {
    if k.alive then k.(alive := false, exit := status) else k
  }

  predicate Hung(liveness: Liveness, k: Known, now: Time) {
    k.alive && liveness.Hung(Elapsed(k.since, now), if k.beat.Some? then Some(Elapsed(k.beat.value, now)) else None)
  }

  /** What judging a process meets: its exit, its beat and when it was heard,
      when it is judged, how a kill ends, and when a restart came up, if it did. */
  datatype Judging = Judging(status: Option<int>, text: Option<string>, heard: Time, judged: Time,
                             killed: Option<int>, restart: Option<Time>)

  function Judged(parse: Parse, liveness: Liveness, k: Known, j: Judging): Known {
    var heard := Listened(parse, Reaped(k, j.status), j.text, j.heard);
    if !Hung(liveness, heard, j.judged) then heard
    else
      var killed := Killed(heard, j.killed);
      var counted := killed.(restarts := killed.restarts + 1);
      if j.restart.Some? then Restarted(counted, j.restart.value) else counted
  }

  /** What the cluster says of the process itself. */
  function ProcessRecord(k: Known): Said {
    match k.exit
    case Some(status) =>
      if status != 0 then Said(Done, 90, ExitedWith(status))
      else if k.restarts == 0 then Said(Fine, 0, Finished)
      else Said(Stressed, 60, FinishedRestarted(k.restarts))
    case None =>
      if k.restarts > 0 then Said(Stressed, 60, AliveRestarted(k.restarts))
      else if k.beat.None? then Said(Working, 20, NoBeatYet)
      else if k.rounds == 0 then Said(Working, 20, FirstRoundUnderWay)
      else Said(Fine, 0, Alive)
  }

  /** Comparing health and words is comparing records. */
  lemma SeverityFollowsHealth(a: Known, b: Known)
    requires ProcessRecord(a).health == ProcessRecord(b).health && ProcessRecord(a).words == ProcessRecord(b).words
    ensures ProcessRecord(a) == ProcessRecord(b)
  {
  }

  /** What a record tells of the process, and nothing else has it: Done where it
      failed, Stressed where it was restarted, Fine where it finished or runs and has
      counted a round, Working where it has still to; the worse the more severe, in
      words that say its exit and how often it was restarted. */
  lemma RecordTells(k: Known)
    ensures var failed, r := k.exit.Some? && k.exit.value != 0, ProcessRecord(k);
            && (r.health.Done? <==> failed)
            && (r.health.Stressed? <==> !failed && k.restarts > 0)
            && (r.health.Working? <==> k.exit.None? && k.restarts == 0 && (k.beat.None? || k.rounds == 0))
            && r.severity == (match r.health case Fine => 0 case Working => 20 case Stressed => 60 case Done => 90)
            && (failed ==> r.words == ExitedWith(k.exit.value))
            && (r.words.FinishedRestarted? || r.words.AliveRestarted? <==> r.health.Stressed?)
            && (r.words.FinishedRestarted? || r.words.AliveRestarted? ==> r.words.restarts == k.restarts)
            && (r.words.ExitedWith? || r.words.Finished? || r.words.FinishedRestarted? <==> k.exit.Some?)
            && (r.words.NoBeatYet? <==> r.health.Working? && k.beat.None?) && !r.words.Free?
            && (r.words.Finished? || r.words.Alive? <==> r.health.Fine?)
  {
  }

  /** A process just started has not beaten; nothing is parsed before it says a round,
      and a first beat of none leaves it in its first round. */
  lemma StartsUnheard(parse: Parse, now: Time, found: Found)
    ensures ProcessRecord(Started(now)) == Said(Working, 20, NoBeatYet)
    ensures found.text.None? ==> Read(parse, Started(now), found) == Started(now)
    ensures found.text.Some? && found.text.value != "" && parse(found.text.value) == Some(0) ==>
              var r := Read(parse, Started(now), found);
              r.parses == 0 && r.published == map[] && ProcessRecord(r) == Said(Working, 20, FirstRoundUnderWay)
  {
  }

  /** The publication changes only where the read says so. */
  lemma FreshOrSame(parse: Parse, k: Known, found: Found)
    ensures var r := Read(parse, k, found); (k.renewed ==> r.renewed) && (!r.renewed ==> r.published == k.published)
  {
  }

  /** What a read comes to: the publication is parsed exactly where there is one and
      the rounds heard by then are some, and not those it was last parsed at; and no
      read touches whether the process runs or how often it was restarted. */
  lemma ReadComesTo(parse: Parse, k: Known, found: Found)
    ensures var r := Read(parse, k, found);
            && (r.parses == k.parses || r.parses == k.parses + 1)
            && (r.parses == k.parses + 1 <==> found.file.Some? && r.rounds > 0 && k.readAt != Some(r.rounds))
            && (r.parses != k.parses ==> Some(r.published) == found.file && r.readAt == Some(r.rounds) && r.renewed)
            && (r.parses == k.parses ==> r.published == k.published && r.readAt == k.readAt && r.renewed == k.renewed)
            && r.alive == k.alive && r.exit == k.exit && r.restarts == k.restarts && r.since == k.since
  {
  }

  lemma JudgedKeepsPublished(parse: Parse, liveness: Liveness, k: Known, j: Judging)
    ensures var r := Judged(parse, liveness, k, j); r.published == k.published && r.renewed == k.renewed
  {
  }

  /** What one judgement comes to. Not restarted, the process is as it was, or has
      exited as its status says. Restarted, it is counted, and where it came up it is
      as just started then, but for what was read of it; where it did not, it is left
      as it was killed. */
  lemma JudgementComesTo(parse: Parse, liveness: Liveness, k: Known, j: Judging)
    ensures var r := Judged(parse, liveness, k, j);
            && r.published == k.published && r.renewed == k.renewed && r.readAt == k.readAt && r.parses == k.parses
            && r.beatText == (if j.text.Some? then j.text.value else k.beatText)
            && (r.restarts == k.restarts || (r.restarts == k.restarts + 1 && k.alive && j.status.None?))
            && (r.restarts == k.restarts ==>
                  && r.since == k.since
                  && (r.alive <==> k.alive && j.status.None?)
                  && r.exit == if k.alive && j.status.Some? then j.status else k.exit)
            && (r.restarts != k.restarts ==>
                  if j.restart.Some? then r.alive && r.exit.None? && r.since == j.restart.value && r.beat.None? && r.rounds == 0
                  else !r.alive && r.exit == j.killed)
  {
  }

  /** A restart forgets the rounds but not the count last read at: over it, a
      whole beat brings the new life's publication in unless the count it says is
      the one the old life was last read at. */
  lemma RestartMaySkip(parse: Parse, k: Known, now: Time, found: Found)
    requires found.text.Some? && found.text.value != k.beatText && found.file.Some?
    requires parse(found.text.value).Some? && parse(found.text.value).value > 0
    ensures var r := Read(parse, Restarted(k, now), found);
            if k.readAt == parse(found.text.value) then r.published == k.published && r.parses == k.parses
            else r.published == found.file.value && r.renewed && r.parses == k.parses + 1
  {
  }

  class Member {
    const scope: Scope
    const parse: Parse
    var alive: bool
    var exit: Option<int>
    var published: Snapshot
    var renewed: bool
    var restarts: nat
    var since: Time
    var beat: Option<Time>
    var beatText: string
    var rounds: nat
    var readAt: Option<nat>
    var parses: nat

    ghost function State(): Known
      reads this
    {
      Known(alive, exit, published, renewed, restarts, since, beat, beatText, rounds, readAt, parses)
    }

    constructor (scope: Scope, parse: Parse, now: Time)
      ensures State() == Started(now) && this.scope == scope && this.parse == parse
    {
      this.scope, this.parse := scope, parse;
      alive, exit, published, renewed, restarts, since := true, None, map[], false, 0, now;
      beat, beatText, rounds, readAt, parses := None, "", 0, None, 0;
    }

    method Listen(text: Option<string>, now: Time)
      modifies this`rounds, this`beat, this`beatText
      ensures State() == Listened(parse, old(State()), text, now)
    {
      if text.Some? && text.value != beatText {
        var said := parse(text.value);
        if said.Some? {
          rounds := said.value;
        }
        beat := Some(now);
        beatText := text.value;
      }
    }

    /** Listen, and look at the publication only at a count not looked at yet. */
    method ReadFile(found: Found)
      modifies this
      ensures State() == Read(parse, old(State()), found)
    {
      Listen(found.text, found.at);
      if rounds == 0 || readAt == Some(rounds) {
        return;
      }
      if found.file.Some? {
        published := found.file.value;
        readAt := Some(rounds);
        parses := parses + 1;
        renewed := true;
      }
    }

    method Reap(status: Option<int>)
      modifies this`alive, this`exit
      ensures State() == Reaped(old(State()), status)
    {
      if alive && status.Some? {
        exit := status;
        alive := false;
      }
    }

    method Kill(status: Option<int>)
      modifies this`alive, this`exit
      ensures State() == Killed(old(State()), status)
    {
      if alive {
        alive := false;
        exit := status;
      }
    }

    method Restart(now: Time)
      modifies this`alive, this`exit, this`since, this`beat, this`rounds
      ensures State() == Restarted(old(State()), now)
    {
      alive, exit, since, beat, rounds := true, None, now, None, 0;
    }

    method IsHung(liveness: Liveness, now: Time) returns (hung: bool)
      ensures hung == Hung(liveness, State(), now)
    {
      hung := alive && liveness.Hung(Elapsed(since, now), if beat.Some? then Some(Elapsed(beat.value, now)) else None);
    }

    method Record() returns (said: Said)
      ensures said == ProcessRecord(State())
    {
      if exit.Some? {
        if exit.value != 0 {
          return Said(Done, 90, ExitedWith(exit.value));
        }
        return if restarts == 0 then Said(Fine, 0, Finished) else Said(Stressed, 60, FinishedRestarted(restarts));
      }
      if restarts > 0 {
        return Said(Stressed, 60, AliveRestarted(restarts));
      }
      return if beat.None? then Said(Working, 20, NoBeatYet)
             else if rounds == 0 then Said(Working, 20, FirstRoundUnderWay) else Said(Fine, 0, Alive);
    }

    /** Take an exit, listen once more, and only then judge; a hung one is killed,
        counted and started again. */
    method Judge(liveness: Liveness, j: Judging)
      modifies this
      ensures State() == Judged(parse, liveness, old(State()), j)
    {
      Reap(j.status);
      Listen(j.text, j.heard);
      var hung := IsHung(liveness, j.judged);
      if hung {
        Kill(j.killed);
        restarts := restarts + 1;
        if j.restart.Some? {
          Restart(j.restart.value);
        }
      }
    }
  }
}
