/**
  A node under the cluster's ticks: each a number of reads and then a judgement.
  What is proved of a life of reads and judgements holds over any ticks.
 */
module Supervision {
  import opened Options
  import opened Livenesses
  import opened Members
  import opened Beats
  import opened BeatFiles
  import opened Clusters

  /** What one tick met of node `i`: the passes it made and the judgement. */
  datatype Ticked = Ticked(passes: seq<Pass>, judging: Judging)

  ghost predicate Covers(ticks: seq<Ticked>, i: nat) {
    forall t :: t in ticks ==> Sees(t.passes, i)
  }

  ghost predicate Sees(passes: seq<Pass>, i: nat) {
    forall p :: p in passes ==> i < |p.found|
  }

  /** A member after whole ticks, each as `Cluster.Tick` leaves it. */
  ghost function Supervised(parse: Parse, liveness: Liveness, k: Known, ticks: seq<Ticked>, i: nat): Known
    requires Covers(ticks, i)
  {
    if ticks == [] then k
    else
      var n := |ticks| - 1;
      var before := Supervised(parse, liveness, k, ticks[..n], i);
      Judged(parse, liveness, Polled(parse, before, ticks[n].passes, i), ticks[n].judging)
  }

  ghost function ReadsOf(passes: seq<Pass>, i: nat): seq<Op>
    requires Sees(passes, i)
  {
    if passes == [] then []
    else ReadsOf(passes[..|passes| - 1], i) + [Reads(passes[|passes| - 1].found[i])]
  }

  /** The reads and judgements a node lives through over the ticks. */
  ghost function OpsOf(ticks: seq<Ticked>, i: nat): seq<Op>
    requires Covers(ticks, i)
  {
    if ticks == [] then []
    else
      var n := |ticks| - 1;
      OpsOf(ticks[..n], i) + ReadsOf(ticks[n].passes, i) + [Judges(ticks[n].judging)]
  }

  function Applied(parse: Parse, liveness: Liveness, k: Known, op: Op): Known {
    match op
    case Reads(found) => Read(parse, k, found)
    case Judges(judging) => Judged(parse, liveness, k, judging)
  }

  lemma ListenedAlike(parse: Parse, a: Known, b: Known, text: Option<string>, now: Time)
    requires Alike(a, b)
    ensures Alike(Listened(parse, a, text, now), Listened(parse, b, text, now))
  {
  }

  lemma ReadKeepsVitals(parse: Parse, k: Known, found: Found)
    ensures Alike(Read(parse, k, found), Listened(parse, k, found.text, found.at))
  {
  }

  lemma HungAlike(liveness: Liveness, a: Known, b: Known, now: Time)
    requires Alike(a, b)
    ensures Hung(liveness, a, now) <==> Hung(liveness, b, now)
  {
  }

  /** What a hung process is left as. */
  function Relaunched(k: Known, j: Judging): Known {
    var killed := Killed(k, j.killed);
    var counted := killed.(restarts := killed.restarts + 1);
    if j.restart.Some? then Restarted(counted, j.restart.value) else counted
  }

  lemma RelaunchedAlike(a: Known, b: Known, j: Judging)
    requires Alike(a, b)
    ensures Alike(Relaunched(a, j), Relaunched(b, j))
  {
  }

  lemma JudgedIs(parse: Parse, liveness: Liveness, k: Known, j: Judging)
    ensures var heard := Listened(parse, Reaped(k, j.status), j.text, j.heard);
            Judged(parse, liveness, k, j) == if Hung(liveness, heard, j.judged) then Relaunched(heard, j) else heard
  {
  }

  lemma JudgedAlike(parse: Parse, liveness: Liveness, a: Known, b: Known, j: Judging)
    requires Alike(a, b)
    ensures Alike(Judged(parse, liveness, a, j), Judged(parse, liveness, b, j))
  {
    JudgedIs(parse, liveness, a, j);
    JudgedIs(parse, liveness, b, j);
    ListenedAlike(parse, Reaped(a, j.status), Reaped(b, j.status), j.text, j.heard);
    var heard, heard' := Listened(parse, Reaped(a, j.status), j.text, j.heard), Listened(parse, Reaped(b, j.status), j.text, j.heard);
    HungAlike(liveness, heard, heard', j.judged);
    RelaunchedAlike(heard, heard', j);
  }

  /** What liveness is judged by follows from itself alone. */
  lemma AlikeStays(parse: Parse, liveness: Liveness, a: Known, b: Known, op: Op)
    requires Alike(a, b)
    ensures Alike(Applied(parse, liveness, a, op), Applied(parse, liveness, b, op))
  {
    match op
    case Reads(found) =>
      ReadKeepsVitals(parse, a, found);
      ReadKeepsVitals(parse, b, found);
      ListenedAlike(parse, a, b, found.text, found.at);
    case Judges(judging) =>
      JudgedAlike(parse, liveness, a, b, judging);
  }

  lemma LivedOn(parse: Parse, liveness: Liveness, k: Known, ops: seq<Op>, op: Op)
    ensures Lived(parse, liveness, k, ops + [op]) == Applied(parse, liveness, Lived(parse, liveness, k, ops), op)
  {
    assert (ops + [op])[..|ops|] == ops;
  }

  lemma {:induction false} PolledIsLived(parse: Parse, liveness: Liveness, k: Known, b: Known, ops: seq<Op>, passes: seq<Pass>, i: nat)
    requires Sees(passes, i) && Alike(b, Lived(parse, liveness, k, ops))
    ensures Alike(Polled(parse, b, passes, i), Lived(parse, liveness, k, ops + ReadsOf(passes, i)))
  {
    if passes == [] {
      assert ops + [] == ops;
    } else {
      var n := |passes| - 1;
      var polls, op := ReadsOf(passes[..n], i), Reads(passes[n].found[i]);
      PolledIsLived(parse, liveness, k, b, ops, passes[..n], i);
      assert ops + ReadsOf(passes, i) == (ops + polls) + [op];
      LivedOn(parse, liveness, k, ops + polls, op);
      AlikeStays(parse, liveness, Polled(parse, b, passes[..n], i), Lived(parse, liveness, k, ops + polls), op);
    }
  }

  lemma {:induction false} SupervisedIsLived(parse: Parse, liveness: Liveness, k: Known, ticks: seq<Ticked>, i: nat)
    requires Covers(ticks, i)
    ensures Alike(Supervised(parse, liveness, k, ticks, i), Lived(parse, liveness, k, OpsOf(ticks, i)))
  {
    if ticks != [] {
      var n := |ticks| - 1;
      var before, ops := Supervised(parse, liveness, k, ticks[..n], i), OpsOf(ticks[..n], i);
      var polls, op := ReadsOf(ticks[n].passes, i), Judges(ticks[n].judging);
      SupervisedIsLived(parse, liveness, k, ticks[..n], i);
      PolledIsLived(parse, liveness, k, before, ops, ticks[n].passes, i);
      LivedOn(parse, liveness, k, ops + polls, op);
      AlikeStays(parse, liveness, Polled(parse, before, ticks[n].passes, i), Lived(parse, liveness, k, ops + polls), op);
    }
  }

  /** However many ticks, however many passes each and however long they take, a
      node that beats in time is the process it was. */
  lemma SteadyOutlivesEveryTick(parse: Parse, liveness: Liveness, k: Known, p: Pulse, ticks: seq<Ticked>, i: nat, lag: nat)
    requires Covers(ticks, i)
    requires JustStarted(k) && p.since == k.since && Steady(p) && Fits(p, liveness, lag)
    requires Audible(p, k.beatText, ListensOf(OpsOf(ticks, i))) && forall op :: op in OpsOf(ticks, i) ==> Prompt(op, lag)
    ensures var s := Supervised(parse, liveness, k, ticks, i); s.alive && s.restarts == k.restarts
  {
    SupervisedIsLived(parse, liveness, k, ticks, i);
    SteadyIsNeverRestarted(parse, liveness, k, p, OpsOf(ticks, i), lag);
  }

  /** And so for beats as they are on disk: over any ticks a node whose beats are
      whole in time is never restarted unless a torn one shows the text held. */
  lemma SteadyFileOutlivesEveryTick(parse: Parse, liveness: Liveness, k: Known, p: Pulse, d: Disk, stale: string,
                                    ticks: seq<Ticked>, i: nat, caught: seq<Caught>, lag: nat)
    requires Covers(ticks, i)
    requires JustStarted(k) && p.since == k.since && Steady(p) && Fits(p, liveness, lag)
    requires HeardFrom(p, d, stale, k.beatText, OpsOf(ticks, i), caught) && forall op :: op in OpsOf(ticks, i) ==> Prompt(op, lag)
    ensures var s := Supervised(parse, liveness, k, ticks, i); s.alive && s.restarts == k.restarts
  {
    SupervisedIsLived(parse, liveness, k, ticks, i);
    SteadyFileIsNeverRestarted(parse, liveness, k, p, d, stale, OpsOf(ticks, i), caught, lag);
  }
}
