/**
  One scope's rounds counted, and the health those counts and the latest outcome
  come to together.
 */
module Tallies {
  import opened Options

  datatype Outcome = Delivered | OneSided(why: string) | Failed(why: string)

  datatype Health = Fine | Working | Stressed | Done

  /** What a health record says, its words taken apart. */
  datatype Evidence =
    | Passed(passed: nat, rounds: nat)
    | PassedNotAlways(passed: nat, rounds: nat, failed: nat)
    | Because(why: string)
    | FailedOf(why: string, failed: nat, rounds: nat)
    | NotYetRun

  datatype Record = Record(health: Health, severity: nat, evidence: Evidence)

  datatype Tally = Tally(rounds: nat, failures: nat, last: Option<Outcome>) {
    predicate Valid() {
      failures <= rounds
    }

    function Fold(outcome: Outcome): Tally {
      Tally(rounds + 1, if outcome.Failed? then failures + 1 else failures, Some(outcome))
    }
  }

  const UNRUN := Tally(0, 0, None)

  /** The failure rate as a severity, for a pair passing now that has failed. */
  function RateSeverity(tally: Tally): nat {
    if tally.rounds == 0 then 40 else
    var rate := (tally.failures * 80) / tally.rounds;
    if rate < 1 then 1 else if rate > 80 then 80 else rate
  }

  function OverTime(tally: Tally): Record
    requires tally.Valid()
  {
    var passed := tally.rounds - tally.failures;
    match tally.last
    case Some(Delivered) =>
      if tally.failures == 0 then Record(Fine, 0, Passed(passed, tally.rounds))
      else Record(Stressed, RateSeverity(tally), PassedNotAlways(passed, tally.rounds, tally.failures))
    case Some(OneSided(why)) => Record(Stressed, 40, Because(why))
    case Some(Failed(why)) => Record(Done, 90, FailedOf(why, tally.failures, tally.rounds))
    case None => Record(Stressed, 40, NotYetRun)
  }

  /** What a record's words say is what was counted: passed and failed are all the
      rounds, and the reason is the last outcome's. */
  lemma EvidenceIsTheCount(t: Tally)
    requires t.Valid()
    ensures match OverTime(t).evidence
            case Passed(passed, rounds) => passed == rounds == t.rounds && t.failures == 0 && t.last == Some(Delivered)
            case PassedNotAlways(passed, rounds, failed) =>
              passed + failed == rounds == t.rounds && failed == t.failures > 0 && t.last == Some(Delivered)
            case Because(why) => t.last == Some(OneSided(why))
            case FailedOf(why, failed, rounds) => failed == t.failures && rounds == t.rounds && t.last == Some(Failed(why))
            case NotYetRun => t.last.None?
    ensures OverTime(t).severity == match OverTime(t).health
                                    case Fine => 0
                                    case Done => 90
                                    case _ => if t.last == Some(Delivered) then RateSeverity(t) else 40
  {
  }

  /** What a record's health tells of the tally, and that a pair failing now reads
      worse than one that does not, and one never failed milder than all. */
  lemma OverTimeTells(t: Tally, u: Tally)
    requires t.Valid() && u.Valid()
    ensures OverTime(t).health.Fine? <==> t.last == Some(Delivered) && t.failures == 0
    ensures OverTime(t).health.Done? <==> t.last.Some? && t.last.value.Failed?
    ensures OverTime(t).health.Done? && !OverTime(u).health.Done? ==> OverTime(u).severity < OverTime(t).severity
    ensures OverTime(t).health.Fine? && !OverTime(u).health.Fine? ==> OverTime(t).severity < OverTime(u).severity
  {
  }

  lemma Cancel(a: nat, b: nat, n: nat)
    requires n > 0 && a * n <= b * n
    ensures a <= b
  {
  }

  lemma QuotientReaches(x: nat, n: nat, s: nat)
    requires n > 0
    ensures s <= x / n <==> s * n <= x
  {
    var q := x / n;
    assert q * n <= x < (q + 1) * n;
    if s <= q { assert s * n <= q * n; } else { assert s * n >= (q + 1) * n; }
  }

  /** The severity of a passing pair is its failures in eighty rounds, no less than
      one and no more than eighty. */
  lemma SeverityIsTheRate(t: Tally, s: nat)
    requires t.Valid() && t.rounds > 0
    ensures s <= RateSeverity(t) <==> s <= 1 || s * t.rounds <= t.failures * 80
  {
    QuotientReaches(t.failures * 80, t.rounds, s);
    if s * t.rounds <= t.failures * 80 { AtMostEighty(t.failures, t.rounds, s); }
  }

  lemma AtMostEighty(f: nat, n: nat, s: nat)
    requires n > 0 && f <= n && s * n <= f * 80
    ensures s <= 80
  {
    assert f * 80 <= 80 * n;
    Cancel(s, 80, n);
  }

  /** A pair that fails more often never reads milder, and one passing now that
      has failed reads between unblemished green and red. */
  lemma SeverityFollowsTheRate(t: Tally, u: Tally)
    requires t.Valid() && u.Valid() && t.rounds > 0 && u.rounds > 0
    requires t.failures * u.rounds <= u.failures * t.rounds
    ensures 1 <= RateSeverity(t) <= RateSeverity(u) <= 80
  {
    var q, r := (t.failures * 80) / t.rounds, (u.failures * 80) / u.rounds;
    assert q * t.rounds <= t.failures * 80;
    assert u.failures * 80 < (r + 1) * u.rounds;
    Between(q, t.failures, t.rounds, u.failures, u.rounds, r + 1);
  }

  lemma Between(q: nat, f: nat, n: nat, g: nat, m: nat, s: nat)
    requires n > 0 && m > 0 && q * n <= f * 80 && f * m <= g * n && g * 80 < s * m
    ensures q < s
  {
    assert (q * m) * n == (q * n) * m <= (f * 80) * m == (f * m) * 80 <= (g * n) * 80 == (g * 80) * n;
    Cancel(q * m, g * 80, n);
    if s * m <= q * m { Cancel(s, q, m); }
  }
}
