/** The bounds a silent node is judged by. */
module Livenesses {
  import opened Options

  datatype Liveness = Liveness(beat: nat, missed: nat, starting: nat) {
    function Silence(): nat {
      beat * missed
    }

    /** Hung, started `running` ago and last heard `quiet` ago, if ever. */
    predicate Hung(running: nat, quiet: Option<nat>) {
      match quiet
      case None => running > starting
      case Some(quiet) => quiet > Silence()
    }
  }

  /** The bounds in use, in milliseconds: ten beats a second, and ten seconds to
      begin or to go silent. */
  const OWNERS := Liveness(100, 100, 10000)
}
