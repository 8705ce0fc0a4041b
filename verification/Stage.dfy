/** The three stages a pair goes through, in order. */
module Stages {
  import opened Options

  datatype Stage = Receive | Process | Send

  function NextStage(stage: Stage): Option<Stage> {
    match stage
    case Receive => Some(Process)
    case Process => Some(Send)
    case Send => None
  }

  /** A stage's name, as files, directories and hops carry it. */
  function StageWord(stage: Stage): string {
    match stage
    case Receive => "receive"
    case Process => "process"
    case Send => "send"
  }
}
