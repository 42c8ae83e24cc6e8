/** The witness state machine: which kind of input the game expects next.
    A running game takes player actions; a sleep question takes a cancel or a
    commit; a prompt is acknowledged; winning and losing end the game. The
    game itself is not part of this model: what it returns from an action,
    a tick or a sleep is an input to each transition. */
module Witness {
  import opened Common

  /** What an action tells the witness to do next. */
  datatype ControlFlow = Prompt(message: string) | Sleep | Win | GameOver

  /** What a tick may produce. */
  datatype TickOutput = Prompt(message: string)

  datatype Witness = Running | Sleep | Prompt(message: string) | GameOver | Win

  /** The witness after an action's control flow, starting from Running. */
  function HandleControlFlow(cf: Option<ControlFlow>): (w: Witness)
    ensures cf.None? <==> w.Running?
    ensures w.Prompt? <==> cf.Some? && cf.value.Prompt?
    ensures w.Prompt? ==> w.message == cf.value.message
    ensures w.Sleep? <==> cf == Some(ControlFlow.Sleep)
    ensures w.Win? <==> cf == Some(ControlFlow.Win)
    ensures w.GameOver? <==> cf == Some(ControlFlow.GameOver)
  {
    match cf
    case None => Running
    case Some(controlFlow) =>
      match controlFlow
      case Prompt(message) => Witness.Prompt(message)
      case Sleep => Witness.Sleep
      case Win => Witness.Win
      case GameOver => Witness.GameOver
  }

  /** The witness and result after an action that can fail: a failed action
      leaves the game running and passes the error on; a successful one
      follows its control flow. */
  function HandleControlFlowResult<E>(cfr: Result<Option<ControlFlow>, E>): (r: (Witness, Result<(), E>))
    ensures cfr.Err? ==> r == (Running, Err(cfr.error))
    ensures cfr.Ok? ==> r == (HandleControlFlow(cfr.value), Ok(()))
  {
    match cfr
    case Ok(maybeControlFlow) => (HandleControlFlow(maybeControlFlow), Ok(()))
    case Err(e) => (Running, Err(e))
  }

  /** The witness after a tick: running unless the tick raised a prompt. */
  function Tick(output: Option<TickOutput>): (w: Witness)
    ensures output.None? <==> w.Running?
    ensures output.Some? ==> w == Witness.Prompt(output.value.message)
  {
    match output
    case None => Running
    case Some(Prompt(message)) => Witness.Prompt(message)
  }

  /** Waiting cannot fail: it follows the control flow and returns no error. */
  function PlayerWait(cf: Option<ControlFlow>): (w: Witness)
    ensures w == HandleControlFlowResult<()>(Ok(cf)).0
  {
    HandleControlFlow(cf)
  }

  /** Declining to sleep resumes the game. */
  function SleepCancel(): (w: Witness)
    ensures w.Running?
  {
    Running
  }

  /** Sleeping ends the game if it is then won, and otherwise shows the
      sleep prompt. */
  function SleepCommit(isWon: bool, sleepPrompt: string): (w: Witness)
    ensures w.Win? <==> isWon
    ensures !isWon ==> w == Witness.Prompt(sleepPrompt)
  {
    if isWon then Witness.Win else Witness.Prompt(sleepPrompt)
  }

  /** Acknowledging a prompt resumes the game. */
  function PromptRunning(message: string): (w: Witness)
    ensures w.Running?
  {
    Running
  }

  function PromptMessage(w: Witness): (m: string)
    requires w.Prompt?
  {
    w.message
  }

  /** A prompt raised by an action or a tick carries its message through
      unchanged and, once acknowledged, resumes the game. */
  lemma PromptRoundTrip(m: string)
    ensures PromptMessage(HandleControlFlow(Some(ControlFlow.Prompt(m)))) == m
    ensures PromptMessage(Tick(Some(TickOutput.Prompt(m)))) == m
    ensures PromptRunning(PromptMessage(HandleControlFlow(Some(ControlFlow.Prompt(m))))) == Running
  {
  }

  /** The witnesses a transition out of each state can reach: from Running
      anything; from Sleep only Running, Win or a prompt; from a prompt only
      Running; nothing from Win or GameOver. */
  predicate Step(from: Witness, to: Witness) {
    match from
    case Running => true
    case Sleep => to.Running? || to.Win? || to.Prompt?
    case Prompt(_) => to.Running?
    case Win => false
    case GameOver => false
  }

  /** Every transition of the witness stays inside Step, and the game can
      only end from Running or from a sleep. */
  lemma TransitionsAreSteps(output: Option<TickOutput>, isWon: bool, sleepPrompt: string, m: string)
    ensures Step(Witness.Sleep, SleepCancel()) && Step(Witness.Sleep, SleepCommit(isWon, sleepPrompt))
    ensures Step(Witness.Prompt(m), PromptRunning(m))
    ensures !Tick(output).Win? && !Tick(output).GameOver?
    ensures !SleepCommit(isWon, sleepPrompt).GameOver?
  {
  }
}
