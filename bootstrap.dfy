/**
  The bootstrap conversation: the configured prompts are sent to the agent one per turn,
  under a global deadline, and the run counts as completed when BOOTSTRAP.md is gone
  afterwards.

  The clock and the agent are inputs. `steps(i)` says, for the `i`-th prompt (from 0), how
  many seconds had elapsed since the start when the turn began and what the agent call did.
*/
module Bootstrap {
  import opened Common
  import opened Text
  import Config

  /** A failed agent call reports its response with this prefix. */
  const ErrorTag := "[ERROR]"
  const DeadlineError := "Global bootstrap timeout exceeded"

  /** One turn: the prompt, the agent's reply, how long it took, and whether it succeeded. */
  datatype Turn = Turn(prompt: string, response: string, durationS: real, success: bool, error: string)

  /** The conversation's outcome. */
  datatype BootstrapResult = BootstrapResult(
    modelName: string,
    turns: seq<Turn>,
    totalDurationS: real,
    bootstrapCompleted: bool,
    error: string)

  /**
    What running `openclaw agent` did: it exited with a status and its two output streams
    after `duration` seconds, it exceeded the subprocess timeout, or it raised.
  */
  datatype AgentReply =
    | Exited(returnCode: int, stdout: string, stderr: string, duration: real)
    | TimedOut
    | Raised(message: string)

  /** The seconds elapsed when a turn began, and the agent's reply to it. */
  datatype Step = Step(elapsed: real, reply: AgentReply)

  /** The response `send_agent_message` returns: trimmed stdout, or the tagged trimmed stderr on failure. */
  function AgentResponse(returnCode: int, stdout: string, stderr: string): (r: string)
    ensures returnCode != 0 ==> r == "[ERROR] " + Strip(stderr)
    ensures returnCode == 0 ==> r == Strip(stdout)
  {
    if returnCode != 0 then "[ERROR] " + Strip(stderr) else Strip(stdout)
  }

  /** A non-zero exit status always gives a response that starts with the error tag. */
  lemma NonZeroExitTagged(returnCode: int, stdout: string, stderr: string)
    requires returnCode != 0
    ensures StartsWith(AgentResponse(returnCode, stdout, stderr), ErrorTag)
  {
    var r := AgentResponse(returnCode, stdout, stderr);
    assert r[..|ErrorTag|] == ErrorTag;
  }

  /** `min(agent_turn_timeout, int(remaining))` for a positive remaining budget. */
  function TurnTimeout(agentTimeout: int, remaining: real): (t: int)
    requires remaining > 0.0
    ensures t <= agentTimeout && t as real <= remaining
    ensures t == agentTimeout || remaining < (t + 1) as real
    ensures t >= 0 || t == agentTimeout
  {
    var whole := remaining.Floor;
    if agentTimeout <= whole then agentTimeout else whole
  }

  /** The seconds of the global budget left when turn `i` begins. */
  function Remaining(budget: int, steps: nat -> Step, i: nat): real {
    budget as real - steps(i).elapsed
  }

  /** The turn recorded when the deadline has passed before a prompt is sent. */
  function DeadlineTurn(prompt: string): Turn {
    Turn(prompt, "", 0.0, false, DeadlineError)
  }

  /** One turn sent with timeout `timeout`, recorded from the agent's reply. */
  function PlayTurn(prompt: string, timeout: int, reply: AgentReply): (t: Turn)
    ensures t.prompt == prompt
    ensures t.success <==> reply.Exited? && !StartsWith(t.response, ErrorTag)
    ensures reply.Exited? ==> t.response == AgentResponse(reply.returnCode, reply.stdout, reply.stderr)
    ensures reply.Exited? ==> t.error == (if t.success then "" else t.response)
    ensures reply.TimedOut? ==> t.error == "Turn timed out after " + IntToString(timeout) + "s"
    ensures reply.Raised? ==> t.error == reply.message
  {
    match reply
    case Exited(rc, out, err, duration) =>
      var response := AgentResponse(rc, out, err);
      var ok := !StartsWith(response, ErrorTag);
      Turn(prompt, response, duration, ok, if ok then "" else response)
    case TimedOut => Turn(prompt, "", 0.0, false, "Turn timed out after " + IntToString(timeout) + "s")
    case Raised(message) => Turn(prompt, "", 0.0, false, message)
  }

  /** A non-zero exit is a failed turn whose error is the tagged response. */
  lemma NonZeroExitFails(prompt: string, timeout: int, rc: int, stdout: string, stderr: string, duration: real)
    requires rc != 0
    ensures var t := PlayTurn(prompt, timeout, Exited(rc, stdout, stderr, duration));
      !t.success && t.error == "[ERROR] " + Strip(stderr)
  {
    NonZeroExitTagged(rc, stdout, stderr);
  }

  /** Prompt `j` played with the timeout its remaining budget allows. */
  function PlayedTurn(prompts: seq<string>, j: nat, budget: int, agentTimeout: int, steps: nat -> Step): (t: Turn)
    requires j < |prompts| && Remaining(budget, steps, j) > 0.0
    ensures t.prompt == prompts[j]
  {
    PlayTurn(prompts[j], TurnTimeout(agentTimeout, Remaining(budget, steps, j)), steps(j).reply)
  }

  /** The turns and the error of the conversation from prompt `i` on. */
  datatype Transcript = Transcript(turns: seq<Turn>, error: string)

  /** The turn loop from prompt `i`: stop at the deadline, otherwise record the turn and go on. */
  function TranscriptFrom(prompts: seq<string>, i: nat, budget: int, agentTimeout: int, steps: nat -> Step): Transcript
    requires i <= |prompts|
    decreases |prompts| - i
  {
    if i == |prompts| then Transcript([], "")
    else
      var remaining := Remaining(budget, steps, i);
      if remaining <= 0.0 then Transcript([DeadlineTurn(prompts[i])], DeadlineError)
      else
        var t := PlayedTurn(prompts, i, budget, agentTimeout, steps);
        var rest := TranscriptFrom(prompts, i + 1, budget, agentTimeout, steps);
        Transcript([t] + rest.turns, rest.error)
  }

  /** The prompts of the run: the variant's when one is given, else the configured first variant's. */
  function PromptsFor(cfg: Config.BenchmarkConfig, variant: Option<Config.PromptVariant>): seq<string> {
    match variant
    case Some(v) => v.prompts
    case None => Config.BootstrapPrompts(cfg)
  }

  /** `run_bootstrap_conversation` as a function of its inputs. */
  function Conversation(modelName: string, prompts: seq<string>, budget: int, agentTimeout: int,
                        steps: nat -> Step, finalElapsed: real, bootstrapPresent: bool): BootstrapResult
  {
    var tr := TranscriptFrom(prompts, 0, budget, agentTimeout, steps);
    BootstrapResult(modelName, tr.turns, finalElapsed, !bootstrapPresent, tr.error)
  }

  /** `run_bootstrap_conversation`: one turn per prompt until the deadline, then the completion signal. */
  method RunBootstrapConversation(modelName: string, cfg: Config.BenchmarkConfig, variant: Option<Config.PromptVariant>,
                                  steps: nat -> Step, finalElapsed: real, bootstrapPresent: bool)
    returns (result: BootstrapResult)
    ensures result == Conversation(modelName, PromptsFor(cfg, variant), cfg.bootstrapTimeout, cfg.agentTurnTimeout,
                                   steps, finalElapsed, bootstrapPresent)
  {
    hide PlayTurn, TurnTimeout, PlayedTurn, DeadlineTurn, TranscriptFrom;
    var prompts := PromptsFor(cfg, variant);
    var budget := cfg.bootstrapTimeout;
    var agentTimeout := cfg.agentTurnTimeout;
    ghost var whole := TranscriptFrom(prompts, 0, budget, agentTimeout, steps);
    var turns: seq<Turn> := [];
    var error := "";
    var i := 0;
    while i < |prompts|
      invariant 0 <= i <= |prompts|
      invariant turns + TranscriptFrom(prompts, i, budget, agentTimeout, steps).turns == whole.turns
      invariant TranscriptFrom(prompts, i, budget, agentTimeout, steps).error == whole.error
      invariant error == ""
    {
      var remaining := budget as real - steps(i).elapsed;
      if remaining <= 0.0 {
        TranscriptStep(prompts, i, budget, agentTimeout, steps);
        turns := turns + [DeadlineTurn(prompts[i])];
        error := DeadlineError;
        break;
      }
      var timeout := TurnTimeout(agentTimeout, remaining);
      var turn := PlayTurn(prompts[i], timeout, steps(i).reply);
      PlayedTurnIs(prompts, i, budget, agentTimeout, steps);
      assert turn == PlayedTurn(prompts, i, budget, agentTimeout, steps);
      TranscriptStep(prompts, i, budget, agentTimeout, steps);
      ghost var rest := TranscriptFrom(prompts, i + 1, budget, agentTimeout, steps);
      assert turns + ([turn] + rest.turns) == (turns + [turn]) + rest.turns;
      turns := turns + [turn];
      i := i + 1;
    }
    if i == |prompts| {
      TranscriptStep(prompts, i, budget, agentTimeout, steps);
    }
    result := BootstrapResult(modelName, turns, finalElapsed, !bootstrapPresent, error);
  }

  /** One unfolding of the turn loop at prompt `i`. */
  lemma TranscriptStep(prompts: seq<string>, i: nat, budget: int, agentTimeout: int, steps: nat -> Step)
    requires i <= |prompts|
    ensures var tr := TranscriptFrom(prompts, i, budget, agentTimeout, steps);
      if i == |prompts| then tr == Transcript([], "")
      else if Remaining(budget, steps, i) <= 0.0 then tr == Transcript([DeadlineTurn(prompts[i])], DeadlineError)
      else
        var rest := TranscriptFrom(prompts, i + 1, budget, agentTimeout, steps);
        tr.turns == [PlayedTurn(prompts, i, budget, agentTimeout, steps)] + rest.turns && tr.error == rest.error
  {
  }

  /** The played turn is the turn of prompt `i` under the timeout its remaining budget allows. */
  lemma PlayedTurnIs(prompts: seq<string>, i: nat, budget: int, agentTimeout: int, steps: nat -> Step)
    requires i < |prompts| && Remaining(budget, steps, i) > 0.0
    ensures PlayedTurn(prompts, i, budget, agentTimeout, steps)
      == PlayTurn(prompts[i], TurnTimeout(agentTimeout, Remaining(budget, steps, i)), steps(i).reply)
  {
  }

  /** At most one turn per prompt, each carrying its own prompt, in prompt order. */
  lemma {:induction false} TurnsFollowPrompts(prompts: seq<string>, i: nat, budget: int, agentTimeout: int, steps: nat -> Step)
    requires i <= |prompts|
    ensures var tr := TranscriptFrom(prompts, i, budget, agentTimeout, steps);
      |tr.turns| <= |prompts| - i && forall j :: 0 <= j < |tr.turns| ==> tr.turns[j].prompt == prompts[i + j]
    decreases |prompts| - i
  {
    hide PlayedTurn;
    if i < |prompts| && Remaining(budget, steps, i) > 0.0 {
      TurnsFollowPrompts(prompts, i + 1, budget, agentTimeout, steps);
    }
  }

  /**
    While the budget lasts every prompt gets a played turn, failed or not, and the error stays
    empty: a failed turn never stops the loop.
  */
  lemma {:induction false} AllPromptsPlayed(prompts: seq<string>, i: nat, budget: int, agentTimeout: int, steps: nat -> Step)
    requires i <= |prompts|
    requires forall j :: i <= j < |prompts| ==> Remaining(budget, steps, j) > 0.0
    ensures var tr := TranscriptFrom(prompts, i, budget, agentTimeout, steps);
      |tr.turns| == |prompts| - i && tr.error == "" &&
      forall j :: 0 <= j < |tr.turns| ==> tr.turns[j] == PlayedTurn(prompts, i + j, budget, agentTimeout, steps)
    decreases |prompts| - i
  {
    hide PlayedTurn;
    if i < |prompts| {
      AllPromptsPlayed(prompts, i + 1, budget, agentTimeout, steps);
      var tr := TranscriptFrom(prompts, i, budget, agentTimeout, steps);
      var rest := TranscriptFrom(prompts, i + 1, budget, agentTimeout, steps);
      forall j | 1 <= j < |tr.turns|
        ensures tr.turns[j] == PlayedTurn(prompts, i + j, budget, agentTimeout, steps)
      {
        assert tr.turns[j] == rest.turns[j - 1];
        assert i + 1 + (j - 1) == i + j;
      }
    }
  }

  /**
    When the budget first runs out at prompt `k`, the turns before it are played, one failed
    turn records the deadline, nothing after it is sent, and the result carries the error.
  */
  lemma {:induction false} DeadlineStops(prompts: seq<string>, i: nat, k: nat, budget: int, agentTimeout: int, steps: nat -> Step)
    requires i <= k < |prompts|
    requires forall j :: i <= j < k ==> Remaining(budget, steps, j) > 0.0
    requires Remaining(budget, steps, k) <= 0.0
    ensures var tr := TranscriptFrom(prompts, i, budget, agentTimeout, steps);
      |tr.turns| == k - i + 1 && tr.turns[k - i] == DeadlineTurn(prompts[k]) && tr.error == DeadlineError &&
      forall j :: 0 <= j < k - i ==> tr.turns[j] == PlayedTurn(prompts, i + j, budget, agentTimeout, steps)
    decreases k - i
  {
    hide PlayedTurn;
    if i < k {
      DeadlineStops(prompts, i + 1, k, budget, agentTimeout, steps);
      var tr := TranscriptFrom(prompts, i, budget, agentTimeout, steps);
      var rest := TranscriptFrom(prompts, i + 1, budget, agentTimeout, steps);
      assert tr.turns[k - i] == rest.turns[k - (i + 1)];
      forall j | 1 <= j < k - i
        ensures tr.turns[j] == PlayedTurn(prompts, i + j, budget, agentTimeout, steps)
      {
        assert tr.turns[j] == rest.turns[j - 1];
        assert i + 1 + (j - 1) == i + j;
      }
    }
  }

  /** The conversation reports an error exactly when the budget ran out before some prompt. */
  lemma ErrorIffDeadline(modelName: string, prompts: seq<string>, budget: int, agentTimeout: int,
                         steps: nat -> Step, finalElapsed: real, bootstrapPresent: bool)
    ensures var r := Conversation(modelName, prompts, budget, agentTimeout, steps, finalElapsed, bootstrapPresent);
      (r.error != "" <==> exists k :: 0 <= k < |prompts| && Remaining(budget, steps, k) <= 0.0) &&
      (r.error == "" || r.error == DeadlineError)
  {
    if exists k :: 0 <= k < |prompts| && Remaining(budget, steps, k) <= 0.0 {
      var k := FirstDeadline(prompts, budget, steps);
      DeadlineStops(prompts, 0, k, budget, agentTimeout, steps);
    } else {
      AllPromptsPlayed(prompts, 0, budget, agentTimeout, steps);
    }
  }

  /** The first prompt before which the budget has run out. */
  lemma FirstDeadline(prompts: seq<string>, budget: int, steps: nat -> Step) returns (k: nat)
    requires exists k :: 0 <= k < |prompts| && Remaining(budget, steps, k) <= 0.0
    ensures k < |prompts| && Remaining(budget, steps, k) <= 0.0
    ensures forall j :: 0 <= j < k ==> Remaining(budget, steps, j) > 0.0
  {
    var n :| 0 <= n < |prompts| && Remaining(budget, steps, n) <= 0.0;
    k := 0;
    while Remaining(budget, steps, k) > 0.0
      invariant k <= n
      invariant forall j :: 0 <= j < k ==> Remaining(budget, steps, j) > 0.0
      decreases n - k
    {
      k := k + 1;
    }
  }

  /** Completion is read once, from BOOTSTRAP.md's absence, whatever the turns did. */
  lemma CompletionIgnoresTurns(modelName: string, prompts: seq<string>, budget: int, agentTimeout: int,
                               steps: nat -> Step, steps2: nat -> Step, finalElapsed: real, bootstrapPresent: bool)
    ensures Conversation(modelName, prompts, budget, agentTimeout, steps, finalElapsed, bootstrapPresent).bootstrapCompleted
      == Conversation(modelName, prompts, budget, agentTimeout, steps2, finalElapsed, bootstrapPresent).bootstrapCompleted
      == !bootstrapPresent
  {
  }
}
