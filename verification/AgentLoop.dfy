/** The bounded model-and-tools loop (backend/app/agents/runtime.py) with its tool executor
    (backend/app/tools/executor.py), as a machine that takes one awaited call per step.
    The model and the tools are arbitrary: any reply, any failure, at any point. */
module AgentLoop {
  import opened Common
  import opened Llm
  import PyText

  /** What can be raised: an application error with its code, a timeout error, anything else. */
  datatype Exc =
    | AppError(code: string, message: string)
    | TimeoutError(message: string)
    | OtherError(message: string)

  /** The whole-run timeout or a cancellation strikes while something is awaited. */
  datatype Interrupt = RunTimedOut | RunCancelled

  datatype ModelOutcome = Replied(response: LLMResponse) | ModelRaised(exc: Exc) | ModelInterrupted(why: Interrupt)

  /** What resolving and running a tool brings, once the call is allowed and the tool known. */
  datatype ToolOutcome =
    | ToolReturned(content: string, data: string)
    | ToolTimedOut
    | ToolRaised(exc: Exc)
    | FactoryRaised(exc: Exc)
    | ToolInterrupted(why: Interrupt)

  /** What `ToolExecutor.execute` lets out: a result, an application error, an exception from
      building the tool, or the interruption of the run. */
  datatype Execution =
    | Executed(content: string, data: string)
    | Refused(code: string, message: string)
    | Escaped(exc: Exc)
    | Interrupted(why: Interrupt)

  datatype ModelRequest = ModelRequest(messages: seq<LLMMessage>, tools: seq<string>, toolChoice: Option<string>)

  /** One run's surroundings: policy, instructions, registered tools in order, what building their
      definitions raises, and the oracles. The oracles see how many calls were made before, so
      they can behave differently every time. */
  datatype Env = Env(
    runId: string,
    maxSteps: nat,
    maxToolCalls: nat,
    instructions: string,
    allowed: set<string>,
    registry: seq<string>,
    building: Option<Exc>,
    model: (nat, ModelRequest) -> ModelOutcome,
    tool: (nat, ToolCall) -> ToolOutcome)

  datatype StepKind = ModelStep | ToolStep

  /** What a model step records of a reply. */
  datatype ReplyRecord = ReplyRecord(
    finishReason: Option<string>, contentChars: nat, toolCalls: seq<ToolCall>, usage: Option<LLMUsage>)

  /** What a model step records of its iteration. */
  datatype ModelRecord = ModelRecord(
    iteration: nat, messageCount: nat, tools: set<string>, reply: Option<ReplyRecord>)

  datatype AgentStep = AgentStep(
    number: nat, kind: StepKind, completed: bool, ask: Option<ModelRecord>, call: Option<ToolCall>,
    output: string, data: string, errorCode: Option<string>, errorMessage: Option<string>)

  datatype RunStatus = Running | Completed | Failed | Cancelled

  datatype AgentRun = AgentRun(
    status: RunStatus, stepCount: nat, toolCallCount: nat, errorCode: Option<string>, errorMessage: Option<string>)

  const NEW_RUN := AgentRun(Running, 0, 0, None, None)

  const MAX_ERROR_CHARS := 2000

  /** `message[:2000]` */
  function Cut(message: string): string {
    message[..Min(MAX_ERROR_CHARS, |message|)]
  }

  /** How the loop is left. */
  datatype Exit = Returned(response: LLMResponse) | Threw(exc: Exc) | Stopped(why: Interrupt)

  // ---------------------------------------------------------------- small helpers

  function ErrorCode(exc: Exc): string {
    match exc
    case AppError(code, _) => code
    case _ => "INTERNAL_ERROR"
  }

  /** Length of the leading block of system messages. */
  function LeadingSystem(ms: seq<LLMMessage>): (n: nat)
    ensures n <= |ms|
    ensures forall i :: 0 <= i < n ==> ms[i].role == System
    ensures n < |ms| ==> ms[n].role != System
  {
    if ms == [] || ms[0].role != System then 0 else 1 + LeadingSystem(ms[1..])
  }

  /** `_with_agent_instructions` */
  function WithInstructions(instructions: string, ms: seq<LLMMessage>): seq<LLMMessage> {
    var n := LeadingSystem(ms);
    ms[..n] + [PlainMessage(System, instructions)] + ms[n..]
  }

  function AddOptional(left: Option<nat>, right: Option<nat>): Option<nat> {
    if left.None? && right.None? then None
    else Some((if left.Some? then left.value else 0) + (if right.Some? then right.value else 0))
  }

  /** `_add_usage` */
  function AddUsage(current: Option<LLMUsage>, incoming: Option<LLMUsage>): Option<LLMUsage> {
    if incoming.None? then current
    else if current.None? then incoming
    else
      var input := AddOptional(current.value.inputTokens, incoming.value.inputTokens);
      var output := AddOptional(current.value.outputTokens, incoming.value.outputTokens);
      var total := AddOptional(current.value.totalTokens, incoming.value.totalTokens);
      Some(LLMUsage(input, output,
                    if total.None? && input.Some? && output.Some? then Some(input.value + output.value) else total))
  }

  /** `ToolExecutor.execute`: refuse, resolve, run under a timeout, translate what goes wrong. */
  function ExecuteTool(allowed: set<string>, registry: seq<string>, call: ToolCall, outcome: ToolOutcome): Execution {
    if call.name !in allowed then
      Refused("TOOL_FORBIDDEN", "Tool '" + call.name + "' is not allowed for this execution.")
    else if call.name !in registry then
      Refused("TOOL_NOT_FOUND", "Tool '" + call.name + "' is not registered.")
    else
      match outcome
      case ToolReturned(content, data) => Executed(content, data)
      case ToolTimedOut => Refused("TOOL_EXECUTION_FAILED", "Tool '" + call.name + "' timed out.")
      case ToolRaised(AppError(code, message)) => Refused(code, message)
      case ToolRaised(TimeoutError(_)) => Refused("TOOL_EXECUTION_FAILED", "Tool '" + call.name + "' timed out.")
      case ToolRaised(OtherError(_)) => Refused("TOOL_EXECUTION_FAILED", "Tool '" + call.name + "' failed.")
      case FactoryRaised(AppError(code, message)) => Refused(code, message)
      case FactoryRaised(exc) => Escaped(exc)
      case ToolInterrupted(why) => Interrupted(why)
  }

  function Execute(env: Env, index: nat, call: ToolCall): Execution {
    ExecuteTool(env.allowed, env.registry, call, env.tool(index, call))
  }

  /** The executor gets as far as the tool itself. */
  predicate Reaches(env: Env, call: ToolCall) {
    call.name in env.allowed && call.name in env.registry
  }

  function Definitions(registry: seq<string>, allowed: set<string>): seq<string> {
    if registry == [] then []
    else (if registry[0] in allowed then [registry[0]] else []) + Definitions(registry[1..], allowed)
  }

  function ModelStepOf(number: nat, ask: ModelRecord, failure: Option<Exc>): AgentStep {
    match failure
    case None => AgentStep(number, ModelStep, true, Some(ask), None, "", "", None, None)
    case Some(exc) =>
      AgentStep(number, ModelStep, false, Some(ask), None, "", "", Some(ErrorCode(exc)), Some(Cut(exc.message)))
  }

  function RecordOfReply(r: LLMResponse): ReplyRecord {
    ReplyRecord(r.finishReason, |r.content|, r.toolCalls, r.usage)
  }

  function ToolStepOf(number: nat, call: ToolCall, e: Execution): AgentStep
    requires e.Executed? || e.Refused?
  {
    match e
    case Executed(content, data) =>
      AgentStep(number, ToolStep, true, None, Some(call), content, data, None, None)
    case Refused(code, message) =>
      AgentStep(number, ToolStep, false, None, Some(call), "", "", Some(code), Some(Cut(message)))
  }

  const FAILURE_PREFIX := "Tool execution failed: "

  function ToolMessage(call: ToolCall, content: string, data: Option<string>): LLMMessage {
    LLMMessage(Tool, content, Some(call.name), Some(call.id), [], data)
  }

  /** What the model is told about a call. */
  function ReplyTo(call: ToolCall, e: Execution): LLMMessage
    requires e.Executed? || e.Refused?
  {
    match e
    case Executed(content, data) => ToolMessage(call, content, Some(data))
    case Refused(_, message) => ToolMessage(call, FAILURE_PREFIX + message, None)
  }

  // ---------------------------------------------------------------- the machine

  /** `pending` holds the calls of the current reply that are still to be made. */
  datatype LoopState = LoopState(
    messages: seq<LLMMessage>,
    requests: seq<ModelRequest>,
    replies: seq<LLMResponse>,
    steps: seq<AgentStep>,
    run: AgentRun,
    iteration: nat,
    stepNumber: nat,
    toolCallCount: nat,
    usage: Option<LLMUsage>,
    invoked: seq<ToolCall>,
    pending: seq<ToolCall>,
    exit: Option<Exit>)

  /** The definitions of the tools are built before the first iteration, and that may raise. */
  function Start(env: Env, ms: seq<LLMMessage>): LoopState {
    LoopState(WithInstructions(env.instructions, ms), [], [], [], NEW_RUN, 0, 0, 0, None, [], [],
              if env.building.Some? then Some(Threw(env.building.value)) else None)
  }

  /** `_record_step` */
  function Counted(run: AgentRun, s: AgentStep): AgentRun {
    run.(stepCount := Max(run.stepCount, s.number),
         toolCallCount := run.toolCallCount + if s.kind == ToolStep then 1 else 0)
  }

  function Recorded(st: LoopState, s: AgentStep): LoopState {
    st.(steps := st.steps + [s], run := Counted(st.run, s))
  }

  predicate IsFinal(r: LLMResponse) {
    r.toolCalls == [] && PyText.Strip(r.content) != ""
  }

  /** The answer with the accumulated usage and the counters in its metadata. */
  function Final(env: Env, st: LoopState, r: LLMResponse): LLMResponse {
    r.(usage := st.usage,
       metadata := r.metadata + map["agent_run_id" := Text(env.runId),
                                    "agent_step_count" := Number(st.stepNumber),
                                    "agent_tool_call_count" := Number(st.toolCallCount),
                                    "execution_mode" := Text("agent")])
  }

  function RequestOf(env: Env, st: LoopState): ModelRequest {
    var tools := Definitions(env.registry, env.allowed);
    ModelRequest(st.messages, tools, if tools != [] then Some("auto") else None)
  }

  function Asked(env: Env, st: LoopState): LoopState {
    st.(iteration := st.iteration + 1, stepNumber := st.stepNumber + 1,
        requests := st.requests + [RequestOf(env, st)])
  }

  function AskRecord(env: Env, st: LoopState, reply: Option<ReplyRecord>): ModelRecord {
    ModelRecord(st.iteration, |st.messages|, env.allowed, reply)
  }

  function HeardStep(env: Env, st: LoopState, r: LLMResponse): AgentStep {
    ModelStepOf(st.stepNumber, AskRecord(env, st, Some(RecordOfReply(r))), None)
  }

  function UnheardStep(env: Env, st: LoopState, exc: Exc): AgentStep {
    ModelStepOf(st.stepNumber, AskRecord(env, st, None), Some(exc))
  }

  /** The model has replied, and the step is recorded. */
  function Heard(env: Env, st: LoopState, r: LLMResponse): LoopState {
    Recorded(st, HeardStep(env, st, r)).(usage := AddUsage(st.usage, r.usage), replies := st.replies + [r])
  }

  /** The model has raised, and the failed step is recorded. */
  function Unheard(env: Env, st: LoopState, exc: Exc): LoopState {
    Recorded(st, UnheardStep(env, st, exc)).(exit := Some(Threw(exc)))
  }

  /** An answer ends the run; calls are taken on when the budget covers them all. */
  function Decide(env: Env, st: LoopState, r: LLMResponse): LoopState {
    if r.toolCalls == [] then
      if PyText.Strip(r.content) == "" then
        st.(exit := Some(Threw(AppError("AGENT_EMPTY_RESPONSE", "Agent finished without a response."))))
      else
        st.(run := st.run.(status := Completed, stepCount := st.stepNumber, toolCallCount := st.toolCallCount),
            exit := Some(Returned(Final(env, st, r))))
    else if st.toolCallCount + |r.toolCalls| > env.maxToolCalls then
      st.(exit := Some(Threw(AppError("AGENT_TOOL_LIMIT_REACHED", "Agent exceeded the maximum number of tool calls."))))
    else
      st.(messages := st.messages + [LLMMessage(Assistant, r.content, None, None, r.toolCalls, None)],
          pending := r.toolCalls)
  }

  /** One iteration up to the point where the calls of the reply are known. */
  function Ask(env: Env, st: LoopState): LoopState {
    match env.model(|st.requests|, RequestOf(env, st))
    case ModelInterrupted(why) => Asked(env, st).(exit := Some(Stopped(why)))
    case ModelRaised(exc) => Unheard(env, Asked(env, st), exc)
    case Replied(r) => Decide(env, Heard(env, Asked(env, st), r), r)
  }

  /** The call is made and its step recorded; the model will see the outcome. */
  function Called(st: LoopState, s: AgentStep, m: LLMMessage): LoopState
    requires st.pending != []
  {
    Recorded(st, s).(messages := st.messages + [m], pending := st.pending[1..])
  }

  /** One tool call of the current reply. */
  function Call(env: Env, st: LoopState): LoopState
    requires st.pending != []
  {
    var call := st.pending[0];
    var made := st.(toolCallCount := st.toolCallCount + 1, stepNumber := st.stepNumber + 1,
                    invoked := if Reaches(env, call) then st.invoked + [call] else st.invoked);
    var e := Execute(env, |st.invoked|, call);
    match e
    case Interrupted(why) => made.(exit := Some(Stopped(why)))
    case Escaped(exc) => made.(exit := Some(Threw(exc)))
    case _ => Called(made, ToolStepOf(made.stepNumber, call, e), ReplyTo(call, e))
  }

  /** `_run_loop`, one awaited call at a time */
  function Step(env: Env, st: LoopState): LoopState
    requires st.exit.None?
  {
    if st.pending != [] then Call(env, st)
    else if st.iteration < env.maxSteps then Ask(env, st)
    else st.(exit := Some(Threw(AppError("AGENT_MAX_STEPS_REACHED", "Agent reached the maximum number of reasoning steps."))))
  }

  lemma CallCounts(env: Env, st: LoopState)
    requires st.exit.None? && st.pending != []
    ensures var after := Call(env, st);
            && after.iteration == st.iteration && after.usage == st.usage
            && after.stepNumber == st.stepNumber + 1 && after.toolCallCount == st.toolCallCount + 1
            && (after.pending == st.pending[1..] || (after.pending == st.pending && after.exit.Some?))
  {
  }

  lemma AskCounts(env: Env, st: LoopState)
    ensures var after := Ask(env, st);
            && after.iteration == st.iteration + 1
            && after.stepNumber == st.stepNumber + 1 && after.toolCallCount == st.toolCallCount
  {
  }

  lemma StepShrinks(env: Env, st: LoopState)
    requires st.exit.None? && st.iteration <= env.maxSteps
    ensures var next := Step(env, st);
            && next.iteration <= env.maxSteps
            && (|| next.iteration > st.iteration
                || (next.iteration == st.iteration
                    && (|next.pending| < |st.pending| || (next.pending == st.pending && next.exit.Some?))))
  {
    if st.pending != [] {
      CallCounts(env, st);
    } else if st.iteration < env.maxSteps {
      AskCounts(env, st);
    }
  }

  /** Running the loop to its end; that this function is total is the termination of the loop,
      whatever the model and the tools do. */
  function Finish(env: Env, st: LoopState): (r: LoopState)
    requires st.iteration <= env.maxSteps
    ensures r.exit.Some?
    decreases env.maxSteps - st.iteration, |st.pending|, if st.exit.None? then 1 else 0
  {
    if st.exit.Some? then st
    else
      StepShrinks(env, st);
      Finish(env, Step(env, st))
  }

  /** What `run` does with the way the loop ended: every end but an answer closes the run. */
  function Closed(run: AgentRun, exit: Exit): AgentRun {
    match exit
    case Returned(_) => run
    case Stopped(RunCancelled) =>
      run.(status := Cancelled, errorCode := Some("AGENT_CANCELLED"),
           errorMessage := Some("Agent execution was cancelled."))
    case Stopped(RunTimedOut) => FailedWith(run, AGENT_TIMEOUT)
    case Threw(TimeoutError(_)) => FailedWith(run, AGENT_TIMEOUT)
    case Threw(exc) => FailedWith(run, exc)
  }

  const AGENT_TIMEOUT := AppError("AGENT_TIMEOUT", "Agent execution timed out.")

  /** `_fail_run` */
  function FailedWith(run: AgentRun, exc: Exc): AgentRun {
    run.(status := Failed, errorCode := Some(ErrorCode(exc)), errorMessage := Some(Cut(exc.message)))
  }

  // ---------------------------------------------------------------- the message protocol

  /** Reads messages against the tool-call protocol and returns the calls still owed a reply, in
      order: an assistant message with calls may come only when nothing is owed, and then one
      tool message per call must follow, with the call's id and name. */
  function Owed(calls: seq<ToolCall>, ms: seq<LLMMessage>): Option<seq<ToolCall>>
    decreases |ms|
  {
    if ms == [] then Some(calls)
    else if calls == [] then
      if ms[0].role == Assistant && ms[0].toolCalls != [] then Owed(ms[0].toolCalls, ms[1..]) else None
    else if Answers(ms[0], calls[0]) then
      Owed(calls[1..], ms[1..])
    else None
  }

  lemma {:induction false} OwedConcat(calls: seq<ToolCall>, a: seq<LLMMessage>, b: seq<LLMMessage>)
    requires Owed(calls, a).Some?
    ensures Owed(calls, a + b) == Owed(Owed(calls, a).value, b)
    decreases |a|
  {
    if a == [] {
      assert a + b == b;
    } else {
      assert (a + b)[0] == a[0] && (a + b)[1..] == a[1..] + b;
      OwedConcat(if calls == [] then a[0].toolCalls else calls[1..], a[1..], b);
    }
  }

  lemma OwedSnoc(calls: seq<ToolCall>, a: seq<LLMMessage>, m: LLMMessage)
    requires Owed(calls, a).Some?
    ensures Owed(calls, a + [m]) == Owed(Owed(calls, a).value, [m])
    ensures Owed(calls, a).value == [] && m.role == Assistant && m.toolCalls != [] ==>
              Owed(calls, a + [m]) == Some(m.toolCalls)
    ensures var owed := Owed(calls, a).value;
            owed != [] && Answers(m, owed[0]) ==>
              Owed(calls, a + [m]) == Some(owed[1..])
  {
    OwedConcat(calls, a, [m]);
    assert [m][1..] == [];
  }

  /** The message answers the call: a tool message with the call's id and name. */
  predicate Answers(m: LLMMessage, call: ToolCall) {
    m.role == Tool && m.toolCallId == Some(call.id) && m.name == Some(call.name)
  }

  /** When nothing is owed at the end, every assistant message is followed by exactly its replies. */
  lemma {:induction false} RepliesFollowCalls(calls: seq<ToolCall>, ms: seq<LLMMessage>, i: nat, j: nat)
    requires Owed(calls, ms) == Some([])
    requires i < |ms| && ms[i].role == Assistant && j < |ms[i].toolCalls|
    ensures i + 1 + j < |ms| && Answers(ms[i + 1 + j], ms[i].toolCalls[j])
    decreases |ms|
  {
    if i == 0 {
      OwedReply(ms[0].toolCalls, ms[1..], j);
    } else {
      RepliesFollowCalls(if calls == [] then ms[0].toolCalls else calls[1..], ms[1..], i - 1, j);
    }
  }

  lemma {:induction false} OwedReply(calls: seq<ToolCall>, ms: seq<LLMMessage>, j: nat)
    requires Owed(calls, ms) == Some([]) && j < |calls|
    ensures j < |ms| && Answers(ms[j], calls[j])
    decreases j
  {
    if j > 0 {
      OwedReply(calls[1..], ms[1..], j - 1);
    }
  }
}
