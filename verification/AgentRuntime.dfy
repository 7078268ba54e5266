/** The agent runtime over its store, its model and its tools
    (backend/app/agents/runtime.py, backend/app/agents/policy.py), proved against the machine. */
module AgentRuntime {
  import opened Common
  import opened Llm
  import opened AgentLoop
  import AgentHistory
  import AgentProperties
  import PyText

  /** The model provider: any behaviour, and a log of what was sent. */
  class ModelService {
    const behaviour: (nat, ModelRequest) -> ModelOutcome
    var requests: seq<ModelRequest>

    constructor (behaviour: (nat, ModelRequest) -> ModelOutcome)
      ensures this.behaviour == behaviour && requests == []
    {
      this.behaviour, requests := behaviour, [];
    }

    method Generate(request: ModelRequest) returns (outcome: ModelOutcome)
      modifies this
      ensures requests == old(requests) + [request]
      ensures outcome == behaviour(|old(requests)|, request)
    {
      outcome := behaviour(|requests|, request);
      requests := requests + [request];
    }
  }

  /** `ToolExecutor` with the tools behind it, and a log of the calls that reach a tool. */
  class ToolExecutor {
    const registry: seq<string>
    const behaviour: (nat, ToolCall) -> ToolOutcome
    var invoked: seq<ToolCall>

    constructor (registry: seq<string>, behaviour: (nat, ToolCall) -> ToolOutcome)
      ensures this.registry == registry && this.behaviour == behaviour && invoked == []
    {
      this.registry, this.behaviour, invoked := registry, behaviour, [];
    }

    method Execute(call: ToolCall, allowed: set<string>) returns (e: Execution)
      modifies this
      ensures e == ExecuteTool(allowed, registry, call, behaviour(|old(invoked)|, call))
      ensures invoked ==
              if call.name in allowed && call.name in registry then old(invoked) + [call] else old(invoked)
    {
      if call.name !in allowed {
        return Refused("TOOL_FORBIDDEN", "Tool '" + call.name + "' is not allowed for this execution.");
      }
      if call.name !in registry {
        return Refused("TOOL_NOT_FOUND", "Tool '" + call.name + "' is not registered.");
      }
      var outcome := behaviour(|invoked|, call);
      invoked := invoked + [call];
      match outcome {
        case ToolReturned(content, data) => return Executed(content, data);
        case ToolTimedOut => return Refused("TOOL_EXECUTION_FAILED", "Tool '" + call.name + "' timed out.");
        case ToolRaised(exc) =>
          match exc {
            case TimeoutError(_) => return Refused("TOOL_EXECUTION_FAILED", "Tool '" + call.name + "' timed out.");
            case AppError(code, message) => return Refused(code, message);
            case OtherError(_) => return Refused("TOOL_EXECUTION_FAILED", "Tool '" + call.name + "' failed.");
          }
        case FactoryRaised(exc) =>
          if exc.AppError? {
            return Refused(exc.code, exc.message);
          }
          return Escaped(exc);
        case ToolInterrupted(why) => return Interrupted(why);
      }
    }
  }

  /** The run rows and their step rows. */
  class AgentStore {
    var runs: map<string, AgentRun>
    var steps: map<string, seq<AgentStep>>

    constructor ()
      ensures runs == map[] && steps == map[]
    {
      runs, steps := map[], map[];
    }

    method AddRun(id: string, run: AgentRun)
      modifies this
      ensures runs == old(runs)[id := run] && steps == old(steps)[id := []]
    {
      runs := runs[id := run];
      steps := steps[id := []];
    }

    /** `_record_step` */
    method RecordStep(id: string, step: AgentStep)
      requires id in steps
      modifies this
      ensures steps == old(steps)[id := old(steps)[id] + [step]]
      ensures runs == if id in old(runs) then old(runs)[id := Counted(old(runs)[id], step)] else old(runs)
    {
      steps := steps[id := steps[id] + [step]];
      if id in runs {
        var run := runs[id];
        run := run.(stepCount := Max(run.stepCount, step.number));
        if step.kind == ToolStep {
          run := run.(toolCallCount := run.toolCallCount + 1);
        }
        runs := runs[id := run];
      }
    }

    /** `_complete_run` */
    method CompleteRun(id: string, stepCount: nat, toolCallCount: nat)
      modifies this
      ensures steps == old(steps)
      ensures runs == if id in old(runs)
        then old(runs)[id := old(runs)[id].(status := Completed, stepCount := stepCount, toolCallCount := toolCallCount)]
        else old(runs)
    {
      if id !in runs {
        return;
      }
      var run := runs[id].(status := Completed);
      run := run.(stepCount := stepCount);
      run := run.(toolCallCount := toolCallCount);
      runs := runs[id := run];
    }

    /** `_set_terminal_status` */
    method SetTerminalStatus(id: string, status: RunStatus, errorCode: string, errorMessage: string)
      modifies this
      ensures steps == old(steps)
      ensures runs == if id in old(runs)
        then old(runs)[id := old(runs)[id].(status := status, errorCode := Some(errorCode), errorMessage := Some(errorMessage))]
        else old(runs)
    {
      if id !in runs {
        return;
      }
      var run := runs[id].(status := status);
      run := run.(errorCode := Some(errorCode), errorMessage := Some(errorMessage));
      runs := runs[id := run];
    }

    /** `_fail_run` */
    method FailRun(id: string, exc: Exc)
      modifies this
      ensures steps == old(steps)
      ensures runs == if id in old(runs) then old(runs)[id := FailedWith(old(runs)[id], exc)] else old(runs)
    {
      SetTerminalStatus(id, Failed, ErrorCode(exc), Cut(exc.message));
    }
  }

  /** `AgentPolicy.resolve_allowed_tools` */
  function ResolveAllowedTools(configured: set<string>, registry: seq<string>, requested: Option<seq<string>>)
    : Result<set<string>, Exc>
  {
    var registered := set t | t in registry;
    if configured - registered != {} then
      Err(AppError("AGENT_INVALID_TOOL", "Configured agent tool is not registered."))
    else
      var desired := if requested.Some? then set t | t in requested.value else configured;
      if desired - registered != {} || desired - configured != {} then
        Err(AppError("AGENT_INVALID_TOOL", "Requested agent tool is not allowed."))
      else Ok(desired)
  }

  /** A request gets exactly the tools it names, or all configured ones, and it is refused exactly
      when one of them is not configured or the configuration names an unknown tool. */
  lemma AllowListIsExact(configured: set<string>, registry: seq<string>, requested: Option<seq<string>>)
    ensures var r := ResolveAllowedTools(configured, registry, requested);
            && (r.Ok? <==> (&& (forall t :: t in configured ==> t in registry)
                            && (requested.Some? ==> forall t :: t in requested.value ==> t in configured)))
            && (r.Ok? ==> forall t :: t in r.value <==>
                            if requested.Some? then t in requested.value else t in configured)
  {
    var registered := set t | t in registry;
    var desired := if requested.Some? then set t | t in requested.value else configured;
    NothingLeft(configured, registered);
    NothingLeft(desired, registered);
    NothingLeft(desired, configured);
    assert requested.Some? ==> forall t :: t in requested.value <==> t in desired;
  }

  lemma NothingLeft<T>(a: set<T>, b: set<T>)
    ensures a - b == {} <==> a <= b
  {
    if a - b == {} {
      forall t | t in a ensures t in b {
        assert t !in a - b;
      }
    }
  }

  /** An identifier in the metadata of a request. */
  datatype MetadataId = Missing | Malformed | Valid

  /** `agent_allowed_tools` in the metadata of a request. */
  datatype ToolNames = NotGiven | NotNames | Names(names: seq<string>)

  datatype AgentRequest = AgentRequest(
    messages: seq<LLMMessage>, userId: MetadataId, conversationId: MetadataId, tools: ToolNames,
    userMessageId: MetadataId, assistantMessageId: MetadataId)

  /** `_optional_metadata_uuid` */
  function CheckOptional(id: MetadataId, key: string): Option<Exc> {
    if id == Malformed then Some(AppError("VALIDATION_ERROR", "Agent metadata '" + key + "' must be a UUID."))
    else None
  }

  /** `_metadata_uuid` */
  function CheckRequired(id: MetadataId, key: string): Option<Exc> {
    if id == Missing then Some(AppError("VALIDATION_ERROR", "Agent metadata '" + key + "' is required."))
    else CheckOptional(id, key)
  }

  /** What is checked before a run row is written, in order; the result is the allow-list. */
  function Validated(configured: set<string>, registry: seq<string>, request: AgentRequest): Result<set<string>, Exc> {
    var user := CheckRequired(request.userId, "user_id");
    if user.Some? then Err(user.value)
    else
      var conversation := CheckRequired(request.conversationId, "conversation_id");
      if conversation.Some? then Err(conversation.value)
      else if request.tools == NotNames then
        Err(AppError("VALIDATION_ERROR", "agent_allowed_tools must be a list of names."))
      else
        var allowed := ResolveAllowedTools(configured, registry, RequestedTools(request.tools));
        var message := CheckOptional(request.userMessageId, "user_message_id");
        var reply := CheckOptional(request.assistantMessageId, "assistant_message_id");
        if allowed.Err? then allowed
        else if message.Some? then Err(message.value)
        else if reply.Some? then Err(reply.value)
        else allowed
  }

  function RequestedTools(tools: ToolNames): Option<seq<string>> {
    if tools.Names? then Some(tools.names) else None
  }

  /** Exactly when a request is accepted, and with which tools; a refusal is an application error. */
  lemma AcceptedIff(configured: set<string>, registry: seq<string>, request: AgentRequest)
    ensures var r := Validated(configured, registry, request);
            && (r.Ok? <==> (&& request.userId == Valid && request.conversationId == Valid
                            && request.userMessageId != Malformed && request.assistantMessageId != Malformed
                            && request.tools != NotNames
                            && (forall t :: t in configured ==> t in registry)
                            && (request.tools.Names? ==> forall t :: t in request.tools.names ==> t in configured)))
            && (r.Ok? ==> forall t :: t in r.value <==>
                            if request.tools.Names? then t in request.tools.names else t in configured)
            && (r.Err? ==> r.error.AppError?)
  {
    AllowListIsExact(configured, registry, RequestedTools(request.tools));
  }

  /** The first thing that is wrong with a request that is refused. */
  ghost function FirstFault(configured: set<string>, registry: seq<string>, request: AgentRequest): Exc {
    if request.userId == Missing then AppError("VALIDATION_ERROR", "Agent metadata '" + "user_id" + "' is required.")
    else if request.userId == Malformed then
      AppError("VALIDATION_ERROR", "Agent metadata '" + "user_id" + "' must be a UUID.")
    else if request.conversationId == Missing then
      AppError("VALIDATION_ERROR", "Agent metadata '" + "conversation_id" + "' is required.")
    else if request.conversationId == Malformed then
      AppError("VALIDATION_ERROR", "Agent metadata '" + "conversation_id" + "' must be a UUID.")
    else if request.tools == NotNames then
      AppError("VALIDATION_ERROR", "agent_allowed_tools must be a list of names.")
    else if exists t :: t in configured && t !in registry then
      AppError("AGENT_INVALID_TOOL", "Configured agent tool is not registered.")
    else if request.tools.Names? && exists t :: t in request.tools.names && t !in configured then
      AppError("AGENT_INVALID_TOOL", "Requested agent tool is not allowed.")
    else if request.userMessageId == Malformed then
      AppError("VALIDATION_ERROR", "Agent metadata '" + "user_message_id" + "' must be a UUID.")
    else AppError("VALIDATION_ERROR", "Agent metadata '" + "assistant_message_id" + "' must be a UUID.")
  }

  /** A refused request is told the first thing that is wrong with it. */
  lemma RefusalNamesFirstFault(configured: set<string>, registry: seq<string>, request: AgentRequest)
    ensures var r := Validated(configured, registry, request);
            r.Err? ==> r.error == FirstFault(configured, registry, request)
  {
    AllowListIsExact(configured, registry, RequestedTools(request.tools));
    RefusedTools(configured, registry, RequestedTools(request.tools));
    hide ResolveAllowedTools;
  }

  lemma RefusedTools(configured: set<string>, registry: seq<string>, requested: Option<seq<string>>)
    ensures var r := ResolveAllowedTools(configured, registry, requested);
            r.Err? ==>
              r.error == AppError("AGENT_INVALID_TOOL",
                                  if exists t :: t in configured && t !in registry then
                                    "Configured agent tool is not registered."
                                  else "Requested agent tool is not allowed.")
  {
    var registered := set t | t in registry;
    NothingLeft(configured, registered);
  }

  /** How `run` raises: an exception, or the cancellation passed on. */
  datatype RunError = Raised(exc: Exc) | CancellationPassedOn

  /** What the caller gets for each way the loop can end. */
  function ResultOf(exit: Exit): Result<LLMResponse, RunError> {
    match exit
    case Returned(r) => Ok(r)
    case Stopped(RunCancelled) => Err(CancellationPassedOn)
    case Stopped(RunTimedOut) => Err(Raised(AGENT_TIMEOUT))
    case Threw(TimeoutError(_)) => Err(Raised(AGENT_TIMEOUT))
    case Threw(exc) => Err(Raised(exc))
  }

  /** What the caller of a run is told is what the row of the run records: the answer of a completed
      run, the cancellation of a cancelled one, and of a failed one the error whose code and message
      are stored, which for a timeout of any kind is the timeout of the run. */
  lemma CallerIsToldWhatIsStored(env: Env, ms: seq<LLMMessage>)
    ensures var end := Finish(env, Start(env, ms));
            var r, run := ResultOf(end.exit.value), Closed(end.run, end.exit.value);
            && (r.Ok? <==> run.status == Completed)
            && (r.Ok? ==> AgentProperties.AnswerFits(env, end, r.value))
            && (r == Err(CancellationPassedOn) <==> run.status == Cancelled)
            && (r.Err? && r.error.Raised? ==>
                  && run.status == Failed && AgentProperties.StoresText(run.errorMessage, r.error.exc.message)
                  && run.errorCode == Some(if r.error.exc.AppError? then r.error.exc.code else "INTERNAL_ERROR")
                  && match end.exit.value
                     case Threw(AppError(_, _)) => r.error.exc == end.exit.value.exc
                     case Threw(OtherError(_)) => r.error.exc == end.exit.value.exc
                     case _ => r.error.exc == AppError("AGENT_TIMEOUT", "Agent execution timed out."))
  {
    AgentHistory.RowTellsEnd(env, ms);
    AgentProperties.AnswerOfRun(env, ms);
    hide Finish, Closed, AgentProperties.AnswerFits;
    var timeout := "Agent execution timed out.";
    assert |timeout| == 26 && timeout[..26] == timeout;
  }

  /** What the store and the logs held before a run. */
  datatype Snapshot = Snapshot(
    runs: map<string, AgentRun>, steps: map<string, seq<AgentStep>>, requests: seq<ModelRequest>, invoked: seq<ToolCall>)

  lemma Overwritten<K, V>(m: map<K, V>, k: K, a: V, b: V)
    ensures m[k := a][k := b] == m[k := b]
  {
  }

  lemma AskCases(env: Env, st: LoopState)
    ensures var asked := Asked(env, st);
            Ask(env, st) ==
            match env.model(|st.requests|, RequestOf(env, st))
            case ModelInterrupted(why) => asked.(exit := Some(Stopped(why)))
            case ModelRaised(exc) => Unheard(env, asked, exc)
            case Replied(r) => Decide(env, Heard(env, asked, r), r)
  {
  }

  lemma DecideKeepsUsage(env: Env, st: LoopState, r: LLMResponse)
    ensures Decide(env, st, r).usage == st.usage
  {
  }

  lemma AskProgress(env: Env, st: LoopState)
    requires st.exit.None? && st.pending == [] && st.iteration < env.maxSteps
    ensures var after := Ask(env, st);
            && after.iteration == st.iteration + 1
            && after.stepNumber == st.stepNumber + 1
            && after.toolCallCount == st.toolCallCount
            && Finish(env, after) == Finish(env, st)
            && (after.exit.Some? ==> Finish(env, st) == after)
  {
    AgentProperties.FinishStep(env, st);
    AskCounts(env, st);
    assert AgentProperties.Advance(env, st) == Ask(env, st);
  }

  lemma CallProgress(env: Env, st: LoopState)
    requires st.exit.None? && st.pending != [] && st.iteration <= env.maxSteps
    ensures var after := AgentLoop.Call(env, st);
            && after.iteration == st.iteration && after.usage == st.usage
            && after.stepNumber == st.stepNumber + 1
            && after.toolCallCount == st.toolCallCount + 1
            && Finish(env, after) == Finish(env, st)
            && (after.exit.Some? ==> Finish(env, st) == after)
            && (after.exit.None? ==> after.pending == st.pending[1..])
  {
    AgentProperties.FinishStep(env, st);
  }

  class AgentRuntime {
    const model: ModelService
    const executor: ToolExecutor
    const store: AgentStore
    const maxSteps: nat
    const maxToolCalls: nat
    const configuredTools: set<string>
    const instructions: string

    constructor (model: ModelService, executor: ToolExecutor, store: AgentStore,
                 maxSteps: nat, maxToolCalls: nat, configuredTools: set<string>, instructions: string)
      ensures this.model == model && this.executor == executor && this.store == store
      ensures this.maxSteps == maxSteps && this.maxToolCalls == maxToolCalls
      ensures this.configuredTools == configuredTools && this.instructions == instructions
    {
      this.model, this.executor, this.store := model, executor, store;
      this.maxSteps, this.maxToolCalls, this.configuredTools := maxSteps, maxToolCalls, configuredTools;
      this.instructions := instructions;
    }

    /** The surroundings of a run that starts after `asked` requests and `called` tool calls. */
    ghost function EnvAfter(runId: string, allowed: set<string>, building: Option<Exc>, asked: nat, called: nat): Env {
      Env(runId, maxSteps, maxToolCalls, instructions, allowed, executor.registry, building,
          (i: nat, q: ModelRequest) => model.behaviour(asked + i, q),
          (i: nat, c: ToolCall) => executor.behaviour(called + i, c))
    }

    /** The objects hold what the machine state says, on top of what they held before. */
    ghost predicate Holds(runId: string, st: LoopState, was: Snapshot)
      reads model, executor, store
    {
      && store.runs == was.runs[runId := st.run]
      && store.steps == was.steps[runId := st.steps]
      && model.requests == was.requests + st.requests
      && executor.invoked == was.invoked + st.invoked
    }

    /** `_with_agent_instructions` */
    method InsertInstructions(messages: seq<LLMMessage>) returns (r: seq<LLMMessage>)
      ensures r == WithInstructions(instructions, messages)
    {
      var insertAt := 0;
      while insertAt < |messages| && messages[insertAt].role == System
        invariant 0 <= insertAt <= LeadingSystem(messages)
      {
        insertAt := insertAt + 1;
      }
      r := messages[..insertAt] + [PlainMessage(System, instructions)] + messages[insertAt..];
    }

    /** The request of an iteration. */
    method CallModel(runId: string, messages: seq<LLMMessage>, tools: seq<string>,
                     ghost env: Env, ghost st: LoopState, ghost was: Snapshot)
      returns (outcome: ModelOutcome)
      requires env == EnvAfter(runId, env.allowed, env.building, |was.requests|, |was.invoked|)
      requires messages == st.messages && tools == Definitions(executor.registry, env.allowed)
      requires Holds(runId, st, was)
      modifies model
      ensures outcome == env.model(|st.requests|, RequestOf(env, st))
      ensures Holds(runId, Asked(env, st), was)
    {
      var request := ModelRequest(messages, tools, if tools != [] then Some("auto") else None);
      outcome := model.Generate(request);
      Associates(was.requests, st.requests, [request]);
    }

    /** The part of an iteration that asks the model. */
    method AskModel(runId: string, messages: seq<LLMMessage>, tools: seq<string>, allowed: set<string>,
                    iteration: nat, stepNumber: nat, toolCallCount: nat, usage: Option<LLMUsage>,
                    ghost env: Env, ghost st: LoopState, ghost was: Snapshot)
      returns (exit: Option<Exit>, messages': seq<LLMMessage>, usage': Option<LLMUsage>, calls: seq<ToolCall>)
      requires st.exit.None? && st.pending == [] && st.iteration < maxSteps
      requires env == EnvAfter(runId, env.allowed, env.building, |was.requests|, |was.invoked|)
      requires messages == st.messages && tools == Definitions(executor.registry, env.allowed) && usage == st.usage
      requires allowed == env.allowed && iteration == st.iteration + 1
      requires stepNumber == st.stepNumber + 1 && toolCallCount == st.toolCallCount
      requires Holds(runId, st, was)
      modifies model, store
      ensures Holds(runId, Ask(env, st), was)
      ensures exit == Ask(env, st).exit && messages' == Ask(env, st).messages
      ensures exit.None? ==> usage' == Ask(env, st).usage && calls == Ask(env, st).pending
    {
      hide Decide, AddUsage;
      exit, messages', usage', calls := None, messages, usage, [];
      ghost var asked := Asked(env, st);
      var outcome := CallModel(runId, messages, tools, env, st, was);
      AskCases(env, st);
      if outcome.ModelInterrupted? {
        exit := Some(Stopped(outcome.why));
        return;
      }
      if outcome.ModelRaised? {
        var failed := ModelRecord(iteration, |messages|, allowed, None);
        RecordStep(runId, ModelStepOf(stepNumber, failed, Some(outcome.exc)), asked, was);
        exit := Some(Threw(outcome.exc));
        return;
      }
      var response := outcome.response;
      usage' := AddUsage(usage, response.usage);
      var heard := ModelRecord(iteration, |messages|, allowed, Some(ReplyRecord(
        response.finishReason, |response.content|, response.toolCalls, response.usage)));
      RecordStep(runId, ModelStepOf(stepNumber, heard, None), asked, was);
      DecideKeepsUsage(env, Heard(env, asked, response), response);
      exit, messages', calls :=
        TakeReply(runId, response, messages, stepNumber, toolCallCount, usage', env, Heard(env, asked, response), was);
    }

    /** The part of an iteration that looks at the reply. */
    method TakeReply(runId: string, response: LLMResponse, messages: seq<LLMMessage>, stepNumber: nat,
                     toolCallCount: nat, usage: Option<LLMUsage>, ghost env: Env, ghost st: LoopState, ghost was: Snapshot)
      returns (exit: Option<Exit>, messages': seq<LLMMessage>, calls: seq<ToolCall>)
      requires st.exit.None? && st.pending == [] && env.runId == runId && env.maxToolCalls == maxToolCalls
      requires messages == st.messages && usage == st.usage
      requires stepNumber == st.stepNumber && toolCallCount == st.toolCallCount
      requires Holds(runId, st, was)
      modifies store
      ensures Holds(runId, Decide(env, st, response), was)
      ensures exit == Decide(env, st, response).exit && messages' == Decide(env, st, response).messages
      ensures calls == Decide(env, st, response).pending
    {
      exit, messages', calls := None, messages, [];
      if response.toolCalls == [] {
        if PyText.Strip(response.content) == "" {
          exit := Some(Threw(AppError("AGENT_EMPTY_RESPONSE", "Agent finished without a response.")));
          return;
        }
        store.CompleteRun(runId, stepNumber, toolCallCount);
        Overwritten(was.runs, runId, st.run, Decide(env, st, response).run);
        exit := Some(Returned(response.(
          usage := usage,
          metadata := response.metadata + map["agent_run_id" := Text(runId),
                                              "agent_step_count" := Number(stepNumber),
                                              "agent_tool_call_count" := Number(toolCallCount),
                                              "execution_mode" := Text("agent")])));
        return;
      }
      if toolCallCount + |response.toolCalls| > maxToolCalls {
        exit := Some(Threw(AppError("AGENT_TOOL_LIMIT_REACHED", "Agent exceeded the maximum number of tool calls.")));
        return;
      }
      messages' := messages + [LLMMessage(Assistant, response.content, None, None, response.toolCalls, None)];
      calls := response.toolCalls;
    }

    /** `_record_step`, seen from the machine */
    method RecordStep(runId: string, step: AgentStep, ghost st: LoopState, ghost was: Snapshot)
      requires Holds(runId, st, was)
      modifies store
      ensures Holds(runId, Recorded(st, step), was)
    {
      store.RecordStep(runId, step);
      Overwritten(was.runs, runId, st.run, Counted(st.run, step));
      Overwritten(was.steps, runId, st.steps, st.steps + [step]);
    }

    /** The part of an iteration that makes one of the calls of the reply. */
    method MakeCall(runId: string, call: ToolCall, allowed: set<string>, messages: seq<LLMMessage>, stepNumber: nat,
                    ghost env: Env, ghost st: LoopState, ghost was: Snapshot)
      returns (exit: Option<Exit>, messages': seq<LLMMessage>)
      requires st.exit.None? && st.pending != [] && st.pending[0] == call
      requires env == EnvAfter(runId, allowed, env.building, |was.requests|, |was.invoked|)
      requires messages == st.messages && stepNumber == st.stepNumber + 1
      requires Holds(runId, st, was)
      modifies executor, store
      ensures Holds(runId, AgentLoop.Call(env, st), was)
      ensures exit == AgentLoop.Call(env, st).exit && messages' == AgentLoop.Call(env, st).messages
    {
      hide ExecuteTool, ToolStepOf, ReplyTo;
      exit, messages' := None, messages;
      var e := executor.Execute(call, allowed);
      ghost var made := st.(
        toolCallCount := st.toolCallCount + 1, stepNumber := stepNumber,
        invoked := if Reaches(env, call) then st.invoked + [call] else st.invoked);
      assert e == Execute(env, |st.invoked|, call);
      Associates(was.invoked, st.invoked, [call]);
      assert Holds(runId, made, was);
      if e.Interrupted? {
        exit := Some(Stopped(e.why));
        return;
      }
      if e.Escaped? {
        exit := Some(Threw(e.exc));
        return;
      }
      RecordStep(runId, ToolStepOf(stepNumber, call, e), made, was);
      messages' := messages + [ReplyTo(call, e)];
    }

    /** The inner loop of `_run_loop`: the calls of one reply */
    method MakeCalls(runId: string, calls: seq<ToolCall>, allowed: set<string>, messages: seq<LLMMessage>,
                     stepNumber: nat, toolCallCount: nat, ghost env: Env, ghost st: LoopState, ghost was: Snapshot)
      returns (exit: Option<Exit>, messages': seq<LLMMessage>, stepNumber': nat, toolCallCount': nat, ghost st': LoopState)
      requires st.exit.None? && st.pending == calls && st.iteration <= env.maxSteps
      requires env == EnvAfter(runId, allowed, env.building, |was.requests|, |was.invoked|)
      requires messages == st.messages && stepNumber == st.stepNumber && toolCallCount == st.toolCallCount
      requires Holds(runId, st, was)
      modifies executor, store
      ensures st'.iteration == st.iteration && st'.usage == st.usage
      ensures Finish(env, st') == Finish(env, st)
      ensures exit == st'.exit && (exit.None? ==> st'.pending == [])
      ensures messages' == st'.messages && stepNumber' == st'.stepNumber && toolCallCount' == st'.toolCallCount
      ensures Holds(runId, st', was)
    {
      exit, messages', stepNumber', toolCallCount', st' := None, messages, stepNumber, toolCallCount, st;
      for next := 0 to |calls|
        invariant st'.exit.None? && exit.None? && st'.pending == calls[next..]
        invariant st'.iteration == st.iteration && st'.usage == st.usage
        invariant Finish(env, st') == Finish(env, st)
        invariant messages' == st'.messages && stepNumber' == st'.stepNumber && toolCallCount' == st'.toolCallCount
        invariant Holds(runId, st', was)
      {
        toolCallCount' := toolCallCount' + 1;
        stepNumber' := stepNumber' + 1;
        exit, messages' := MakeCall(runId, calls[next], allowed, messages', stepNumber', env, st', was);
        CallProgress(env, st');
        st' := AgentLoop.Call(env, st');
        if exit.Some? {
          return;
        }
      }
    }

    /** `_run_loop` */
    method RunLoop(runId: string, original: seq<LLMMessage>, allowed: set<string>, building: Option<Exc>,
                   ghost env: Env, ghost was: Snapshot)
      returns (exit: Exit)
      requires env == EnvAfter(runId, allowed, building, |was.requests|, |was.invoked|)
      requires Holds(runId, Start(env, original), was)
      modifies model, executor, store
      ensures var end := Finish(env, Start(env, original));
              exit == end.exit.value && Holds(runId, end, was)
    {
      ghost var st := Start(env, original);
      var messages := InsertInstructions(original);
      if building.Some? {
        return Threw(building.value);
      }
      var tools := Definitions(executor.registry, allowed);
      var toolCallCount := 0;
      var stepNumber := 0;
      var usage: Option<LLMUsage> := None;

      for iteration := 0 to maxSteps
        invariant st.exit.None? && st.pending == [] && st.iteration == iteration
        invariant Finish(env, st) == Finish(env, Start(env, original))
        invariant messages == st.messages && usage == st.usage
        invariant stepNumber == st.stepNumber && toolCallCount == st.toolCallCount
        invariant Holds(runId, st, was)
      {
        stepNumber := stepNumber + 1;
        var left: Option<Exit>;
        var calls;
        left, messages, usage, calls :=
          AskModel(runId, messages, tools, allowed, iteration + 1, stepNumber, toolCallCount, usage, env, st, was);
        AskProgress(env, st);
        st := Ask(env, st);
        if left.Some? {
          return left.value;
        }
        left, messages, stepNumber, toolCallCount, st :=
          MakeCalls(runId, calls, allowed, messages, stepNumber, toolCallCount, env, st, was);
        if left.Some? {
          return left.value;
        }
      }
      AgentProperties.FinishStep(env, st);
      return Threw(AppError("AGENT_MAX_STEPS_REACHED", "Agent reached the maximum number of reasoning steps."));
    }

    /** The exception handlers of `run` */
    method CloseRun(runId: string, exit: Exit) returns (r: Result<LLMResponse, RunError>)
      requires runId in store.runs
      modifies store
      ensures r == ResultOf(exit)
      ensures store.runs == old(store.runs)[runId := Closed(old(store.runs)[runId], exit)]
      ensures store.steps == old(store.steps)
    {
      match exit {
        case Returned(response) =>
          return Ok(response);
        case Stopped(why) =>
          if why == RunCancelled {
            store.SetTerminalStatus(runId, Cancelled, "AGENT_CANCELLED", "Agent execution was cancelled.");
            return Err(CancellationPassedOn);
          }
          store.FailRun(runId, AGENT_TIMEOUT);
          return Err(Raised(AGENT_TIMEOUT));
        case Threw(exc) =>
          if exc.TimeoutError? {
            store.FailRun(runId, AGENT_TIMEOUT);
            return Err(Raised(AGENT_TIMEOUT));
          }
          store.FailRun(runId, exc);
          return Err(Raised(exc));
      }
    }

    /** `run`: no row is written for a request that fails validation; otherwise exactly one run
        row is added, with the trace and the terminal status of the machine. */
    method Run(runId: string, request: AgentRequest, building: Option<Exc>) returns (r: Result<LLMResponse, RunError>)
      requires runId !in store.runs && runId !in store.steps
      modifies model, executor, store
      ensures var allowed := Validated(configuredTools, executor.registry, request);
              if allowed.Err? then
                && r == Err(Raised(allowed.error))
                && store.runs == old(store.runs) && store.steps == old(store.steps)
                && model.requests == old(model.requests) && executor.invoked == old(executor.invoked)
              else
                var env := EnvAfter(runId, allowed.value, building, old(|model.requests|), old(|executor.invoked|));
                var end := Finish(env, Start(env, request.messages));
                && r == ResultOf(end.exit.value)
                && store.runs == old(store.runs)[runId := Closed(end.run, end.exit.value)]
                && store.steps == old(store.steps)[runId := end.steps]
                && model.requests == old(model.requests) + end.requests
                && executor.invoked == old(executor.invoked) + end.invoked
    {
      var refused := CheckRequired(request.userId, "user_id");
      if refused.Some? {
        return Err(Raised(refused.value));
      }
      refused := CheckRequired(request.conversationId, "conversation_id");
      if refused.Some? {
        return Err(Raised(refused.value));
      }
      if request.tools.NotNames? {
        return Err(Raised(AppError("VALIDATION_ERROR", "agent_allowed_tools must be a list of names.")));
      }
      var allowed := ResolveAllowedTools(configuredTools, executor.registry, RequestedTools(request.tools));
      if allowed.Err? {
        return Err(Raised(allowed.error));
      }
      refused := CheckOptional(request.userMessageId, "user_message_id");
      if refused.Some? {
        return Err(Raised(refused.value));
      }
      refused := CheckOptional(request.assistantMessageId, "assistant_message_id");
      if refused.Some? {
        return Err(Raised(refused.value));
      }
      r := RunAccepted(runId, request.messages, allowed.value, building);
    }

    /** The part of `run` behind the validation */
    method RunAccepted(runId: string, messages: seq<LLMMessage>, allowed: set<string>, building: Option<Exc>)
      returns (r: Result<LLMResponse, RunError>)
      modifies model, executor, store
      ensures var env := EnvAfter(runId, allowed, building, old(|model.requests|), old(|executor.invoked|));
              var end := Finish(env, Start(env, messages));
              && r == ResultOf(end.exit.value)
              && store.runs == old(store.runs)[runId := Closed(end.run, end.exit.value)]
              && store.steps == old(store.steps)[runId := end.steps]
              && model.requests == old(model.requests) + end.requests
              && executor.invoked == old(executor.invoked) + end.invoked
    {
      ghost var was := Snapshot(store.runs, store.steps, model.requests, executor.invoked);
      store.AddRun(runId, NEW_RUN);
      ghost var env := EnvAfter(runId, allowed, building, |was.requests|, |was.invoked|);
      var exit := RunLoop(runId, messages, allowed, building, env, was);
      r := CloseRun(runId, exit);
      ghost var end := Finish(env, Start(env, messages));
      Overwritten(was.runs, runId, end.run, Closed(end.run, exit));
    }
  }
}
