/** What a run records and tells is what its model and its tools brought, and a run ends for the
    reason that they gave (backend/app/agents/runtime.py, backend/app/tools/executor.py). */
module AgentHistory {
  import opened Common
  import opened Llm
  import opened AgentLoop
  import opened AgentProperties
  import PyText

  // ---------------------------------------------------------------- what one call brings

  /** The call went well: its content and its data are stored and sent to the model. */
  ghost predicate TellsResult(call: ToolCall, content: string, data: string, s: AgentStep, m: LLMMessage) {
    && s.kind == ToolStep && s.completed && s.call == Some(call) && s.output == content && s.data == data
    && s.errorCode == None && s.errorMessage == None
    && m == LLMMessage(Tool, content, Some(call.name), Some(call.id), [], Some(data))
  }

  /** The call failed: the code and the start of the error are stored, and all of it is sent to the model. */
  ghost predicate TellsFailure(call: ToolCall, code: string, error: string, s: AgentStep, m: LLMMessage) {
    && s.kind == ToolStep && !s.completed && s.call == Some(call)
    && s.errorCode == Some(code) && StoresText(s.errorMessage, error)
    && m == LLMMessage(Tool, "Tool execution failed: " + error, Some(call.name), Some(call.id), [], None)
  }

  /** The stored step and the tool message tell what the call brought, which is the `index`-th to
      reach a tool if it does. An exception other than an application error that building the tool
      raises, and an interruption, leave neither. */
  ghost predicate TellsOutcome(env: Env, index: nat, call: ToolCall, s: AgentStep, m: LLMMessage) {
    if call.name !in env.allowed then
      TellsFailure(call, "TOOL_FORBIDDEN", "Tool '" + call.name + "' is not allowed for this execution.", s, m)
    else if call.name !in env.registry then
      TellsFailure(call, "TOOL_NOT_FOUND", "Tool '" + call.name + "' is not registered.", s, m)
    else
      match env.tool(index, call)
      case ToolReturned(content, data) => TellsResult(call, content, data, s, m)
      case ToolTimedOut => TellsFailure(call, "TOOL_EXECUTION_FAILED", "Tool '" + call.name + "' timed out.", s, m)
      case ToolRaised(AppError(code, message)) => TellsFailure(call, code, message, s, m)
      case ToolRaised(TimeoutError(_)) =>
        TellsFailure(call, "TOOL_EXECUTION_FAILED", "Tool '" + call.name + "' timed out.", s, m)
      case ToolRaised(OtherError(_)) =>
        TellsFailure(call, "TOOL_EXECUTION_FAILED", "Tool '" + call.name + "' failed.", s, m)
      case FactoryRaised(AppError(code, message)) => TellsFailure(call, code, message, s, m)
      case _ => false
  }

  /** This outcome of a call leaves neither a step nor a message: it ends the run. */
  predicate EndsRun(outcome: ToolOutcome) {
    outcome.ToolInterrupted? || (outcome.FactoryRaised? && !outcome.exc.AppError?)
  }

  /** Every call that does not end the run adds the step and the message that tell what it brought;
      one that does adds nothing, and the run ends with what it brought. */
  lemma CallTellsOutcome(env: Env, st: LoopState)
    requires st.exit.None? && st.pending != []
    ensures var call, after, index := st.pending[0], Call(env, st), |st.invoked|;
            && after.invoked == (if Reaches(env, call) then st.invoked + [call] else st.invoked)
            && after.replies == st.replies && after.requests == st.requests
            && if Reaches(env, call) && EndsRun(env.tool(index, call)) then
                 && after.messages == st.messages && after.steps == st.steps && after.pending == st.pending
                 && after.exit == Some(match env.tool(index, call)
                                       case ToolInterrupted(why) => Stopped(why)
                                       case FactoryRaised(exc) => Threw(exc)
                                       case _ => Stopped(RunCancelled))
               else
                 && after.exit == None && after.pending == st.pending[1..]
                 && |after.messages| == |st.messages| + 1 && st.messages <= after.messages
                 && |after.steps| == |st.steps| + 1 && st.steps <= after.steps
                 && TellsOutcome(env, index, call, after.steps[|st.steps|], after.messages[|st.messages|])
  {
    var call := st.pending[0];
    var e := Execute(env, |st.invoked|, call);
    if e.Refused? {
      CutStoresText(e.message);
    }
    hide Cut, StoresText;
  }

  // ---------------------------------------------------------------- steps and calls

  /** The calls of these tool steps that reach a tool. */
  function Reaching(env: Env, steps: seq<AgentStep>): seq<ToolCall> {
    if steps == [] then []
    else
      var call := steps[|steps| - 1].call;
      Reaching(env, steps[..|steps| - 1])
      + if call.Some? && Reaches(env, call.value) then [call.value] else []
  }

  /** The calls of these tool steps. */
  function CallsOf(steps: seq<AgentStep>): seq<ToolCall> {
    if steps == [] then []
    else
      var call := steps[|steps| - 1].call;
      CallsOf(steps[..|steps| - 1]) + if call.Some? then [call.value] else []
  }

  /** The calls that these replies ask for. */
  function CallsAskedFor(replies: seq<LLMResponse>): seq<ToolCall> {
    if replies == [] then []
    else CallsAskedFor(replies[..|replies| - 1]) + replies[|replies| - 1].toolCalls
  }

  lemma CallsSnoc(env: Env, steps: seq<AgentStep>, s: AgentStep)
    requires s.call.Some?
    ensures CallsOf(steps + [s]) == CallsOf(steps) + [s.call.value]
    ensures Reaching(env, steps + [s]) ==
            Reaching(env, steps) + if Reaches(env, s.call.value) then [s.call.value] else []
  {
    assert (steps + [s])[..|steps|] == steps;
  }

  lemma CallsAskedSnoc(replies: seq<LLMResponse>, r: LLMResponse)
    ensures CallsAskedFor(replies + [r]) == CallsAskedFor(replies) + r.toolCalls
  {
    assert (replies + [r])[..|replies|] == replies;
  }

  /** Tool step `k` and tool message `k` tell what call `k` brought. */
  ghost predicate AllTold(env: Env, steps: seq<AgentStep>, ms: seq<LLMMessage>) {
    && |steps| == |ms|
    && forall k :: 0 <= k < |steps| ==> ToldAt(env, steps, ms, k)
  }

  ghost predicate ToldAt(env: Env, steps: seq<AgentStep>, ms: seq<LLMMessage>, k: nat)
    requires k < |steps| == |ms|
  {
    && steps[k].call.Some?
    && TellsOutcome(env, |Reaching(env, steps[..k])|, steps[k].call.value, steps[k], ms[k])
  }

  lemma AllToldSnoc(env: Env, steps: seq<AgentStep>, ms: seq<LLMMessage>, s: AgentStep, m: LLMMessage)
    requires AllTold(env, steps, ms)
    requires s.call.Some? && TellsOutcome(env, |Reaching(env, steps)|, s.call.value, s, m)
    ensures AllTold(env, steps + [s], ms + [m])
  {
    hide TellsOutcome, Reaching;
    forall k | 0 <= k <= |steps| ensures ToldAt(env, steps + [s], ms + [m], k) {
      assert (steps + [s])[..k] == steps[..k];
      if k < |steps| {
        assert ToldAt(env, steps, ms, k);
      } else {
        assert steps[..k] == steps;
      }
    }
  }

  /** The tool steps and tool messages tell what the calls brought, the log of the tools holds the
      calls that reach one, and the calls asked for are made in order: those made and those still
      to make are, as long as the loop goes on, all of them. */
  ghost predicate ToldOk(base: seq<LLMMessage>, env: Env, st: LoopState) {
    && base <= st.messages
    && AllTold(env, ToolSteps(st.steps), ToolMessages(st.messages[|base|..]))
    && Reaching(env, ToolSteps(st.steps)) <= st.invoked
    && CallsOf(ToolSteps(st.steps)) <= CallsAskedFor(st.replies)
    && (st.exit.None? ==>
          && st.invoked == Reaching(env, ToolSteps(st.steps))
          && CallsOf(ToolSteps(st.steps)) + st.pending == CallsAskedFor(st.replies))
  }

  lemma CallKeepsTold(base: seq<LLMMessage>, env: Env, st: LoopState)
    requires st.exit.None? && st.pending != [] && ToldOk(base, env, st)
    ensures ToldOk(base, env, Call(env, st))
  {
    hide TellsOutcome, Reaches, ToolSteps, ToolMessages, CallsOf, CallsAskedFor, Reaching, AllTold, EndsRun, Call;
    CallTellsOutcome(env, st);
    var after := Call(env, st);
    if after.exit.None? {
      var s, m := after.steps[|st.steps|], after.messages[|st.messages|];
      assert after.steps == st.steps + [s] && after.messages == st.messages + [m];
      TellingPair(env, |st.invoked|, st.pending[0], s, m);
      CalledKeepsTold(base, env, st, s, m);
    }
  }

  lemma CalledKeepsTold(base: seq<LLMMessage>, env: Env, st: LoopState, s: AgentStep, m: LLMMessage)
    requires st.exit.None? && st.pending != [] && ToldOk(base, env, st)
    requires s.kind == ToolStep && s.call == Some(st.pending[0]) && m.role == Tool
    requires TellsOutcome(env, |st.invoked|, st.pending[0], s, m)
    ensures base <= st.messages + [m]
    ensures AllTold(env, ToolSteps(st.steps + [s]), ToolMessages((st.messages + [m])[|base|..]))
    ensures Reaching(env, ToolSteps(st.steps + [s])) ==
            if Reaches(env, st.pending[0]) then st.invoked + [st.pending[0]] else st.invoked
    ensures CallsOf(ToolSteps(st.steps + [s])) + st.pending[1..] == CallsAskedFor(st.replies)
  {
    hide TellsOutcome, Reaches, ToolSteps, ToolMessages, CallsOf, CallsAskedFor, Reaching, AllTold;
    ToolStepsSnoc(st.steps, s);
    SpeakSnoc(base, st.messages, m);
    AllToldSnoc(env, ToolSteps(st.steps), ToolMessages(st.messages[|base|..]), s, m);
    CallsSnoc(env, ToolSteps(st.steps), s);
    assert st.pending == [st.pending[0]] + st.pending[1..];
    Associates(CallsOf(ToolSteps(st.steps)), [st.pending[0]], st.pending[1..]);
  }

  lemma TellingPair(env: Env, index: nat, call: ToolCall, s: AgentStep, m: LLMMessage)
    requires TellsOutcome(env, index, call, s, m)
    ensures s.kind == ToolStep && s.call == Some(call) && m.role == Tool
  {
  }

  /** A model step leaves all of this as it is. */
  lemma ModelStepKeepsTold(base: seq<LLMMessage>, env: Env, st: LoopState, after: LoopState, s: AgentStep)
    requires ToldOk(base, env, st) && st.exit.None? && s.kind == ModelStep
    requires after.steps == st.steps + [s] || after.steps == st.steps
    requires after.messages == st.messages && after.invoked == st.invoked && after.exit.Some?
    requires after.replies == st.replies
    ensures ToldOk(base, env, after)
  {
    hide AllTold, ToolMessages, Reaching, CallsOf, CallsAskedFor;
    ToolStepsSnoc(st.steps, s);
    assert ToolSteps(st.steps) + [] == ToolSteps(st.steps);
  }

  /** What one iteration does to dialogue, steps and replies when the model replies. */
  lemma ReplyEffect(env: Env, st: LoopState, r: LLMResponse)
    requires st.exit.None? && env.model(|st.requests|, RequestOf(env, st)) == Replied(r)
    ensures var after, s := Ask(env, st), HeardStep(env, Asked(env, st), r);
            && after.steps == st.steps + [s] && s.kind == ModelStep
            && after.invoked == st.invoked && after.replies == st.replies + [r]
            && after.requests == st.requests + [RequestOf(env, st)]
            && (after.exit.None? ==>
                  && r.toolCalls != [] && after.pending == r.toolCalls
                  && st.toolCallCount + |r.toolCalls| <= env.maxToolCalls
                  && after.messages == st.messages + [LLMMessage(Assistant, r.content, None, None, r.toolCalls, None)])
            && (after.exit.Some? ==>
                  && after.messages == st.messages && after.pending == st.pending
                  && EndsWithReply(env, st.toolCallCount, r, after.exit.value))
  {
    hide AddUsage, RequestOf, RecordOfReply, Counted, Final, PyText.Strip;
    var heard := Heard(env, Asked(env, st), r);
    assert Ask(env, st) == Decide(env, heard, r);
    DecideEffect(env, heard, r);
  }

  lemma DecideEffect(env: Env, st: LoopState, r: LLMResponse)
    requires st.exit.None?
    ensures var after := Decide(env, st, r);
            && after.steps == st.steps && after.invoked == st.invoked && after.replies == st.replies
            && after.requests == st.requests
            && (after.exit.None? ==>
                  && r.toolCalls != [] && after.pending == r.toolCalls
                  && st.toolCallCount + |r.toolCalls| <= env.maxToolCalls
                  && after.messages == st.messages + [LLMMessage(Assistant, r.content, None, None, r.toolCalls, None)])
            && (after.exit.Some? ==>
                  && after.messages == st.messages && after.pending == st.pending
                  && EndsWithReply(env, st.toolCallCount, r, after.exit.value))
  {
    hide Final, PyText.Strip;
    if r.toolCalls == [] {
      if PyText.Strip(r.content) == "" {
        assert Decide(env, st, r) ==
               st.(exit := Some(Threw(AppError("AGENT_EMPTY_RESPONSE", "Agent finished without a response."))));
      } else {
        assert Decide(env, st, r).exit.value.Returned?;
      }
    } else if st.toolCallCount + |r.toolCalls| > env.maxToolCalls {
      assert Decide(env, st, r) == st.(exit := Some(Threw(
        AppError("AGENT_TOOL_LIMIT_REACHED", "Agent exceeded the maximum number of tool calls."))));
    } else {
      assert Decide(env, st, r).exit.None?;
    }
  }

  /** How a reply ends the run: an answer, a blank reply without calls, or more calls than are left. */
  ghost predicate EndsWithReply(env: Env, made: nat, r: LLMResponse, exit: Exit) {
    if r.toolCalls == [] then
      if PyText.Strip(r.content) == "" then
        exit == Threw(AppError("AGENT_EMPTY_RESPONSE", "Agent finished without a response."))
      else exit.Returned?
    else
      && made + |r.toolCalls| > env.maxToolCalls
      && exit == Threw(AppError("AGENT_TOOL_LIMIT_REACHED", "Agent exceeded the maximum number of tool calls."))
  }

  lemma ReplyKeepsTold(base: seq<LLMMessage>, env: Env, st: LoopState, r: LLMResponse)
    requires st.exit.None? && st.pending == [] && ToldOk(base, env, st)
    requires env.model(|st.requests|, RequestOf(env, st)) == Replied(r)
    ensures ToldOk(base, env, Ask(env, st))
  {
    ReplyEffect(env, st, r);
    hide Ask, AllTold, ToolSteps, ToolMessages, Reaching, CallsOf, CallsAskedFor, RequestOf, HeardStep, EndsWithReply;
    ToolStepsSnoc(st.steps, HeardStep(env, Asked(env, st), r));
    CallsAskedSnoc(st.replies, r);
    var m := LLMMessage(Assistant, r.content, None, None, r.toolCalls, None);
    SpeakSnoc(base, st.messages, m);
    assert ToolMessages(st.messages[|base|..]) + [] == ToolMessages(st.messages[|base|..]);
    assert ToolSteps(st.steps) + [] == ToolSteps(st.steps);
    assert CallsOf(ToolSteps(st.steps)) + [] == CallsOf(ToolSteps(st.steps));
  }

  lemma AskKeepsTold(base: seq<LLMMessage>, env: Env, st: LoopState)
    requires st.exit.None? && st.pending == [] && ToldOk(base, env, st)
    ensures ToldOk(base, env, Ask(env, st))
  {
    match env.model(|st.requests|, RequestOf(env, st))
    case ModelInterrupted(_) =>
      ModelStepKeepsTold(base, env, st, Ask(env, st), UnheardStep(env, Asked(env, st), OtherError("")));
    case ModelRaised(exc) =>
      ModelStepKeepsTold(base, env, st, Ask(env, st), UnheardStep(env, Asked(env, st), exc));
    case Replied(r) => ReplyKeepsTold(base, env, st, r);
  }

  lemma StepKeepsTold(base: seq<LLMMessage>, env: Env, st: LoopState)
    requires st.exit.None? && ToldOk(base, env, st)
    ensures ToldOk(base, env, Step(env, st))
  {
    hide AllTold, ToolSteps, ToolMessages, Reaching, CallsOf, CallsAskedFor, Call, Ask;
    if st.pending != [] {
      CallKeepsTold(base, env, st);
    } else if st.iteration < env.maxSteps {
      AskKeepsTold(base, env, st);
    }
  }

  // ---------------------------------------------------------------- requests and replies

  /** Request `i` is the part of the dialogue that holds the first `i` replies. */
  ghost predicate RequestTells(base: seq<LLMMessage>, st: LoopState, i: nat)
    requires i < |st.requests|
  {
    && i <= |st.replies|
    && base <= st.requests[i].messages <= st.messages
    && AssistantMessages(st.requests[i].messages[|base|..]) == Spoken(st.replies[..i])
  }

  /** Every reply is what the model answered to its request. */
  ghost predicate RequestsOk(base: seq<LLMMessage>, env: Env, st: LoopState) {
    && |st.replies| <= |st.requests|
    && (forall i :: 0 <= i < |st.replies| ==> env.model(i, st.requests[i]) == Replied(st.replies[i]))
    && (forall i :: 0 <= i < |st.requests| ==> RequestTells(base, st, i))
  }

  /** The dialogue may grow, and replies and requests may follow. */
  lemma RequestsKept(base: seq<LLMMessage>, env: Env, st: LoopState, after: LoopState)
    requires RequestsOk(base, env, st)
    requires st.messages <= after.messages && after.requests == st.requests && after.replies == st.replies
    ensures RequestsOk(base, env, after)
  {
    hide AssistantMessages, Spoken;
    forall i | 0 <= i < |after.requests| ensures RequestTells(base, after, i) {
      assert RequestTells(base, st, i);
    }
  }

  lemma RequestAsked(base: seq<LLMMessage>, env: Env, st: LoopState, after: LoopState, q: ModelRequest, heard: seq<LLMResponse>)
    requires RequestsOk(base, env, st) && SpeechOk(base, st) && st.exit.None? && |st.requests| == |st.replies|
    requires q.messages == st.messages <= after.messages
    requires after.requests == st.requests + [q] && after.replies == st.replies + heard
    requires heard == [] || (|heard| == 1 && env.model(|st.requests|, q) == Replied(heard[0]))
    ensures RequestsOk(base, env, after)
  {
    hide AssistantMessages, Spoken;
    forall i | 0 <= i < |after.requests| ensures RequestTells(base, after, i) {
      assert after.replies[..i] == st.replies[..i];
      if i < |st.requests| {
        assert RequestTells(base, st, i);
      } else {
        assert st.replies[..i] == st.replies;
      }
    }
  }

  lemma StepKeepsRequests(base: seq<LLMMessage>, env: Env, st: LoopState)
    requires st.exit.None? && RequestsOk(base, env, st) && SpeechOk(base, st) && RecordOk(env, st)
    ensures RequestsOk(base, env, Step(env, st))
  {
    hide SpeechOk, AllRecounted, ModelSteps;
    if st.pending != [] {
      CallTellsOutcome(env, st);
      hide TellsOutcome, EndsRun, Call, RequestsOk;
      RequestsKept(base, env, st, Call(env, st));
    } else if st.iteration < env.maxSteps {
      hide RequestsOk;
      AskKeepsRequests(base, env, st);
    } else {
      RequestsKept(base, env, st, Step(env, st));
    }
  }

  lemma AskKeepsRequests(base: seq<LLMMessage>, env: Env, st: LoopState)
    requires st.exit.None? && st.pending == [] && RequestsOk(base, env, st) && SpeechOk(base, st)
    requires |st.requests| == |st.replies|
    ensures RequestsOk(base, env, Ask(env, st))
  {
    hide SpeechOk, RequestsOk;
    var q := RequestOf(env, st);
    match env.model(|st.requests|, q)
    case ModelInterrupted(_) => RequestAsked(base, env, st, Ask(env, st), q, []);
    case ModelRaised(exc) => RequestAsked(base, env, st, Ask(env, st), q, []);
    case Replied(r) =>
      ReplyEffect(env, st, r);
      RequestAsked(base, env, st, Ask(env, st), q, [r]);
  }

  // ---------------------------------------------------------------- why a run ends

  /** The last request was not replied to: this is what it brought. */
  ghost predicate ModelBrought(env: Env, st: LoopState, outcome: ModelOutcome) {
    && |st.requests| == |st.replies| + 1
    && env.model(|st.replies|, st.requests[|st.replies|]) == outcome
  }

  /** The last call that reached a tool has left no step: this is what it brought. */
  ghost predicate ToolBrought(env: Env, st: LoopState, outcome: ToolOutcome) {
    && |st.requests| == |st.replies|
    && st.pending != [] && Reaches(env, st.pending[0])
    && st.invoked == Reaching(env, ToolSteps(st.steps)) + [st.pending[0]]
    && env.tool(|st.invoked| - 1, st.pending[0]) == outcome
  }

  /** The last step is a failed model step with the code and the start of the message of the exception. */
  ghost predicate EndsInFailedStep(steps: seq<AgentStep>, exc: Exc) {
    && steps != []
    && var s := steps[|steps| - 1];
       && s.kind == ModelStep && !s.completed && StoresText(s.errorMessage, exc.message)
       && s.errorCode == Some(match exc case AppError(code, _) => code case _ => "INTERNAL_ERROR")
  }

  /** What the run ended with and why. A timeout or a cancellation struck while the model or a tool
      was awaited; an exception came from building the definitions, from the model or from building
      a tool, or one of three limits of the loop was reached. As long as it goes on there is none of
      these reasons. */
  ghost predicate CauseOk(env: Env, st: LoopState) {
    match st.exit
    case None => env.building.None? && |CallsAskedFor(st.replies)| <= env.maxToolCalls
    case Some(Returned(_)) => env.building.None? && |st.requests| == |st.replies|
    case Some(Stopped(why)) => ModelBrought(env, st, ModelInterrupted(why)) || ToolBrought(env, st, ToolInterrupted(why))
    case Some(Threw(exc)) =>
      || (env.building == Some(exc) && st.requests == [] && st.steps == [] && st.invoked == [])
      || (ModelBrought(env, st, ModelRaised(exc)) && EndsInFailedStep(st.steps, exc))
      || (ToolBrought(env, st, FactoryRaised(exc)) && !exc.AppError?)
      || (&& exc == AppError("AGENT_EMPTY_RESPONSE", "Agent finished without a response.")
          && 0 < |st.replies| == |st.requests|
          && var last := st.replies[|st.replies| - 1];
             last.toolCalls == [] && PyText.Strip(last.content) == "")
      || (&& exc == AppError("AGENT_TOOL_LIMIT_REACHED", "Agent exceeded the maximum number of tool calls.")
          && 0 < |st.replies| == |st.requests|
          && st.replies[|st.replies| - 1].toolCalls != []
          && |CallsAskedFor(st.replies)| > env.maxToolCalls)
      || (&& exc == AppError("AGENT_MAX_STEPS_REACHED", "Agent reached the maximum number of reasoning steps.")
          && |st.requests| == |st.replies| == env.maxSteps
          && CallsOf(ToolSteps(st.steps)) == CallsAskedFor(st.replies))
  }

  lemma {:induction false} ToolStepsAreCounted(steps: seq<AgentStep>)
    requires forall i :: 0 <= i < |steps| ==> (steps[i].kind == ToolStep <==> steps[i].call.Some?)
    ensures |ToolSteps(steps)| == CountTools(steps)
    ensures forall i :: 0 <= i < |ToolSteps(steps)| ==> ToolSteps(steps)[i].call.Some?
  {
    if steps != [] {
      ToolStepsAreCounted(steps[..|steps| - 1]);
    }
  }

  lemma {:induction false} CallsAreCounted(steps: seq<AgentStep>)
    requires forall i :: 0 <= i < |steps| ==> steps[i].call.Some?
    ensures |CallsOf(steps)| == |steps|
  {
    if steps != [] {
      CallsAreCounted(steps[..|steps| - 1]);
    }
  }

  /** The counter of the loop is the number of calls asked for, when all of them are made. */
  lemma MadeCallsAreCounted(base: seq<LLMMessage>, env: Env, st: LoopState)
    requires st.exit.None? && st.pending == [] && TraceOk(st) && ToldOk(base, env, st)
    ensures st.toolCallCount == |CallsAskedFor(st.replies)|
    ensures CallsOf(ToolSteps(st.steps)) == CallsAskedFor(st.replies)
  {
    hide AllTold, ToolMessages, Reaching, CallsAskedFor;
    ToolStepsAreCounted(st.steps);
    CallsAreCounted(ToolSteps(st.steps));
    assert CallsOf(ToolSteps(st.steps)) + [] == CallsOf(ToolSteps(st.steps));
  }

  lemma CallKeepsCause(base: seq<LLMMessage>, env: Env, st: LoopState)
    requires st.exit.None? && st.pending != [] && CauseOk(env, st) && ToldOk(base, env, st)
    requires |st.requests| == |st.replies|
    ensures CauseOk(env, Call(env, st))
  {
    CallTellsOutcome(env, st);
    hide TellsOutcome, Reaching, CallsOf, CallsAskedFor, ToolSteps, ToolMessages, AllTold, Call;
  }

  lemma AskKeepsCause(base: seq<LLMMessage>, env: Env, st: LoopState)
    requires st.exit.None? && st.pending == [] && CauseOk(env, st) && TraceOk(st) && ToldOk(base, env, st)
    requires |st.requests| == |st.replies|
    ensures CauseOk(env, Ask(env, st))
  {
    hide TraceOk, ToldOk;
    match env.model(|st.requests|, RequestOf(env, st))
    case ModelInterrupted(why) => assert ModelBrought(env, Ask(env, st), ModelInterrupted(why));
    case ModelRaised(exc) =>
      CutStoresText(exc.message);
      assert ModelBrought(env, Ask(env, st), ModelRaised(exc));
      assert EndsInFailedStep(Ask(env, st).steps, exc);
    case Replied(r) =>
      MadeCallsAreCounted(base, env, st);
      ReplyKeepsCause(env, st, r);
  }

  lemma ReplyKeepsCause(env: Env, st: LoopState, r: LLMResponse)
    requires st.exit.None? && st.pending == [] && CauseOk(env, st) && |st.requests| == |st.replies|
    requires st.toolCallCount == |CallsAskedFor(st.replies)|
    requires env.model(|st.requests|, RequestOf(env, st)) == Replied(r)
    ensures CauseOk(env, Ask(env, st))
  {
    ReplyEffect(env, st, r);
    hide Ask, CallsAskedFor, RequestOf, HeardStep, PyText.Strip;
    CallsAskedSnoc(st.replies, r);
  }

  lemma StepKeepsCause(base: seq<LLMMessage>, env: Env, st: LoopState)
    requires st.exit.None? && CauseOk(env, st) && TraceOk(st) && ToldOk(base, env, st) && RecordOk(env, st)
    requires st.iteration <= env.maxSteps
    ensures CauseOk(env, Step(env, st))
  {
    hide TraceOk, ToldOk, AllRecounted, ModelSteps;
    if st.pending != [] {
      hide CauseOk;
      CallKeepsCause(base, env, st);
    } else if st.iteration < env.maxSteps {
      hide CauseOk;
      AskKeepsCause(base, env, st);
    } else {
      MadeCallsAreCounted(base, env, st);
    }
  }

  // ---------------------------------------------------------------- every point of every run

  /** A run that was not answered has no error on its row before it is closed. */
  ghost predicate History(base: seq<LLMMessage>, env: Env, st: LoopState) {
    && ToldOk(base, env, st) && RequestsOk(base, env, st) && CauseOk(env, st)
    && st.run.errorCode == None && st.run.errorMessage == None
  }

  lemma StepKeepsErrors(env: Env, st: LoopState)
    requires st.exit.None?
    ensures Step(env, st).run.errorCode == st.run.errorCode && Step(env, st).run.errorMessage == st.run.errorMessage
  {
    hide ExecuteTool, RequestOf, HeardStep, UnheardStep, ToolStepOf, ReplyTo, AddUsage, Final, PyText.Strip, Decide;
    if st.pending == [] && st.iteration < env.maxSteps {
      match env.model(|st.requests|, RequestOf(env, st))
      case Replied(r) => DecideKeepsErrors(env, Heard(env, Asked(env, st), r), r);
      case _ =>
    }
  }

  lemma DecideKeepsErrors(env: Env, st: LoopState, r: LLMResponse)
    ensures Decide(env, st, r).run.errorCode == st.run.errorCode
    ensures Decide(env, st, r).run.errorMessage == st.run.errorMessage
  {
    hide Final, PyText.Strip;
  }

  lemma StepKeepsHistory(base: seq<LLMMessage>, env: Env, st: LoopState)
    requires st.exit.None? && Inv(base, env, st) && History(base, env, st)
    ensures History(base, env, Step(env, st))
  {
    hide TraceOk, ProtocolOk, SpeechOk, RecordOk, RepliesOk, AuthorityOk, ToldOk, RequestsOk, CauseOk, Step;
    StepKeepsTold(base, env, st);
    StepKeepsRequests(base, env, st);
    StepKeepsCause(base, env, st);
    StepKeepsErrors(env, st);
  }

  lemma StartHistory(env: Env, ms: seq<LLMMessage>)
    ensures History(WithInstructions(env.instructions, ms), env, Start(env, ms))
  {
    var base := WithInstructions(env.instructions, ms);
    assert base[|base|..] == [];
  }

  /** The history is right at every point of every run. */
  lemma {:induction false} HistoryAt(env: Env, ms: seq<LLMMessage>, n: nat)
    ensures History(WithInstructions(env.instructions, ms), env, StateAt(env, ms, n))
  {
    hide History, Inv, Start, Step;
    if n == 0 {
      StartHistory(env, ms);
    } else {
      HistoryAt(env, ms, n - 1);
      EveryPoint(env, ms, n - 1);
      var st := StateAt(env, ms, n - 1);
      if st.exit.None? {
        StepKeepsHistory(WithInstructions(env.instructions, ms), env, st);
      }
    }
  }

  /** At every point of every run, tool step `k` and tool message `k` tell what the `k`-th call
      brought: the result the tool returned, or the refusal, the timeout or the error that stood in
      its place. */
  lemma MessagesTellOutcomes(env: Env, ms: seq<LLMMessage>, n: nat, k: nat)
    ensures var base, st := WithInstructions(env.instructions, ms), StateAt(env, ms, n);
            && base <= st.messages
            && var steps, told := ToolSteps(st.steps), ToolMessages(st.messages[|base|..]);
               && |steps| == |told|
               && (k < |steps| ==>
                     && steps[k].call.Some?
                     && TellsOutcome(env, |Reaching(env, steps[..k])|, steps[k].call.value, steps[k], told[k]))
  {
    HistoryAt(env, ms, n);
    hide StateAt, WithInstructions, ToolSteps, ToolMessages, Reaching, TellsOutcome, RequestsOk, CauseOk;
    var base, st := WithInstructions(env.instructions, ms), StateAt(env, ms, n);
    assert k < |ToolSteps(st.steps)| ==> ToldAt(env, ToolSteps(st.steps), ToolMessages(st.messages[|base|..]), k);
  }

  /** At every point of every run, the calls made so far, each with its arguments, are the first of
      those that the replies ask for, and as long as the loop goes on the others are still to be
      made; the tools are reached by exactly those that are allowed and registered. */
  lemma CallsAreMadeInOrder(env: Env, ms: seq<LLMMessage>, n: nat)
    ensures var st := StateAt(env, ms, n);
            && CallsOf(ToolSteps(st.steps)) <= CallsAskedFor(st.replies)
            && (st.exit.None? ==> CallsOf(ToolSteps(st.steps)) + st.pending == CallsAskedFor(st.replies))
            && (st.exit.None? ==> st.invoked == Reaching(env, ToolSteps(st.steps)))
  {
    HistoryAt(env, ms, n);
  }

  /** At every point of every run, reply `i` is what the model answered to request `i`, and request
      `i` is the whole dialogue up to then: the instructed messages, the first `i` replies, and
      between them the answers to their calls. */
  lemma RequestsTellDialogue(env: Env, ms: seq<LLMMessage>, n: nat, i: nat)
    requires i < |StateAt(env, ms, n).requests|
    ensures var base, st := WithInstructions(env.instructions, ms), StateAt(env, ms, n);
            && i <= |st.replies|
            && base <= st.requests[i].messages <= st.messages
            && Speaks(base, st.requests[i].messages, [])
            && AssistantMessages(st.requests[i].messages[|base|..]) == Spoken(st.replies[..i])
            && (i < |st.replies| ==> env.model(i, st.requests[i]) == Replied(st.replies[i]))
  {
    HistoryAt(env, ms, n);
    EveryPoint(env, ms, n);
    hide StateAt, WithInstructions, ToldOk, CauseOk, AssistantMessages, Spoken, Owed;
    assert RequestTells(WithInstructions(env.instructions, ms), StateAt(env, ms, n), i);
  }

  /** Every run ends for the reason it gives. */
  lemma RunsEndForAReason(env: Env, ms: seq<LLMMessage>)
    ensures CauseOk(env, Finish(env, Start(env, ms)))
  {
    hide Start, Finish, CauseOk, ToldOk, RequestsOk;
    EndHistory(env, ms);
  }

  /** When the definitions of the tools cannot be built, nobody is called. */
  lemma NobodyIsCalledWithoutDefinitions(env: Env, ms: seq<LLMMessage>)
    requires env.building.Some?
    ensures var end := Finish(env, Start(env, ms));
            && end.exit == Some(Threw(env.building.value))
            && end.requests == [] && end.invoked == [] && end.steps == []
  {
  }

  /** What the row of a finished run says: an answered run is completed without an error, a cancelled
      one cancelled; any other has failed with the code of its exception, or of the timeout, and the
      first 2000 characters of the message. */
  lemma RowTellsEnd(env: Env, ms: seq<LLMMessage>)
    ensures var end := Finish(env, Start(env, ms));
            var run := Closed(end.run, end.exit.value);
            match end.exit.value
            case Returned(_) => run.status == Completed && run.errorCode == None && run.errorMessage == None
            case Stopped(RunCancelled) =>
              && run.status == Cancelled && run.errorCode == Some("AGENT_CANCELLED")
              && run.errorMessage == Some("Agent execution was cancelled.")
            case Stopped(RunTimedOut) => TellsTimeout(run)
            case Threw(TimeoutError(_)) => TellsTimeout(run)
            case Threw(AppError(code, message)) =>
              run.status == Failed && run.errorCode == Some(code) && StoresText(run.errorMessage, message)
            case Threw(OtherError(message)) =>
              run.status == Failed && run.errorCode == Some("INTERNAL_ERROR") && StoresText(run.errorMessage, message)
  {
    hide StateAt, Finish, Closed, ToldOk, RequestsOk, CauseOk, IsFinal;
    EndHistory(env, ms);
    CompletedIffFinalReply(env, ms, 0);
    var end := Finish(env, Start(env, ms));
    ClosedTells(end.run, end.exit.value);
  }

  lemma EndHistory(env: Env, ms: seq<LLMMessage>)
    ensures History(WithInstructions(env.instructions, ms), env, Finish(env, Start(env, ms)))
  {
    hide StateAt, Start, History;
    var n := env.maxSteps + env.maxToolCalls + 1;
    EndsWithinBudget(env, ms, n);
    FinishIsReached(env, ms, n);
    HistoryAt(env, ms, n);
  }

  lemma ClosedTells(run: AgentRun, exit: Exit)
    ensures match exit
            case Returned(_) => Closed(run, exit) == run
            case Stopped(RunCancelled) =>
              Closed(run, exit) == run.(status := Cancelled, errorCode := Some("AGENT_CANCELLED"),
                                        errorMessage := Some("Agent execution was cancelled."))
            case Stopped(RunTimedOut) => TellsTimeout(Closed(run, exit))
            case Threw(TimeoutError(_)) => TellsTimeout(Closed(run, exit))
            case Threw(AppError(code, message)) =>
              && Closed(run, exit).status == Failed && Closed(run, exit).errorCode == Some(code)
              && StoresText(Closed(run, exit).errorMessage, message)
            case Threw(OtherError(message)) =>
              && Closed(run, exit).status == Failed && Closed(run, exit).errorCode == Some("INTERNAL_ERROR")
              && StoresText(Closed(run, exit).errorMessage, message)
  {
    var timeout := "Agent execution timed out.";
    assert |timeout| == 26 && timeout[..26] == timeout;
    if exit.Threw? {
      CutStoresText(exit.exc.message);
    }
  }

  ghost predicate TellsTimeout(run: AgentRun) {
    && run.status == Failed && run.errorCode == Some("AGENT_TIMEOUT")
    && run.errorMessage == Some("Agent execution timed out.")
  }
}
