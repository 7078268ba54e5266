/** What holds at every point of every agent run. */
module AgentProperties {
  import opened Common
  import opened Llm
  import opened AgentLoop
  import PyText

  // ---------------------------------------------------------------- the trace

  function CountTools(steps: seq<AgentStep>): (n: nat)
    ensures n <= |steps|
  {
    if steps == [] then 0
    else CountTools(steps[..|steps| - 1]) + if steps[|steps| - 1].kind == ToolStep then 1 else 0
  }

  lemma CountSnoc(steps: seq<AgentStep>, s: AgentStep)
    ensures CountTools(steps + [s]) == CountTools(steps) + if s.kind == ToolStep then 1 else 0
  {
    assert (steps + [s])[..|steps|] == steps;
  }

  /** Stored steps are numbered 1..k, start with a model step, and the run row counts them. */
  ghost predicate Numbered(steps: seq<AgentStep>) {
    && (forall i :: 0 <= i < |steps| ==> steps[i].number == i + 1)
    && (forall i :: 0 <= i < |steps| ==> (steps[i].kind == ToolStep <==> steps[i].call.Some?))
    && (steps != [] ==> steps[0].kind == ModelStep)
  }

  ghost predicate Counts(run: AgentRun, steps: seq<AgentStep>) {
    Numbered(steps) && run.stepCount == |steps| && run.toolCallCount == CountTools(steps)
  }

  ghost predicate TraceOk(st: LoopState) {
    && Counts(st.run, st.steps)
    && st.run.status == (if st.exit.Some? && st.exit.value.Returned? then Completed else Running)
    && (st.exit.None? ==> st.stepNumber == |st.steps| && st.toolCallCount == CountTools(st.steps))
    && (st.pending != [] ==> st.steps != [])
  }

  lemma RecordKeepsCounts(run: AgentRun, steps: seq<AgentStep>, s: AgentStep)
    requires Counts(run, steps)
    requires s.number == |steps| + 1 && (s.kind == ToolStep <==> s.call.Some?)
    requires s.kind == ToolStep ==> steps != []
    ensures Counts(Counted(run, s), steps + [s])
    ensures CountTools(steps + [s]) == CountTools(steps) + if s.kind == ToolStep then 1 else 0
  {
    CountSnoc(steps, s);
  }

  lemma StepKeepsTrace(env: Env, st: LoopState)
    requires st.exit.None? && TraceOk(st)
    ensures TraceOk(Step(env, st))
  {
    if st.pending != [] {
      CallKeepsTrace(env, st);
    } else if st.iteration < env.maxSteps {
      AskKeepsTrace(env, st);
    }
  }

  lemma CallKeepsTrace(env: Env, st: LoopState)
    requires st.exit.None? && st.pending != [] && TraceOk(st)
    ensures TraceOk(Call(env, st))
  {
    var e := Execute(env, |st.invoked|, st.pending[0]);
    if e.Executed? || e.Refused? {
      RecordKeepsCounts(st.run, st.steps, ToolStepOf(st.stepNumber + 1, st.pending[0], e));
    }
  }

  lemma AskKeepsTrace(env: Env, st: LoopState)
    requires st.exit.None? && st.pending == [] && TraceOk(st)
    ensures TraceOk(Ask(env, st))
  {
    match env.model(|st.requests|, RequestOf(env, st))
    case ModelInterrupted(_) =>
    case ModelRaised(exc) =>
      FailedAskKeepsTrace(env, Asked(env, st), exc);
    case Replied(r) =>
      HeardKeepsTrace(env, Asked(env, st), r);
      DecideKeepsTrace(env, Heard(env, Asked(env, st), r), r);
  }

  lemma FailedAskKeepsTrace(env: Env, st: LoopState, exc: Exc)
    requires st.exit.None? && st.pending == [] && st.run.status == Running && Counts(st.run, st.steps)
    requires st.stepNumber == |st.steps| + 1
    ensures TraceOk(Unheard(env, st, exc))
  {
    hide Cut, Numbered, CountTools;
    RecordKeepsCounts(st.run, st.steps, UnheardStep(env, st, exc));
  }

  lemma HeardKeepsTrace(env: Env, st: LoopState, r: LLMResponse)
    requires st.exit.None? && st.pending == [] && st.run.status == Running && Counts(st.run, st.steps)
    requires st.stepNumber == |st.steps| + 1 && st.toolCallCount == CountTools(st.steps)
    ensures TraceOk(Heard(env, st, r)) && Heard(env, st, r).steps != []
  {
    RecordKeepsCounts(st.run, st.steps, HeardStep(env, st, r));
  }

  lemma DecideKeepsTrace(env: Env, st: LoopState, r: LLMResponse)
    requires st.exit.None? && st.pending == [] && TraceOk(st) && st.steps != []
    ensures TraceOk(Decide(env, st, r))
  {
  }

  /** The write that completes a run finds both counters at the values it sets. */
  lemma CompletionKeepsCounters(env: Env, st: LoopState)
    requires st.exit.None? && TraceOk(st) && st.pending == [] && st.iteration < env.maxSteps
    requires env.model(|st.requests|, RequestOf(env, st)).Replied?
    requires IsFinal(env.model(|st.requests|, RequestOf(env, st)).response)
    ensures var after := Step(env, st);
            && |after.steps| == |st.steps| + 1
            && after.run == Counted(st.run, after.steps[|st.steps|]).(status := Completed)
            && after.run.stepCount == |after.steps| && after.run.toolCallCount == CountTools(after.steps)
  {
    var r := env.model(|st.requests|, RequestOf(env, st)).response;
    var heard := Heard(env, Asked(env, st), r);
    HeardKeepsTrace(env, Asked(env, st), r);
    HeardCounts(env, st, r);
    FinalKeepsCounters(env, heard, r);
    assert Step(env, st) == Decide(env, heard, r);
  }

  lemma HeardCounts(env: Env, st: LoopState, r: LLMResponse)
    ensures var heard := Heard(env, Asked(env, st), r);
            |heard.steps| == |st.steps| + 1 && heard.run == Counted(st.run, heard.steps[|st.steps|])
  {
  }

  lemma FinalKeepsCounters(env: Env, st: LoopState, r: LLMResponse)
    requires st.exit.None? && TraceOk(st) && IsFinal(r)
    ensures Decide(env, st, r).run == st.run.(status := Completed) && Decide(env, st, r).steps == st.steps
  {
  }

  // ---------------------------------------------------------------- messages

  /** The stored tool steps, in order. */
  function ToolSteps(steps: seq<AgentStep>): seq<AgentStep> {
    if steps == [] then []
    else
      var last := steps[|steps| - 1];
      ToolSteps(steps[..|steps| - 1]) + if last.kind == ToolStep then [last] else []
  }

  /** The stored text is the start of this one, up to 2000 characters. */
  ghost predicate StoresText(stored: Option<string>, text: string) {
    stored.Some? && stored.value <= text && |stored.value| == Min(2000, |text|)
  }

  lemma CutStoresText(text: string)
    ensures StoresText(Some(Cut(text)), text)
  {
  }

  /** The stored step reports the tool message: same call; a completed call with all the model was
      told, a failed one with the first 2000 characters of the error the model was told. */
  ghost predicate Reports(s: AgentStep, m: LLMMessage) {
    && s.call.Some? && Answers(m, s.call.value)
    && (s.completed ==> m == ToolMessage(s.call.value, s.output, Some(s.data)))
    && (!s.completed ==>
          && FAILURE_PREFIX <= m.content
          && m == ToolMessage(s.call.value, m.content, None)
          && StoresText(s.errorMessage, m.content[|FAILURE_PREFIX|..]))
  }

  ghost predicate AllReported(steps: seq<AgentStep>, ms: seq<LLMMessage>) {
    |steps| == |ms| && forall i :: 0 <= i < |steps| ==> Reports(steps[i], ms[i])
  }

  function ToolMessages(ms: seq<LLMMessage>): seq<LLMMessage> {
    if ms == [] then []
    else
      ToolMessages(ms[..|ms| - 1]) + if ms[|ms| - 1].role == Tool then [ms[|ms| - 1]] else []
  }

  ghost predicate Speaks(base: seq<LLMMessage>, ms: seq<LLMMessage>, owed: seq<ToolCall>) {
    base <= ms && Owed([], ms[|base|..]) == Some(owed)
  }

  /** The dialogue continues the instructed request by the tool-call protocol, every request sent
      so far owed nothing, and the stored tool steps report the tool messages. */
  ghost predicate ProtocolOk(base: seq<LLMMessage>, st: LoopState) {
    && Speaks(base, st.messages, st.pending)
    && (forall i :: 0 <= i < |st.requests| ==> Speaks(base, st.requests[i].messages, []))
    && AllReported(ToolSteps(st.steps), ToolMessages(st.messages[|base|..]))
  }

  lemma SpeakSnoc(base: seq<LLMMessage>, ms: seq<LLMMessage>, m: LLMMessage)
    requires base <= ms
    ensures base <= ms + [m]
    ensures (ms + [m])[|base|..] == ms[|base|..] + [m]
    ensures ToolMessages((ms + [m])[|base|..]) ==
            ToolMessages(ms[|base|..]) + if m.role == Tool then [m] else []
  {
    var tail := ms[|base|..];
    assert (ms + [m])[|base|..] == tail + [m];
    assert (tail + [m])[..|tail|] == tail;
  }

  lemma ToolStepsSnoc(steps: seq<AgentStep>, s: AgentStep)
    ensures ToolSteps(steps + [s]) == ToolSteps(steps) + if s.kind == ToolStep then [s] else []
  {
    assert (steps + [s])[..|steps|] == steps;
  }

  lemma AllReportedSnoc(steps: seq<AgentStep>, ms: seq<LLMMessage>, s: AgentStep, m: LLMMessage)
    requires AllReported(steps, ms) && Reports(s, m)
    ensures AllReported(steps + [s], ms + [m])
  {
    hide Reports;
  }

  /** What is stored of a call reports what the model is told about it. */
  lemma StepReportsReply(number: nat, call: ToolCall, e: Execution)
    requires e.Executed? || e.Refused?
    ensures Reports(ToolStepOf(number, call, e), ReplyTo(call, e))
  {
    if e.Refused? {
      assert (FAILURE_PREFIX + e.message)[|FAILURE_PREFIX|..] == e.message;
      CutStoresText(e.message);
    }
  }

  lemma CallKeepsProtocol(base: seq<LLMMessage>, env: Env, st: LoopState)
    requires st.exit.None? && st.pending != [] && ProtocolOk(base, st)
    ensures ProtocolOk(base, Call(env, st))
  {
    hide ExecuteTool;
    var call := st.pending[0];
    var e := Execute(env, |st.invoked|, call);
    if e.Executed? || e.Refused? {
      StepReportsReply(st.stepNumber + 1, call, e);
      hide Reports, Cut;
      CalledKeepsProtocol(base, st, ToolStepOf(st.stepNumber + 1, call, e), ReplyTo(call, e));
    }
  }

  lemma CalledKeepsProtocol(base: seq<LLMMessage>, st: LoopState, s: AgentStep, m: LLMMessage)
    requires st.pending != [] && ProtocolOk(base, st)
    requires s.kind == ToolStep && Reports(s, m) && Answers(m, st.pending[0])
    ensures ProtocolOk(base, Called(st, s, m))
  {
    hide Reports;
    SpeakSnoc(base, st.messages, m);
    ToolStepsSnoc(st.steps, s);
    AllReportedSnoc(ToolSteps(st.steps), ToolMessages(st.messages[|base|..]), s, m);
    OwedSnoc([], st.messages[|base|..], m);
  }

  lemma AskKeepsProtocol(base: seq<LLMMessage>, env: Env, st: LoopState)
    requires st.exit.None? && st.pending == [] && ProtocolOk(base, st)
    ensures ProtocolOk(base, Ask(env, st))
  {
    AskedKeepsProtocol(base, env, st);
    var asked := Asked(env, st);
    match env.model(|st.requests|, RequestOf(env, st))
    case ModelInterrupted(_) =>
    case ModelRaised(exc) =>
      ModelStepKeepsProtocol(base, asked, UnheardStep(env, Asked(env, st), exc));
    case Replied(r) =>
      ModelStepKeepsProtocol(base, asked, HeardStep(env, Asked(env, st), r));
      DecideKeepsProtocol(base, env, Heard(env, asked, r), r);
  }

  lemma AskedKeepsProtocol(base: seq<LLMMessage>, env: Env, st: LoopState)
    requires st.pending == [] && ProtocolOk(base, st)
    ensures ProtocolOk(base, Asked(env, st))
  {
  }

  lemma ModelStepKeepsProtocol(base: seq<LLMMessage>, st: LoopState, s: AgentStep)
    requires ProtocolOk(base, st) && s.kind == ModelStep
    ensures ProtocolOk(base, Recorded(st, s))
  {
    ToolStepsSnoc(st.steps, s);
  }

  lemma DecideKeepsProtocol(base: seq<LLMMessage>, env: Env, st: LoopState, r: LLMResponse)
    requires st.pending == [] && ProtocolOk(base, st)
    ensures ProtocolOk(base, Decide(env, st, r))
  {
    hide Reports, AllReported, Speaks, ToolSteps, ToolMessages, Final, PyText.Strip;
    if r.toolCalls != [] {
      CallsTakenOnKeepProtocol(base, st, r);
    }
  }

  lemma CallsTakenOnKeepProtocol(base: seq<LLMMessage>, st: LoopState, r: LLMResponse)
    requires st.pending == [] && r.toolCalls != [] && ProtocolOk(base, st)
    ensures var m := LLMMessage(Assistant, r.content, None, None, r.toolCalls, None);
            ProtocolOk(base, st.(messages := st.messages + [m], pending := r.toolCalls))
  {
    hide Reports, AllReported, ToolSteps, ToolMessages;
    var m := LLMMessage(Assistant, r.content, None, None, r.toolCalls, None);
    SpeakSnoc(base, st.messages, m);
    assert ToolMessages((st.messages + [m])[|base|..]) == ToolMessages(st.messages[|base|..]);
    assert Speaks(base, st.messages + [m], r.toolCalls) by {
      OwedSnoc([], st.messages[|base|..], m);
    }
  }

  // ---------------------------------------------------------------- what the trace records

  /** The tool message as the stored step would have it. */
  function ReplyFrom(s: AgentStep): LLMMessage
    requires s.call.Some?
  {
    if s.completed then ToolMessage(s.call.value, s.output, Some(s.data))
    else ToolMessage(s.call.value, FAILURE_PREFIX + (if s.errorMessage.Some? then s.errorMessage.value else ""), None)
  }

  /** The error of this message, if it tells one, is stored whole. */
  predicate StoredWhole(s: AgentStep, m: LLMMessage) {
    s.completed || |m.content| <= |FAILURE_PREFIX| + MAX_ERROR_CHARS
  }

  lemma ReportedWholeIff(s: AgentStep, m: LLMMessage)
    requires Reports(s, m)
    ensures ReplyFrom(s) == m <==> StoredWhole(s, m)
  {
    if !s.completed {
      var full := m.content[|FAILURE_PREFIX|..];
      assert m.content == FAILURE_PREFIX + full;
      if |full| <= MAX_ERROR_CHARS {
        assert s.errorMessage.value == full[..|full|] == full;
      } else {
        assert |ReplyFrom(s).content| < |m.content|;
      }
    }
  }

  /** Exactly when the stored step of a call tells what the model was told: when the error, if there
      is one, has at most 2000 characters. */
  lemma StepTellsReplyIff(number: nat, call: ToolCall, e: Execution)
    requires e.Executed? || e.Refused?
    ensures ReplyFrom(ToolStepOf(number, call, e)) == ReplyTo(call, e) <==>
              e.Refused? ==> |e.message| <= MAX_ERROR_CHARS
  {
    StepReportsReply(number, call, e);
    ReportedWholeIff(ToolStepOf(number, call, e), ReplyTo(call, e));
  }

  ghost predicate TracesDialogue(steps: seq<AgentStep>, ms: seq<LLMMessage>)
    requires |steps| == |ms|
  {
    forall i :: 0 <= i < |steps| ==> steps[i].call.Some? && ReplyFrom(steps[i]) == ms[i]
  }

  /** The dialogue behind the instructed request is what the stored tool steps tell. */
  ghost predicate Retold(base: seq<LLMMessage>, st: LoopState)
    requires base <= st.messages
  {
    var steps, told := ToolSteps(st.steps), ToolMessages(st.messages[|base|..]);
    |steps| == |told| && TracesDialogue(steps, told)
  }

  /** No error told to the model is longer than what is stored of it. */
  ghost predicate ErrorsFit(base: seq<LLMMessage>, st: LoopState)
    requires base <= st.messages
  {
    var steps, told := ToolSteps(st.steps), ToolMessages(st.messages[|base|..]);
    |steps| == |told| && forall i :: 0 <= i < |steps| ==> StoredWhole(steps[i], told[i])
  }

  /** At every point of every run, the tool messages can be read back from the stored steps exactly
      when no error told is longer than 2000 characters. */
  lemma TraceTellsDialogueIff(env: Env, ms: seq<LLMMessage>, n: nat)
    ensures var base, st := WithInstructions(env.instructions, ms), StateAt(env, ms, n);
            && base <= st.messages
            && |ToolSteps(st.steps)| == |ToolMessages(st.messages[|base|..])|
            && (Retold(base, st) <==> ErrorsFit(base, st))
  {
    hide StateAt, Retold, ErrorsFit;
    EveryPoint(env, ms, n);
    ProtocolOf(WithInstructions(env.instructions, ms), env, StateAt(env, ms, n));
    RetoldIff(WithInstructions(env.instructions, ms), StateAt(env, ms, n));
  }

  lemma RetoldIff(base: seq<LLMMessage>, st: LoopState)
    requires ProtocolOk(base, st)
    ensures base <= st.messages && |ToolSteps(st.steps)| == |ToolMessages(st.messages[|base|..])|
    ensures Retold(base, st) <==> ErrorsFit(base, st)
  {
    hide Reports, ReplyFrom, StoredWhole, ToolSteps, ToolMessages, Owed;
    ToldWholeIff(ToolSteps(st.steps), ToolMessages(st.messages[|base|..]));
  }

  /** A call whose error is longer leaves a trace that does not tell the dialogue. */
  lemma LongErrorIsLost(base: seq<LLMMessage>, env: Env, st: LoopState)
    requires st.exit.None? && st.pending != [] && ProtocolOk(base, st)
    requires Execute(env, |st.invoked|, st.pending[0]).Refused?
    requires |Execute(env, |st.invoked|, st.pending[0]).message| > MAX_ERROR_CHARS
    ensures base <= Call(env, st).messages && !Retold(base, Call(env, st))
  {
    hide ExecuteTool, Owed, ToolSteps, ToolMessages, Cut, ReplyFrom;
    var call := st.pending[0];
    var e := Execute(env, |st.invoked|, call);
    var s, m := ToolStepOf(st.stepNumber + 1, call, e), ReplyTo(call, e);
    StepTellsReplyIff(st.stepNumber + 1, call, e);
    SpeakSnoc(base, st.messages, m);
    ToolStepsSnoc(st.steps, s);
    NotTold(ToolSteps(st.steps), ToolMessages(st.messages[|base|..]), s, m);
  }

  lemma NotTold(steps: seq<AgentStep>, ms: seq<LLMMessage>, s: AgentStep, m: LLMMessage)
    requires |steps| == |ms| && s.call.Some? && ReplyFrom(s) != m
    ensures !TracesDialogue(steps + [s], ms + [m])
  {
    assert (steps + [s])[|steps|] == s && (ms + [m])[|steps|] == m;
  }

  lemma FirstReply(env: Env, ms: seq<LLMMessage>, r: LLMResponse)
    requires env.building.None? && env.maxSteps > 0
    requires env.model(0, RequestOf(env, Start(env, ms))) == Replied(r)
    requires 0 < |r.toolCalls| <= env.maxToolCalls
    ensures var st := StateAt(env, ms, 1);
            st.exit.None? && st.pending == r.toolCalls && st.invoked == []
  {
    hide RequestOf, WithInstructions;
    var st := Start(env, ms);
    assert StateAt(env, ms, 0) == st;
    assert StateAt(env, ms, 1) == Step(env, st);
    assert Step(env, st) == Decide(env, Heard(env, Asked(env, st), r), r);
  }

  lemma SecondStep(env: Env, ms: seq<LLMMessage>)
    requires StateAt(env, ms, 1).exit.None? && StateAt(env, ms, 1).pending != []
    ensures StateAt(env, ms, 2) == Call(env, StateAt(env, ms, 1))
  {
  }

  /** A run in which that happens: the model asks for one tool, and the tool raises an application
      error with a longer message. */
  lemma LongErrorRun(message: string) returns (env: Env, ms: seq<LLMMessage>)
    requires |message| > MAX_ERROR_CHARS
    ensures var base, st := WithInstructions(env.instructions, ms), StateAt(env, ms, 2);
            base <= st.messages && !Retold(base, st)
  {
    var call := ToolCall("", "t", "");
    var r := LLMResponse("", "", "", None, None, None, [call], map[]);
    env := Env("", 2, 1, "", {"t"}, ["t"], None, (k, q) => Replied(r),
               (k, c) => ToolRaised(AppError("E", message)));
    ms := [];
    hide StateAt, Start, RequestOf, WithInstructions, Retold;
    AppErrorIsRefused(env.allowed, env.registry, call, "E", message);
    LongErrorAfter(env, ms, r);
  }

  lemma LongErrorAfter(env: Env, ms: seq<LLMMessage>, r: LLMResponse)
    requires env.building.None? && env.maxSteps > 0
    requires env.model(0, RequestOf(env, Start(env, ms))) == Replied(r)
    requires 0 < |r.toolCalls| <= env.maxToolCalls
    requires Execute(env, 0, r.toolCalls[0]).Refused?
    requires |Execute(env, 0, r.toolCalls[0]).message| > MAX_ERROR_CHARS
    ensures var base, st := WithInstructions(env.instructions, ms), StateAt(env, ms, 2);
            base <= st.messages && !Retold(base, st)
  {
    hide StateAt, Start, Call, Execute, RequestOf, WithInstructions, Retold, ProtocolOk, Inv;
    FirstReply(env, ms, r);
    SecondStep(env, ms);
    EveryPoint(env, ms, 1);
    var base, st := WithInstructions(env.instructions, ms), StateAt(env, ms, 1);
    ProtocolOf(base, env, st);
    LongErrorIsLost(base, env, st);
  }

  lemma AppErrorIsRefused(allowed: set<string>, registry: seq<string>, call: ToolCall, code: string, message: string)
    requires call.name in allowed && call.name in registry
    ensures ExecuteTool(allowed, registry, call, ToolRaised(AppError(code, message))) == Refused(code, message)
  {
  }

  lemma ProtocolOf(base: seq<LLMMessage>, env: Env, st: LoopState)
    requires Inv(base, env, st)
    ensures ProtocolOk(base, st)
  {
  }

  lemma ToldWholeIff(steps: seq<AgentStep>, ms: seq<LLMMessage>)
    requires AllReported(steps, ms)
    ensures TracesDialogue(steps, ms) <==> forall i :: 0 <= i < |steps| ==> StoredWhole(steps[i], ms[i])
  {
    forall i | 0 <= i < |steps|
      ensures steps[i].call.Some? && (ReplyFrom(steps[i]) == ms[i] <==> StoredWhole(steps[i], ms[i]))
    {
      ReportedWholeIff(steps[i], ms[i]);
    }
  }

  // ---------------------------------------------------------------- the record of the model

  /** The stored model steps, in order. */
  function ModelSteps(steps: seq<AgentStep>): seq<AgentStep> {
    if steps == [] then []
    else
      var last := steps[|steps| - 1];
      ModelSteps(steps[..|steps| - 1]) + if last.kind == ModelStep then [last] else []
  }

  lemma ModelStepsSnoc(steps: seq<AgentStep>, s: AgentStep)
    ensures ModelSteps(steps + [s]) == ModelSteps(steps) + if s.kind == ModelStep then [s] else []
  {
    assert (steps + [s])[..|steps|] == steps;
  }

  /** Model step `i` recounts request `i`, and reply `i` if the model gave one. */
  ghost predicate Recounts(env: Env, i: nat, s: AgentStep, request: ModelRequest, reply: Option<LLMResponse>) {
    && s.completed == reply.Some?
    && s.ask == Some(ModelRecord(i + 1, |request.messages|, env.allowed,
                                 if reply.Some? then Some(RecordOfReply(reply.value)) else None))
  }

  ghost predicate AllRecounted(env: Env, steps: seq<AgentStep>, requests: seq<ModelRequest>, replies: seq<LLMResponse>) {
    && |replies| <= |steps| <= |requests|
    && forall i :: 0 <= i < |steps| ==>
         Recounts(env, i, steps[i], requests[i], if i < |replies| then Some(replies[i]) else None)
  }

  /** The stored model steps recount every request and every reply; while the loop goes on, every
      request has been replied to and recorded. */
  ghost predicate RecordOk(env: Env, st: LoopState) {
    && AllRecounted(env, ModelSteps(st.steps), st.requests, st.replies)
    && |st.requests| == st.iteration
    && (st.exit.None? ==> |st.replies| == |st.requests|)
  }

  lemma StepKeepsRecord(env: Env, st: LoopState)
    requires st.exit.None? && RecordOk(env, st)
    ensures RecordOk(env, Step(env, st))
  {
    hide Recounts, ModelSteps;
    if st.pending != [] {
      CallKeepsRecord(env, st);
    } else if st.iteration < env.maxSteps {
      AskKeepsRecord(env, st);
    }
  }

  lemma CallKeepsRecord(env: Env, st: LoopState)
    requires st.exit.None? && st.pending != [] && RecordOk(env, st)
    ensures RecordOk(env, Call(env, st))
  {
    hide Recounts, ModelSteps, ExecuteTool, Cut;
    var call := st.pending[0];
    var e := Execute(env, |st.invoked|, call);
    if e.Executed? || e.Refused? {
      ModelStepsSnoc(st.steps, ToolStepOf(st.stepNumber + 1, call, e));
      assert Call(env, st).steps == st.steps + [ToolStepOf(st.stepNumber + 1, call, e)];
    }
  }

  lemma AskKeepsRecord(env: Env, st: LoopState)
    requires st.exit.None? && st.pending == [] && RecordOk(env, st)
    ensures RecordOk(env, Ask(env, st))
  {
    hide RecordOk;
    match env.model(|st.requests|, RequestOf(env, st))
    case ModelInterrupted(why) => InterruptedKeepsRecord(env, st, why);
    case ModelRaised(exc) => UnheardKeepsRecord(env, st, exc);
    case Replied(r) =>
      HeardKeepsRecord(env, st, r);
      DecideKeepsRecord(env, Heard(env, Asked(env, st), r), r);
  }

  lemma InterruptedKeepsRecord(env: Env, st: LoopState, why: Interrupt)
    requires st.exit.None? && st.pending == [] && RecordOk(env, st)
    ensures RecordOk(env, Asked(env, st).(exit := Some(Stopped(why))))
  {
    hide Recounts, ModelSteps;
    RequestAdded(env, ModelSteps(st.steps), st.requests, st.replies, RequestOf(env, st));
  }

  lemma UnheardKeepsRecord(env: Env, st: LoopState, exc: Exc)
    requires st.exit.None? && st.pending == [] && RecordOk(env, st)
    ensures RecordOk(env, Unheard(env, Asked(env, st), exc))
  {
    hide AllRecounted, ModelSteps, Cut;
    var s := UnheardStep(env, Asked(env, st), exc);
    ModelStepsSnoc(st.steps, s);
    RecordedAll(env, st);
    StepAdded(env, ModelSteps(st.steps), st.requests, st.replies, s, RequestOf(env, st), None);
    assert st.replies + [] == st.replies;
  }

  lemma HeardKeepsRecord(env: Env, st: LoopState, r: LLMResponse)
    requires st.exit.None? && st.pending == [] && RecordOk(env, st)
    ensures RecordOk(env, Heard(env, Asked(env, st), r))
  {
    hide AllRecounted, ModelSteps;
    var s := HeardStep(env, Asked(env, st), r);
    ModelStepsSnoc(st.steps, s);
    RecordedAll(env, st);
    StepAdded(env, ModelSteps(st.steps), st.requests, st.replies, s, RequestOf(env, st), Some(r));
  }

  lemma RecordedAll(env: Env, st: LoopState)
    requires st.exit.None? && RecordOk(env, st)
    ensures |ModelSteps(st.steps)| == |st.requests| == |st.replies| == st.iteration
  {
  }

  lemma DecideKeepsRecord(env: Env, st: LoopState, r: LLMResponse)
    requires st.exit.None? && RecordOk(env, st)
    ensures RecordOk(env, Decide(env, st, r))
  {
    hide Recounts, ModelSteps, Final, PyText.Strip;
  }

  lemma RequestAdded(env: Env, steps: seq<AgentStep>, requests: seq<ModelRequest>, replies: seq<LLMResponse>,
                     request: ModelRequest)
    requires AllRecounted(env, steps, requests, replies)
    ensures AllRecounted(env, steps, requests + [request], replies)
  {
    hide Recounts;
  }

  lemma StepAdded(env: Env, steps: seq<AgentStep>, requests: seq<ModelRequest>, replies: seq<LLMResponse>,
                  s: AgentStep, request: ModelRequest, reply: Option<LLMResponse>)
    requires AllRecounted(env, steps, requests, replies) && |steps| == |requests| == |replies|
    requires Recounts(env, |steps|, s, request, reply)
    ensures AllRecounted(env, steps + [s], requests + [request],
                         replies + if reply.Some? then [reply.value] else [])
  {
    hide Recounts;
  }

  // ---------------------------------------------------------------- what the model said

  function AssistantMessages(ms: seq<LLMMessage>): seq<LLMMessage> {
    if ms == [] then []
    else
      AssistantMessages(ms[..|ms| - 1]) + if ms[|ms| - 1].role == Assistant then [ms[|ms| - 1]] else []
  }

  /** The replies as they go back into the dialogue. */
  function Spoken(replies: seq<LLMResponse>): seq<LLMMessage> {
    if replies == [] then []
    else
      var last := replies[|replies| - 1];
      Spoken(replies[..|replies| - 1])
      + [LLMMessage(Assistant, last.content, None, None, last.toolCalls, None)]
  }

  /** As long as the loop goes on, the dialogue repeats every reply of the model, in order. */
  ghost predicate SpeechOk(base: seq<LLMMessage>, st: LoopState) {
    base <= st.messages
    && (st.exit.None? ==> AssistantMessages(st.messages[|base|..]) == Spoken(st.replies))
  }

  lemma SpeechSnoc(base: seq<LLMMessage>, ms: seq<LLMMessage>, m: LLMMessage)
    requires base <= ms
    ensures base <= ms + [m]
    ensures AssistantMessages((ms + [m])[|base|..]) ==
            AssistantMessages(ms[|base|..]) + if m.role == Assistant then [m] else []
  {
    var tail := ms[|base|..];
    assert (ms + [m])[|base|..] == tail + [m];
    assert (tail + [m])[..|tail|] == tail;
  }

  lemma StepKeepsSpeech(base: seq<LLMMessage>, env: Env, st: LoopState)
    requires st.exit.None? && SpeechOk(base, st)
    ensures SpeechOk(base, Step(env, st))
  {
    if st.pending != [] {
      CallKeepsSpeech(base, env, st);
    } else if st.iteration < env.maxSteps {
      match env.model(|st.requests|, RequestOf(env, st))
      case Replied(r) => DecideKeepsSpeech(base, env, st.replies, Heard(env, Asked(env, st), r), r);
      case _ =>
    }
  }

  lemma CallKeepsSpeech(base: seq<LLMMessage>, env: Env, st: LoopState)
    requires st.exit.None? && st.pending != [] && SpeechOk(base, st)
    ensures SpeechOk(base, Call(env, st))
  {
    var e := Execute(env, |st.invoked|, st.pending[0]);
    if e.Executed? || e.Refused? {
      var m := ReplyTo(st.pending[0], e);
      SpeechSnoc(base, st.messages, m);
      assert Call(env, st).messages == st.messages + [m];
    }
  }

  lemma DecideKeepsSpeech(base: seq<LLMMessage>, env: Env, before: seq<LLMResponse>, st: LoopState, r: LLMResponse)
    requires st.exit.None? && st.replies == before + [r] && base <= st.messages
    requires AssistantMessages(st.messages[|base|..]) == Spoken(before)
    ensures SpeechOk(base, Decide(env, st, r))
  {
    var m := LLMMessage(Assistant, r.content, None, None, r.toolCalls, None);
    SpeechSnoc(base, st.messages, m);
    assert st.replies[..|st.replies| - 1] == before;
    assert Spoken(st.replies) == Spoken(before) + [m];
    assert Decide(env, st, r).replies == st.replies;
  }

  // ---------------------------------------------------------------- budgets and replies

  /** Both budgets are respected, and every call still to be made is covered. */
  ghost predicate BudgetOk(env: Env, st: LoopState) {
    && st.iteration <= env.maxSteps
    && |st.requests| == st.iteration
    && |st.steps| - CountTools(st.steps) <= st.iteration
    && CountTools(st.steps) <= st.toolCallCount <= env.maxToolCalls
    && (st.exit.None? ==> st.toolCallCount + |st.pending| <= env.maxToolCalls)
  }

  lemma StepKeepsBudget(env: Env, st: LoopState)
    requires st.exit.None? && BudgetOk(env, st)
    ensures BudgetOk(env, Step(env, st))
  {
    if st.pending != [] {
      CallKeepsBudget(env, st);
    } else if st.iteration < env.maxSteps {
      AskKeepsBudget(env, st);
    }
  }

  lemma CallKeepsBudget(env: Env, st: LoopState)
    requires st.exit.None? && st.pending != [] && BudgetOk(env, st)
    ensures BudgetOk(env, Call(env, st))
  {
    var e := Execute(env, |st.invoked|, st.pending[0]);
    if e.Executed? || e.Refused? {
      CountSnoc(st.steps, ToolStepOf(st.stepNumber + 1, st.pending[0], e));
    }
  }

  lemma AskKeepsBudget(env: Env, st: LoopState)
    requires st.exit.None? && st.pending == [] && st.iteration < env.maxSteps && BudgetOk(env, st)
    ensures BudgetOk(env, Ask(env, st))
  {
    match env.model(|st.requests|, RequestOf(env, st))
    case ModelInterrupted(_) =>
    case ModelRaised(exc) => FailedAskKeepsBudget(env, st, exc);
    case Replied(r) =>
      HeardKeepsBudget(env, st, r);
      DecideKeepsBudget(env, Heard(env, Asked(env, st), r), r);
  }

  lemma FailedAskKeepsBudget(env: Env, st: LoopState, exc: Exc)
    requires st.exit.None? && st.pending == [] && st.iteration < env.maxSteps && BudgetOk(env, st)
    ensures BudgetOk(env, Unheard(env, Asked(env, st), exc))
  {
    CountSnoc(st.steps, UnheardStep(env, Asked(env, st), exc));
  }

  lemma HeardKeepsBudget(env: Env, st: LoopState, r: LLMResponse)
    requires st.exit.None? && st.pending == [] && st.iteration < env.maxSteps && BudgetOk(env, st)
    ensures BudgetOk(env, Heard(env, Asked(env, st), r))
  {
    CountSnoc(st.steps, HeardStep(env, Asked(env, st), r));
  }

  lemma DecideKeepsCounts(env: Env, st: LoopState, r: LLMResponse)
    ensures var after := Decide(env, st, r);
            && after.iteration == st.iteration && after.requests == st.requests
            && after.steps == st.steps && after.toolCallCount == st.toolCallCount
            && (after.pending != st.pending ==> st.toolCallCount + |after.pending| <= env.maxToolCalls)
  {
  }

  lemma DecideKeepsBudget(env: Env, st: LoopState, r: LLMResponse)
    requires st.exit.None? && st.pending == [] && BudgetOk(env, st)
    ensures BudgetOk(env, Decide(env, st, r))
  {
    DecideKeepsCounts(env, st, r);
  }

  /** Only the last reply can be without tool calls, and the run is answered exactly when that
      reply is final. */
  ghost predicate RepliesOk(st: LoopState) {
    && (forall i :: 0 <= i < |st.replies| - 1 ==> st.replies[i].toolCalls != [])
    && (st.exit.None? ==> forall i :: 0 <= i < |st.replies| ==> st.replies[i].toolCalls != [])
    && (st.exit.Some? && st.exit.value.Returned? <==>
          st.replies != [] && IsFinal(st.replies[|st.replies| - 1]))
    && st.usage == TotalUsage(st.replies)
  }

  function TotalUsage(replies: seq<LLMResponse>): Option<LLMUsage> {
    if replies == [] then None
    else AddUsage(TotalUsage(replies[..|replies| - 1]), replies[|replies| - 1].usage)
  }

  lemma StepKeepsReplies(env: Env, st: LoopState)
    requires st.exit.None? && RepliesOk(st)
    ensures RepliesOk(Step(env, st))
  {
    if st.pending != [] {
      CallKeepsReplies(env, st);
    } else if st.iteration < env.maxSteps {
      match env.model(|st.requests|, RequestOf(env, st))
      case Replied(r) => DecideKeepsReplies(env, st.replies, Heard(env, Asked(env, st), r), r);
      case _ =>
    }
  }

  lemma CallKeepsReplies(env: Env, st: LoopState)
    requires st.exit.None? && st.pending != [] && RepliesOk(st)
    ensures RepliesOk(Call(env, st))
  {
  }

  lemma DecideKeepsReplies(env: Env, before: seq<LLMResponse>, st: LoopState, r: LLMResponse)
    requires st.exit.None? && st.replies == before + [r]
    requires forall i :: 0 <= i < |before| ==> before[i].toolCalls != []
    requires st.usage == AddUsage(TotalUsage(before), r.usage)
    ensures RepliesOk(Decide(env, st, r))
  {
    hide Decide, AddUsage, IsFinal;
    DecideReturns(env, st, r);
    var all := st.replies;
    assert all[..|all| - 1] == before && all[|all| - 1] == r;
    assert TotalUsage(all) == AddUsage(TotalUsage(before), r.usage);
  }

  lemma DecideReturns(env: Env, st: LoopState, r: LLMResponse)
    requires st.exit.None?
    ensures var after := Decide(env, st, r);
            && after.replies == st.replies && after.usage == st.usage
            && (after.exit.Some? && after.exit.value.Returned? <==> IsFinal(r))
            && (after.exit.None? ==> r.toolCalls != [])
  {
    hide Final, PyText.Strip;
  }

  /** No tool runs outside the allow-list, whatever the model asks for, and no other tool is
      ever offered to it. */
  ghost predicate AuthorityOk(env: Env, st: LoopState) {
    && (forall i :: 0 <= i < |st.invoked| ==> Reaches(env, st.invoked[i]))
    && (forall i :: 0 <= i < |st.requests| ==>
          && st.requests[i].tools == Definitions(env.registry, env.allowed)
          && st.requests[i].toolChoice == if |st.requests[i].tools| == 0 then None else Some("auto"))
  }

  lemma StepKeepsAuthority(env: Env, st: LoopState)
    requires st.exit.None? && AuthorityOk(env, st)
    ensures AuthorityOk(env, Step(env, st))
  {
    if st.pending != [] {
      CallKeepsAuthority(env, st);
    } else if st.iteration < env.maxSteps {
      AskKeepsAuthority(env, st);
    }
  }

  lemma CallKeepsAuthority(env: Env, st: LoopState)
    requires st.exit.None? && st.pending != [] && AuthorityOk(env, st)
    ensures AuthorityOk(env, Call(env, st))
  {
    assert Call(env, st).requests == st.requests;
  }

  lemma AskKeepsAuthority(env: Env, st: LoopState)
    requires st.exit.None? && st.pending == [] && AuthorityOk(env, st)
    ensures AuthorityOk(env, Ask(env, st))
  {
    assert AuthorityOk(env, Asked(env, st));
    assert Ask(env, st).requests == Asked(env, st).requests && Ask(env, st).invoked == st.invoked;
  }

  /** The offered tools are the registered and allowed ones, each as often as it is registered. */
  lemma {:induction false} DefinitionsAreAllowed(registry: seq<string>, allowed: set<string>)
    ensures forall t :: t in Definitions(registry, allowed) <==> t in registry && t in allowed
    ensures forall t :: t in allowed ==> multiset(Definitions(registry, allowed))[t] == multiset(registry)[t]
  {
    if registry != [] {
      DefinitionsAreAllowed(registry[1..], allowed);
      assert registry == [registry[0]] + registry[1..];
    }
  }

  /** They keep the order of the registry. */
  lemma {:induction false} DefinitionsKeepOrder(a: seq<string>, b: seq<string>, allowed: set<string>)
    ensures Definitions(a + b, allowed) == Definitions(a, allowed) + Definitions(b, allowed)
  {
    if a == [] {
      assert a + b == b;
    } else {
      assert (a + b)[0] == a[0] && (a + b)[1..] == a[1..] + b;
      DefinitionsKeepOrder(a[1..], b, allowed);
      Associates(if a[0] in allowed then [a[0]] else [], Definitions(a[1..], allowed), Definitions(b, allowed));
    }
  }

  // ---------------------------------------------------------------- every point of every run

  ghost predicate Inv(base: seq<LLMMessage>, env: Env, st: LoopState) {
    && TraceOk(st) && ProtocolOk(base, st) && SpeechOk(base, st)
    && RecordOk(env, st) && BudgetOk(env, st) && RepliesOk(st) && AuthorityOk(env, st)
  }

  lemma StepKeepsInv(base: seq<LLMMessage>, env: Env, st: LoopState)
    requires st.exit.None? && Inv(base, env, st)
    ensures Inv(base, env, Step(env, st))
  {
    StepKeepsTrace(env, st);
    StepKeepsBudget(env, st);
    StepKeepsReplies(env, st);
    StepKeepsAuthority(env, st);
    StepKeepsProtocol(base, env, st);
    StepKeepsSpeech(base, env, st);
    StepKeepsRecord(env, st);
  }

  lemma StepKeepsProtocol(base: seq<LLMMessage>, env: Env, st: LoopState)
    requires st.exit.None? && ProtocolOk(base, st)
    ensures ProtocolOk(base, Step(env, st))
  {
    if st.pending != [] {
      CallKeepsProtocol(base, env, st);
    } else if st.iteration < env.maxSteps {
      AskKeepsProtocol(base, env, st);
    }
  }

  lemma StartInv(env: Env, ms: seq<LLMMessage>)
    ensures Inv(WithInstructions(env.instructions, ms), env, Start(env, ms))
  {
    var base := WithInstructions(env.instructions, ms);
    assert base[|base|..] == [];
  }

  /** The state after `n` awaited calls, or the last one when the loop ends earlier. */
  ghost function StateAt(env: Env, ms: seq<LLMMessage>, n: nat): LoopState {
    if n == 0 then Start(env, ms) else Advance(env, StateAt(env, ms, n - 1))
  }

  function Advance(env: Env, st: LoopState): LoopState {
    if st.exit.Some? then st else Step(env, st)
  }

  /** The invariant holds at every point of every run. */
  lemma {:induction false} EveryPoint(env: Env, ms: seq<LLMMessage>, n: nat)
    ensures Inv(WithInstructions(env.instructions, ms), env, StateAt(env, ms, n))
  {
    hide Inv, Start, Step;
    if n == 0 {
      StartInv(env, ms);
    } else {
      EveryPoint(env, ms, n - 1);
      var st := StateAt(env, ms, n - 1);
      if st.exit.None? {
        StepKeepsInv(WithInstructions(env.instructions, ms), env, st);
      }
    }
  }

  /** At every point the stored steps are numbered without gaps from 1, begin with the model, and
      the stored counters are exact. */
  lemma TraceAtEveryPoint(env: Env, ms: seq<LLMMessage>, n: nat)
    ensures var st := StateAt(env, ms, n);
            && (forall i :: 0 <= i < |st.steps| ==> st.steps[i].number == i + 1)
            && (st.steps != [] ==> st.steps[0].kind == ModelStep)
            && st.run.stepCount == |st.steps|
            && st.run.toolCallCount == CountTools(st.steps)
  {
    EveryPoint(env, ms, n);
  }

  lemma SpokenReply(base: seq<LLMMessage>, q: seq<LLMMessage>, i: nat, j: nat)
    requires Speaks(base, q, [])
    requires |base| <= i < |q| && q[i].role == Assistant && j < |q[i].toolCalls|
    ensures i + 1 + j < |q| && Answers(q[i + 1 + j], q[i].toolCalls[j])
  {
    var tail := q[|base|..];
    assert tail[i - |base|] == q[i];
    RepliesFollowCalls([], tail, i - |base|, j);
    assert tail[i - |base| + 1 + j] == q[i + 1 + j];
  }

  /** The messages are the original dialogue with one agent instruction behind its leading system
      block, then assistant messages with calls, each followed by one reply per call, in order. */
  ghost predicate WellFormedDialogue(base: seq<LLMMessage>, q: seq<LLMMessage>) {
    && base <= q
    && Owed([], q[|base|..]) == Some([])
    && forall i, j :: |base| <= i < |q| && 0 <= j < |q[i].toolCalls| ==> IsAnswered(q, i, j)
  }

  /** Call j of an assistant message at position i is answered j places behind it. */
  ghost predicate IsAnswered(q: seq<LLMMessage>, i: nat, j: nat)
    requires i < |q| && j < |q[i].toolCalls|
  {
    q[i].role == Assistant ==> i + 1 + j < |q| && Answers(q[i + 1 + j], q[i].toolCalls[j])
  }

  /** Every request that is ever sent to the model is such a dialogue. */
  lemma EveryRequestIsWellFormed(env: Env, ms: seq<LLMMessage>, n: nat, k: nat)
    requires k < |StateAt(env, ms, n).requests|
    ensures WellFormedDialogue(WithInstructions(env.instructions, ms), StateAt(env, ms, n).requests[k].messages)
  {
    EveryPoint(env, ms, n);
    var base, q := WithInstructions(env.instructions, ms), StateAt(env, ms, n).requests[k].messages;
    assert Speaks(base, q, []);
    SpokenDialogue(base, q);
  }

  lemma SpokenDialogue(base: seq<LLMMessage>, q: seq<LLMMessage>)
    requires Speaks(base, q, [])
    ensures WellFormedDialogue(base, q)
  {
    forall i, j | |base| <= i < |q| && 0 <= j < |q[i].toolCalls| ensures IsAnswered(q, i, j) {
      if q[i].role == Assistant {
        SpokenReply(base, q, i, j);
      }
    }
  }

  lemma Inserted<T>(s: seq<T>, n: nat, x: T)
    requires n <= |s|
    ensures var r := s[..n] + [x] + s[n..];
            && |r| == |s| + 1 && r[n] == x && r[..n] + r[n + 1..] == s
            && (forall i :: 0 <= i < n ==> r[i] == s[i])
            && (n < |s| ==> r[n + 1] == s[n])
  {
    var r := s[..n] + [x] + s[n..];
    assert r[..n] == s[..n] && r[n + 1..] == s[n..];
  }

  /** The instruction is inserted once, behind the leading system messages, and nothing is lost. */
  lemma InstructionsKeepDialogue(instructions: string, ms: seq<LLMMessage>)
    ensures var n := LeadingSystem(ms);
            var r := WithInstructions(instructions, ms);
            && |r| == |ms| + 1
            && r[n] == PlainMessage(System, instructions)
            && r[..n] + r[n + 1..] == ms
            && (forall i :: 0 <= i <= n ==> r[i].role == System)
            && (n + 1 < |r| ==> r[n + 1].role != System)
  {
    var n := LeadingSystem(ms);
    Inserted(ms, n, PlainMessage(System, instructions));
  }

  /** The loop ends within its budgets: at most `maxSteps` model steps and `maxToolCalls` tool
      steps, and within one more machine step than there can be awaited calls. */
  lemma {:induction false} EndsWithinBudget(env: Env, ms: seq<LLMMessage>, n: nat)
    requires n == env.maxSteps + env.maxToolCalls + 1
    ensures StateAt(env, ms, n).exit.Some?
    ensures var st := StateAt(env, ms, n);
            && |st.steps| - CountTools(st.steps) <= env.maxSteps
            && CountTools(st.steps) <= env.maxToolCalls
            && |st.requests| <= env.maxSteps
  {
    EveryPoint(env, ms, n);
    if StateAt(env, ms, n).exit.None? {
      Progress(env, ms, n);
    }
  }

  /** Without an exit, every machine step so far asked the model once or made one call. */
  lemma {:induction false} Progress(env: Env, ms: seq<LLMMessage>, n: nat)
    requires StateAt(env, ms, n).exit.None?
    ensures StateAt(env, ms, n).iteration + StateAt(env, ms, n).toolCallCount == n
  {
    if n > 0 {
      Progress(env, ms, n - 1);
      StepProgress(env, StateAt(env, ms, n - 1));
    }
  }

  lemma StepProgress(env: Env, st: LoopState)
    requires st.exit.None? && Step(env, st).exit.None?
    ensures Step(env, st).iteration + Step(env, st).toolCallCount == st.iteration + st.toolCallCount + 1
  {
    if st.pending != [] {
      CallCounts(env, st);
    } else {
      AskCounts(env, st);
    }
  }

  lemma FinishStep(env: Env, st: LoopState)
    requires st.iteration <= env.maxSteps
    ensures Advance(env, st).iteration <= env.maxSteps
    ensures Finish(env, st) == Finish(env, Advance(env, st))
  {
    if st.exit.None? {
      StepShrinks(env, st);
    }
  }

  /** `Finish` is where the machine stops. */
  lemma {:induction false} FinishIsReached(env: Env, ms: seq<LLMMessage>, n: nat)
    ensures StateAt(env, ms, n).iteration <= env.maxSteps
    ensures Finish(env, StateAt(env, ms, n)) == Finish(env, Start(env, ms))
  {
    if n > 0 {
      FinishIsReached(env, ms, n - 1);
      FinishAfter(env, ms, n);
    }
  }

  lemma FinishAfter(env: Env, ms: seq<LLMMessage>, n: nat)
    requires n > 0 && StateAt(env, ms, n - 1).iteration <= env.maxSteps
    ensures StateAt(env, ms, n).iteration <= env.maxSteps
    ensures Finish(env, StateAt(env, ms, n)) == Finish(env, StateAt(env, ms, n - 1))
  {
    FinishStep(env, StateAt(env, ms, n - 1));
    assert StateAt(env, ms, n) == Advance(env, StateAt(env, ms, n - 1));
  }

  /** What the invariant says about a loop that was left. */
  lemma ExitFacts(base: seq<LLMMessage>, env: Env, end: LoopState)
    requires Inv(base, env, end) && end.exit.Some?
    ensures var run := Closed(end.run, end.exit.value);
            && run.status != Running
            && (run.status == Completed <==> end.replies != [] && IsFinal(end.replies[|end.replies| - 1]))
            && (forall i :: 0 <= i < |end.replies| - 1 ==> !IsFinal(end.replies[i]))
            && (run.status == Completed <==> end.exit.value.Returned?)
            && (run.status == Cancelled <==> end.exit.value == Stopped(RunCancelled))
            && run.stepCount == |end.steps| && run.toolCallCount == CountTools(end.steps)
  {
  }

  lemma EndInv(env: Env, ms: seq<LLMMessage>)
    ensures Inv(WithInstructions(env.instructions, ms), env, Finish(env, Start(env, ms)))
  {
    var n := env.maxSteps + env.maxToolCalls + 1;
    EndsWithinBudget(env, ms, n);
    EveryPoint(env, ms, n);
    FinishIsReached(env, ms, n);
  }

  /** A run ends "completed" exactly when the last reply of the model has no tool calls and is
      not blank, and then it returns that reply; it is "running" at every point before. */
  lemma CompletedIffFinalReply(env: Env, ms: seq<LLMMessage>, n: nat)
    ensures var end := Finish(env, Start(env, ms));
            var run := Closed(end.run, end.exit.value);
            && run.status != Running
            && (run.status == Completed <==> end.replies != [] && IsFinal(end.replies[|end.replies| - 1]))
            && (forall i :: 0 <= i < |end.replies| - 1 ==> !IsFinal(end.replies[i]))
            && (run.status == Completed <==> end.exit.value.Returned?)
            && (run.status == Cancelled <==> end.exit.value == Stopped(RunCancelled))
            && run.stepCount == |end.steps| && run.toolCallCount == CountTools(end.steps)
    ensures StateAt(env, ms, n).exit.None? ==> StateAt(env, ms, n).run.status == Running
  {
    EndInv(env, ms);
    ExitFacts(WithInstructions(env.instructions, ms), env, Finish(env, Start(env, ms)));
    EveryPoint(env, ms, n);
  }

  /** The answer is the last reply, but for its usage, which is that of all replies, and for four
      entries of its metadata: the run, the stored counters and the mode of execution. */
  ghost predicate AnswerFits(env: Env, st: LoopState, answer: LLMResponse) {
    && st.replies != []
    && answer.(usage := None, metadata := map[]) == st.replies[|st.replies| - 1].(usage := None, metadata := map[])
    && answer.usage == TotalUsage(st.replies)
    && TellsRun(st.replies[|st.replies| - 1].metadata, answer.metadata, env.runId, |st.steps|, CountTools(st.steps))
  }

  ghost predicate TellsRun(before: Metadata, after: Metadata, runId: string, steps: nat, toolCalls: nat) {
    && "agent_run_id" in after && after["agent_run_id"] == Text(runId)
    && "agent_step_count" in after && after["agent_step_count"] == Number(steps)
    && "agent_tool_call_count" in after && after["agent_tool_call_count"] == Number(toolCalls)
    && "execution_mode" in after && after["execution_mode"] == Text("agent")
    && forall key :: key !in {"agent_run_id", "agent_step_count", "agent_tool_call_count", "execution_mode"} ==>
         && (key in after <==> key in before)
         && (key in after ==> after[key] == before[key])
  }

  lemma CounterMetadata(m: Metadata, runId: string, k: nat, n: nat)
    ensures TellsRun(m, m + map["agent_run_id" := Text(runId), "agent_step_count" := Number(k),
                                "agent_tool_call_count" := Number(n), "execution_mode" := Text("agent")], runId, k, n)
  {
    assert |"agent_step_count"| == 16 && |"agent_tool_call_count"| == 21
        && |"execution_mode"| == 14 && |"agent_run_id"| == 12;
  }

  lemma DecidedAnswerFits(env: Env, st: LoopState, r: LLMResponse)
    requires st.exit.None? && TraceOk(st) && r.toolCalls == [] && PyText.Strip(r.content) != ""
    requires st.replies != [] && st.replies[|st.replies| - 1] == r && st.usage == TotalUsage(st.replies)
    ensures AnswerFits(env, Decide(env, st, r), Decide(env, st, r).exit.value.response)
  {
    CounterMetadata(r.metadata, env.runId, st.stepNumber, st.toolCallCount);
    hide TellsRun;
  }

  /** When the machine returns, it returns a fitting answer. */
  lemma AnswerMatchesTrace(base: seq<LLMMessage>, env: Env, st: LoopState)
    requires st.exit.None? && Inv(base, env, st)
    requires Step(env, st).exit.Some? && Step(env, st).exit.value.Returned?
    ensures AnswerFits(env, Step(env, st), Step(env, st).exit.value.response)
  {
    hide ProtocolOk, SpeechOk, RecordOk, BudgetOk, AuthorityOk, TotalUsage, Step, AnswerFits, Decide;
    ReturningStep(env, st);
    var r := env.model(|st.requests|, RequestOf(env, st)).response;
    HeardKeepsTrace(env, Asked(env, st), r);
    HeardReplies(env, st, r);
    DecidedAnswerFits(env, Heard(env, Asked(env, st), r), r);
  }

  /** Only the decision on a reply returns an answer. */
  lemma ReturningStep(env: Env, st: LoopState)
    requires st.exit.None?
    requires Step(env, st).exit.Some? && Step(env, st).exit.value.Returned?
    ensures var reply := env.model(|st.requests|, RequestOf(env, st));
            && st.pending == [] && reply.Replied? && IsFinal(reply.response)
            && Step(env, st) == Decide(env, Heard(env, Asked(env, st), reply.response), reply.response)
  {
    hide HeardStep, AddUsage, Counted, RequestOf, ToolStepOf, ReplyTo, Execute, PyText.Strip, Final;
  }

  lemma HeardReplies(env: Env, st: LoopState, r: LLMResponse)
    requires st.usage == TotalUsage(st.replies)
    ensures var heard := Heard(env, Asked(env, st), r);
            && heard.replies != [] && heard.replies[|heard.replies| - 1] == r
            && heard.usage == TotalUsage(heard.replies)
  {
    var heard := Heard(env, Asked(env, st), r);
    assert heard.replies[..|heard.replies| - 1] == st.replies;
  }

  /** If the run is answered, the answer fits. */
  ghost predicate AnswerOk(env: Env, st: LoopState) {
    st.exit.Some? && st.exit.value.Returned? ==> AnswerFits(env, st, st.exit.value.response)
  }

  lemma {:induction false} AnswerAt(env: Env, ms: seq<LLMMessage>, n: nat)
    ensures AnswerOk(env, StateAt(env, ms, n))
  {
    hide Inv, AnswerOk, Advance, Start;
    if n == 0 {
      StartUnanswered(env, ms);
    } else {
      AnswerAt(env, ms, n - 1);
      EveryPoint(env, ms, n - 1);
      AnswerStep(WithInstructions(env.instructions, ms), env, StateAt(env, ms, n - 1));
    }
  }

  lemma StartUnanswered(env: Env, ms: seq<LLMMessage>)
    ensures AnswerOk(env, Start(env, ms))
  {
  }

  lemma AnswerStep(base: seq<LLMMessage>, env: Env, st: LoopState)
    requires Inv(base, env, st) && AnswerOk(env, st)
    ensures AnswerOk(env, Advance(env, st))
  {
    hide Inv, AnswerFits, Step;
    if st.exit.None? && Step(env, st).exit.Some? && Step(env, st).exit.value.Returned? {
      AnswerMatchesTrace(base, env, st);
    }
  }

  /** What a run returns is the last reply, with the usage of all of them and the counters that are
      stored. */
  lemma AnswerOfRun(env: Env, ms: seq<LLMMessage>)
    ensures var end := Finish(env, Start(env, ms));
            end.exit.value.Returned? ==> AnswerFits(env, end, end.exit.value.response)
  {
    hide StateAt, Start, AnswerFits;
    var n := env.maxSteps + env.maxToolCalls + 1;
    EndsWithinBudget(env, ms, n);
    FinishIsReached(env, ms, n);
    AnswerAt(env, ms, n);
  }

  // ---------------------------------------------------------------- token usage

  function Value(tokens: Option<nat>): nat {
    if tokens.Some? then tokens.value else 0
  }

  function InputOf(usage: Option<LLMUsage>): Option<nat> {
    if usage.Some? then usage.value.inputTokens else None
  }

  function OutputOf(usage: Option<LLMUsage>): Option<nat> {
    if usage.Some? then usage.value.outputTokens else None
  }

  function TotalOf(usage: Option<LLMUsage>): Option<nat> {
    if usage.Some? then usage.value.totalTokens else None
  }

  function SumOf(replies: seq<LLMResponse>, count: Option<LLMUsage> -> Option<nat>): nat {
    if replies == [] then 0
    else SumOf(replies[..|replies| - 1], count) + Value(count(replies[|replies| - 1].usage))
  }

  /** The accumulated count is the sum of those reported, and absent only when none was. */
  ghost predicate IsSum(replies: seq<LLMResponse>, count: Option<LLMUsage> -> Option<nat>) {
    && Value(count(TotalUsage(replies))) == SumOf(replies, count)
    && (count(TotalUsage(replies)).None? <==>
          forall i :: 0 <= i < |replies| ==> count(replies[i].usage).None?)
  }

  /** Input tokens and output tokens are summed over all replies. */
  lemma {:induction false} TokensAreSummed(replies: seq<LLMResponse>)
    ensures IsSum(replies, InputOf) && IsSum(replies, OutputOf)
  {
    if replies != [] {
      var before, last := replies[..|replies| - 1], replies[|replies| - 1];
      TokensAreSummed(before);
      assert forall i :: 0 <= i < |before| ==> before[i] == replies[i];
      assert TotalUsage(replies) == AddUsage(TotalUsage(before), last.usage);
    }
  }

  function TokensOf(usage: Option<LLMUsage>): nat {
    Value(InputOf(usage)) + Value(OutputOf(usage))
  }

  /** Whoever reports a total reports the sum of input and output. */
  predicate Honest(replies: seq<LLMResponse>) {
    forall i :: 0 <= i < |replies| ==>
      TotalOf(replies[i].usage).Some? ==> TotalOf(replies[i].usage).value == TokensOf(replies[i].usage)
  }

  ghost predicate Reported(replies: seq<LLMResponse>, count: Option<LLMUsage> -> Option<nat>) {
    exists i :: 0 <= i < |replies| && count(replies[i].usage).Some?
  }

  /** How many replies report any usage. */
  function Reporting(replies: seq<LLMResponse>): nat {
    if replies == [] then 0
    else Reporting(replies[..|replies| - 1]) + if replies[|replies| - 1].usage.Some? then 1 else 0
  }

  /** These replies give an accumulated total: one of them reports a total, or two of them report
      usage and between them both input and output. */
  ghost predicate Known(replies: seq<LLMResponse>) {
    || Reported(replies, TotalOf)
    || (Reporting(replies) >= 2 && Reported(replies, InputOf) && Reported(replies, OutputOf))
  }

  function SumOfTokens(replies: seq<LLMResponse>): nat {
    SumOf(replies, InputOf) + SumOf(replies, OutputOf)
  }

  /** No tokens of reply `i` escape the total: it reports its own total, or there is none yet to
      add to, or it has no tokens; and when its total is the first known one, no tokens came before. */
  ghost predicate SeenAt(replies: seq<LLMResponse>, i: nat)
    requires i < |replies|
  {
    if TotalOf(replies[i].usage).None? then Known(replies[..i]) ==> TokensOf(replies[i].usage) == 0
    else !Known(replies[..i]) ==> SumOfTokens(replies[..i]) == 0
  }

  ghost predicate AllSeen(replies: seq<LLMResponse>) {
    forall i :: 0 <= i < |replies| ==> SeenAt(replies, i)
  }

  /** The tokens that the accumulated total does not see: those of a reply that leaves out its
      total when one is known already, and all earlier ones when the first known total is reported. */
  ghost function Unseen(replies: seq<LLMResponse>): nat {
    if replies == [] then 0
    else
      var before, last := replies[..|replies| - 1], replies[|replies| - 1];
      if TotalOf(last.usage).None? then
        if Known(before) then Unseen(before) + TokensOf(last.usage) else 0
      else if Known(before) then Unseen(before)
      else SumOfTokens(before)
  }

  lemma ReportedSnoc(before: seq<LLMResponse>, last: LLMResponse, count: Option<LLMUsage> -> Option<nat>)
    ensures Reported(before + [last], count) <==> Reported(before, count) || count(last.usage).Some?
  {
    var all := before + [last];
    if i :| 0 <= i < |before| && count(before[i].usage).Some? {
      assert count(all[i].usage).Some?;
    }
    if count(last.usage).Some? {
      assert count(all[|before|].usage).Some?;
    }
  }

  lemma ReportingSnoc(before: seq<LLMResponse>, last: LLMResponse)
    ensures Reporting(before + [last]) == Reporting(before) + if last.usage.Some? then 1 else 0
  {
    assert (before + [last])[..|before|] == before;
  }

  lemma TotalUsageSnoc(before: seq<LLMResponse>, last: LLMResponse)
    ensures TotalUsage(before + [last]) == AddUsage(TotalUsage(before), last.usage)
  {
    assert (before + [last])[..|before|] == before;
  }

  lemma SplitLast(replies: seq<LLMResponse>) returns (before: seq<LLMResponse>, last: LLMResponse)
    requires replies != []
    ensures before == replies[..|replies| - 1] && last == replies[|replies| - 1] && replies == before + [last]
  {
    before, last := replies[..|replies| - 1], replies[|replies| - 1];
  }

  /** What the accumulated usage has is what was reported. */
  lemma {:induction false} UsageHasReported(replies: seq<LLMResponse>)
    ensures InputOf(TotalUsage(replies)).Some? <==> Reported(replies, InputOf)
    ensures OutputOf(TotalUsage(replies)).Some? <==> Reported(replies, OutputOf)
    ensures TotalUsage(replies).Some? <==> Reporting(replies) > 0
  {
    if replies != [] {
      var before, last := SplitLast(replies);
      UsageHasReported(before);
      TotalUsageSnoc(before, last);
      ReportedSnoc(before, last, InputOf);
      ReportedSnoc(before, last, OutputOf);
      ReportingSnoc(before, last);
    }
  }

  /** Exactly when there is an accumulated total. */
  lemma {:induction false} TotalKnownIff(replies: seq<LLMResponse>)
    ensures TotalOf(TotalUsage(replies)).Some? <==> Known(replies)
  {
    if replies != [] {
      var before, last := SplitLast(replies);
      TotalKnownIff(before);
      UsageHasReported(before);
      UsageHasReported(replies);
      TotalUsageSnoc(before, last);
      ReportedSnoc(before, last, TotalOf);
      ReportingSnoc(before, last);
      AddedTotal(TotalUsage(before), last.usage);
      ReportedSnoc(before, last, InputOf);
      ReportedSnoc(before, last, OutputOf);
    }
  }

  lemma AddedTotal(current: Option<LLMUsage>, incoming: Option<LLMUsage>)
    ensures var r := AddUsage(current, incoming);
            TotalOf(r).Some? <==>
              || TotalOf(current).Some? || TotalOf(incoming).Some?
              || (current.Some? && incoming.Some? && InputOf(r).Some? && OutputOf(r).Some?)
  {
  }

  lemma AddedTokens(current: Option<LLMUsage>, incoming: Option<LLMUsage>)
    ensures var r := AddUsage(current, incoming);
            && TokensOf(r) == TokensOf(current) + TokensOf(incoming)
            && (TotalOf(r).Some? ==>
                  TotalOf(r).value ==
                  if TotalOf(incoming).Some? then Value(TotalOf(current)) + TotalOf(incoming).value
                  else if TotalOf(current).Some? then TotalOf(current).value
                  else TokensOf(r))
  {
  }

  /** The accumulated total never overstates: with what went unseen it is input plus output. */
  lemma {:induction false} TotalMissesUnseen(replies: seq<LLMResponse>)
    requires Honest(replies)
    ensures Known(replies) ==>
              TotalOf(TotalUsage(replies)).Some?
              && TotalOf(TotalUsage(replies)).value + Unseen(replies) == SumOfTokens(replies)
  {
    TotalKnownIff(replies);
    TokensAreSummed(replies);
    if replies != [] {
      var before, last := SplitLast(replies);
      assert forall i :: 0 <= i < |before| ==> before[i] == replies[i];
      TotalMissesUnseen(before);
      TotalKnownIff(before);
      TokensAreSummed(before);
      TotalUsageSnoc(before, last);
      AddedTokens(TotalUsage(before), last.usage);
    }
  }

  /** What the accumulated total is, whatever is reported: the sum of the totals reported and, if the
      reply that first makes it known reports none itself, all input and output up to that reply. */
  lemma {:induction false} TotalIsReportedPlusInferred(replies: seq<LLMResponse>, j: nat)
    requires j < |replies| && !Known(replies[..j]) && Known(replies[..j + 1])
    ensures TotalOf(TotalUsage(replies)) ==
            Some(SumOf(replies, TotalOf)
                 + if TotalOf(replies[j].usage).None? then SumOfTokens(replies[..j + 1]) else 0)
    decreases |replies|
  {
    hide Known, TotalUsage, AddUsage, Reported;
    var before, last := SplitLast(replies);
    TotalUsageSnoc(before, last);
    TotalKnownIff(before);
    TotalKnownIff(replies);
    AddedTokens(TotalUsage(before), last.usage);
    if j == |before| {
      assert replies[..j] == before && replies[..j + 1] == replies;
      NothingReported(before);
      TotalIsAllTokens(replies);
    } else {
      assert before[..j] == replies[..j] && before[..j + 1] == replies[..j + 1];
      KnownGrows(replies, j + 1);
      TotalIsReportedPlusInferred(before, j);
    }
  }

  lemma TotalIsAllTokens(replies: seq<LLMResponse>)
    ensures TokensOf(TotalUsage(replies)) == SumOfTokens(replies)
  {
    TokensAreSummed(replies);
  }

  lemma {:induction false} NothingReported(replies: seq<LLMResponse>)
    requires !Known(replies)
    ensures SumOf(replies, TotalOf) == 0
  {
    NoneReported(replies);
  }

  lemma {:induction false} NoneReported(replies: seq<LLMResponse>)
    requires !Reported(replies, TotalOf)
    ensures SumOf(replies, TotalOf) == 0
  {
    if replies != [] {
      var before, last := SplitLast(replies);
      ReportedSnoc(before, last, TotalOf);
      NoneReported(before);
    }
  }

  lemma NothingKnown(replies: seq<LLMResponse>)
    requires !Known(replies)
    ensures AllSeen(replies)
  {
    forall i | 0 <= i < |replies| ensures SeenAt(replies, i) {
      assert TotalOf(replies[i].usage).None?;
      if Known(replies[..i]) {
        KnownGrows(replies, i);
      }
    }
  }

  lemma {:induction false} KnownGrows(replies: seq<LLMResponse>, i: nat)
    requires i <= |replies| && Known(replies[..i])
    ensures Known(replies)
    decreases |replies|
  {
    if i == |replies| {
      assert replies[..i] == replies;
    } else {
      var before, last := SplitLast(replies);
      assert before[..i] == replies[..i];
      KnownGrows(before, i);
      ReportedSnoc(before, last, TotalOf);
      ReportedSnoc(before, last, InputOf);
      ReportedSnoc(before, last, OutputOf);
      ReportingSnoc(before, last);
    }
  }

  lemma {:induction false} UnseenIff(replies: seq<LLMResponse>)
    ensures Unseen(replies) == 0 <==> AllSeen(replies)
  {
    if replies != [] {
      var before, last := SplitLast(replies);
      UnseenIff(before);
      AllSeenSnoc(before, last);
      if !Known(before) {
        NothingKnown(before);
      }
    }
  }

  lemma AllSeenSnoc(before: seq<LLMResponse>, last: LLMResponse)
    ensures AllSeen(before + [last]) <==> AllSeen(before) && SeenAt(before + [last], |before|)
    ensures (before + [last])[..|before|] == before
  {
    var all := before + [last];
    forall i | 0 <= i < |before| ensures SeenAt(all, i) <==> SeenAt(before, i) {
      assert all[..i] == before[..i];
    }
  }

  /** Exactly when the accumulated total is the sum of input and output, in terms of what was reported. */
  lemma TotalIsSumIff(replies: seq<LLMResponse>)
    requires Honest(replies)
    ensures TotalOf(TotalUsage(replies)) == Some(SumOfTokens(replies)) <==> Known(replies) && AllSeen(replies)
  {
    TotalKnownIff(replies);
    TotalMissesUnseen(replies);
    UnseenIff(replies);
  }

  /** One reply that leaves out its total: there is no accumulated total. */
  lemma TotalCanBeAbsent(r: LLMResponse)
    requires r.usage == Some(LLMUsage(Some(1), Some(1), None))
    ensures Honest([r]) && SumOfTokens([r]) == 2 && TotalOf(TotalUsage([r])) == None
  {
    assert [r][..0] == [];
    TokensAreSummed([r]);
    assert TotalUsage([r]) == r.usage;
  }

  /** Three replies that leave out their total: the accumulated total misses the third. */
  lemma TotalCanFallShort(r: LLMResponse)
    requires r.usage == Some(LLMUsage(Some(1), Some(1), None))
    ensures TotalUsage([r, r, r]) == Some(LLMUsage(Some(3), Some(3), Some(4)))
  {
    var one, two := [r], [r, r];
    assert one[..0] == [] && two[..1] == one && [r, r, r][..2] == two;
    assert TotalUsage(one) == r.usage;
    assert TotalUsage(two) == Some(LLMUsage(Some(2), Some(2), Some(4)));
  }
}
