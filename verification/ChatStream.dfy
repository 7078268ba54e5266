/** The streaming half of a chat exchange (backend/app/domains/chat/service.py) and the slicing
    of a finished agent answer into stream chunks (backend/app/agents/service.py). */
module ChatStream {
  import opened Common
  import opened Llm
  import ChatExchange
  import Sse

  /** What one wait for the provider brings: nothing before the heartbeat interval is over, a
      chunk, the end of the answer, an exception (with its code when it is an application
      error), or the cancellation of the request. */
  datatype Tick =
    | Timeout
    | Arrived(chunk: LLMChunk)
    | Finished
    | Raised(code: Option<string>)
    | Cancelled

  datatype StreamEvent =
    | MessageCreated
    | Heartbeat
    | Delta(text: string)
    | MessageCompleted(text: string)
    | StreamError(code: string)

  /** The finalizing transaction that a stream ends with; an abandoned stream has none. */
  datatype Finalization =
    | Nothing
    | Success(content: string, providerId: Option<string>, usage: Option<LLMUsage>, metadata: Metadata)
    | Failure(partial: string, code: string)

  const INTERNAL_ERROR := "INTERNAL_ERROR"
  const CHAT_MESSAGE_FAILED := "CHAT_MESSAGE_FAILED"

  /** What the prepare step fixed for this exchange. */
  datatype Prepared = Prepared(provider: string, model: Option<string>)

  // ---------------------------------------------------------------- accumulated answer

  datatype Answer = Answer(
    parts: seq<string>,
    providerId: Option<string>,
    finishReason: Option<string>,
    usage: Option<LLMUsage>,
    metadata: Metadata)

  const NO_ANSWER := Answer([], None, None, None, map[])

  function Concat(parts: seq<string>): string {
    if parts == [] then "" else Concat(parts[..|parts| - 1]) + parts[|parts| - 1]
  }

  /** `latest or previous` on optional text: absent and empty text count as false. */
  function Or(latest: Option<string>, previous: Option<string>): Option<string> {
    if latest.Some? && latest.value != "" then latest else previous
  }

  function Absorb(a: Answer, c: LLMChunk): Answer {
    Answer(
      if c.content == "" then a.parts else a.parts + [c.content],
      Or(c.providerResponseId, a.providerId),
      Or(c.finishReason, a.finishReason),
      if c.usage.Some? then c.usage else a.usage,
      a.metadata + c.metadata)
  }

  function OptionalText(t: Option<string>): Json {
    match t
    case None => Null
    case Some(s) => Text(s)
  }

  /** `{"provider": ..., "model": ..., "finish_reason": ..., **extra}` */
  function AnswerMetadata(provider: string, model: Option<string>, finishReason: Option<string>, extra: Metadata)
    : Metadata
  {
    map["provider" := Text(provider), "model" := OptionalText(model),
        "finish_reason" := OptionalText(finishReason)] + extra
  }

  function SuccessOf(p: Prepared, a: Answer): Finalization {
    Success(Concat(a.parts), a.providerId, a.usage,
            AnswerMetadata(p.provider, p.model, a.finishReason, a.metadata))
  }

  // ---------------------------------------------------------------- specification

  /** The events after the first one, and the finalization. `replyPresent` tells whether the
      finalizing transaction still finds the reply. */
  function Play(p: Prepared, a: Answer, ticks: seq<Tick>, replyPresent: bool): (seq<StreamEvent>, Finalization)
    decreases |ticks|
  {
    if ticks == [] then ([], Nothing)
    else
      match ticks[0]
      case Timeout =>
        var rest := Play(p, a, ticks[1..], replyPresent);
        ([Heartbeat] + rest.0, rest.1)
      case Arrived(c) =>
        var rest := Play(p, Absorb(a, c), ticks[1..], replyPresent);
        if c.content == "" then rest else ([Delta(c.content)] + rest.0, rest.1)
      case Finished =>
        if replyPresent then ([MessageCompleted(Concat(a.parts))], SuccessOf(p, a))
        else ([StreamError(CHAT_MESSAGE_FAILED)], Failure(Concat(a.parts), INTERNAL_ERROR))
      case Raised(code) =>
        ([StreamError(if code.Some? then code.value else CHAT_MESSAGE_FAILED)],
         Failure(Concat(a.parts), if code.Some? then code.value else INTERNAL_ERROR))
      case Cancelled => ([], Failure(Concat(a.parts), INTERNAL_ERROR))
  }

  predicate Ends(t: Tick) {
    t.Finished? || t.Raised? || t.Cancelled?
  }

  /** The chunk contents that reach the client: those before the first ending tick. */
  function Received(ticks: seq<Tick>): string {
    if ticks == [] || Ends(ticks[0]) then ""
    else (if ticks[0].Arrived? then ticks[0].chunk.content else "") + Received(ticks[1..])
  }

  function Deltas(events: seq<StreamEvent>): string {
    if events == [] then ""
    else (if events[0].Delta? then events[0].text else "") + Deltas(events[1..])
  }

  function WithoutHeartbeats(events: seq<StreamEvent>): seq<StreamEvent> {
    if events == [] then []
    else (if events[0].Heartbeat? then [] else [events[0]]) + WithoutHeartbeats(events[1..])
  }

  function WithoutTimeouts(ticks: seq<Tick>): seq<Tick> {
    if ticks == [] then []
    else (if ticks[0].Timeout? then [] else [ticks[0]]) + WithoutTimeouts(ticks[1..])
  }

  // ---------------------------------------------------------------- theorems

  /** Heartbeats carry no information: however timeouts fall between the chunks, the other
      events and the finalization are the same. */
  lemma {:induction false} HeartbeatsAreTransparent(p: Prepared, a: Answer, ticks: seq<Tick>, replyPresent: bool)
    ensures var slow := Play(p, a, ticks, replyPresent);
            var fast := Play(p, a, WithoutTimeouts(ticks), replyPresent);
            WithoutHeartbeats(slow.0) == fast.0 && slow.1 == fast.1
    decreases |ticks|
  {
    if ticks != [] {
      var t, rest := ticks[0], ticks[1..];
      if !t.Timeout? {
        assert WithoutTimeouts(ticks)[0] == t && WithoutTimeouts(ticks)[1..] == WithoutTimeouts(rest);
      }
      match t
      case Timeout =>
        assert WithoutTimeouts(ticks) == WithoutTimeouts(rest);
        HeartbeatsAreTransparent(p, a, rest, replyPresent);
        HeartbeatCons(Heartbeat, Play(p, a, rest, replyPresent).0);
      case Arrived(c) =>
        HeartbeatsAreTransparent(p, Absorb(a, c), rest, replyPresent);
        HeartbeatCons(Delta(c.content), Play(p, Absorb(a, c), rest, replyPresent).0);
      case Finished => HeartbeatCons(Play(p, a, ticks, replyPresent).0[0], []);
      case Raised(code) => HeartbeatCons(Play(p, a, ticks, replyPresent).0[0], []);
      case Cancelled =>
    }
  }

  lemma HeartbeatCons(e: StreamEvent, events: seq<StreamEvent>)
    ensures WithoutHeartbeats([e] + events) == (if e.Heartbeat? then [] else [e]) + WithoutHeartbeats(events)
  {
    assert ([e] + events)[1..] == events;
  }

  lemma ConcatSnoc(parts: seq<string>, text: string)
    ensures Concat(parts + [text]) == Concat(parts) + text
  {
    assert (parts + [text])[..|parts|] == parts;
  }

  lemma TextSplit(s: string, from: nat, to: nat)
    requires from <= to <= |s|
    ensures s[from..] == s[from..to] + s[to..]
  {
  }

  lemma AbsorbContent(a: Answer, c: LLMChunk)
    ensures Concat(Absorb(a, c).parts) == Concat(a.parts) + c.content
  {
    ConcatSnoc(a.parts, c.content);
  }

  /** No chunk is lost, repeated or reordered: the deltas concatenate to what the provider sent,
      and that is the content persisted on success and the partial content persisted on failure. */
  lemma {:induction false} DeltasArePersisted(p: Prepared, a: Answer, ticks: seq<Tick>, replyPresent: bool)
    ensures var played := Play(p, a, ticks, replyPresent);
            && Deltas(played.0) == Received(ticks)
            && (played.1.Success? ==> played.1.content == Concat(a.parts) + Received(ticks))
            && (played.1.Failure? ==> played.1.partial == Concat(a.parts) + Received(ticks))
    decreases |ticks|
  {
    hide Absorb, Concat;
    if ticks != [] {
      var t, rest := ticks[0], ticks[1..];
      match t
      case Timeout =>
        DeltasArePersisted(p, a, rest, replyPresent);
        DeltasCons(Heartbeat, Play(p, a, rest, replyPresent).0);
      case Arrived(c) =>
        var a' := Absorb(a, c);
        AbsorbContent(a, c);
        DeltasArePersisted(p, a', rest, replyPresent);
        DeltasCons(Delta(c.content), Play(p, a', rest, replyPresent).0);
        Associates(Concat(a.parts), c.content, Received(rest));
      case Finished =>
      case Raised(code) =>
      case Cancelled =>
    }
  }

  lemma DeltasCons(e: StreamEvent, events: seq<StreamEvent>)
    ensures Deltas([e] + events) == (if e.Delta? then e.text else "") + Deltas(events)
  {
    assert ([e] + events)[1..] == events;
  }

  predicate Terminal(e: StreamEvent) {
    e.MessageCompleted? || e.StreamError?
  }

  /** Deltas and heartbeats, then at most one closing event, which matches the finalization:
      completed with success, an error with a failure. */
  ghost predicate Shaped(events: seq<StreamEvent>, fin: Finalization) {
    && (forall i :: 0 <= i < |events| && Terminal(events[i]) ==> i == |events| - 1)
    && (forall i :: 0 <= i < |events| ==> events[i] != MessageCreated)
    && (fin.Success? <==> events != [] && events[|events| - 1].MessageCompleted?)
    && (fin.Success? ==> events[|events| - 1].text == fin.content)
    && (events != [] && events[|events| - 1].StreamError? ==> fin.Failure?)
  }

  lemma ShapedCons(e: StreamEvent, events: seq<StreamEvent>, fin: Finalization)
    requires Shaped(events, fin) && (e.Heartbeat? || e.Delta?)
    ensures Shaped([e] + events, fin)
  {
    var all := [e] + events;
    assert forall i :: 0 < i < |all| ==> all[i] == events[i - 1];
  }

  /** Every stream has that shape, and it goes without finalization exactly when the provider
      never ends the answer. */
  lemma {:induction false} StreamShape(p: Prepared, a: Answer, ticks: seq<Tick>, replyPresent: bool)
    ensures Shaped(Play(p, a, ticks, replyPresent).0, Play(p, a, ticks, replyPresent).1)
    ensures Play(p, a, ticks, replyPresent).1.Nothing? <==> forall t :: t in ticks ==> !Ends(t)
    decreases |ticks|
  {
    if ticks != [] {
      var t, rest := ticks[0], ticks[1..];
      assert ticks == [t] + rest && t in ticks;
      match t
      case Timeout =>
        StreamShape(p, a, rest, replyPresent);
        ShapedCons(Heartbeat, Play(p, a, rest, replyPresent).0, Play(p, a, rest, replyPresent).1);
      case Arrived(c) =>
        var a' := Absorb(a, c);
        StreamShape(p, a', rest, replyPresent);
        ShapedCons(Delta(c.content), Play(p, a', rest, replyPresent).0, Play(p, a', rest, replyPresent).1);
      case Finished =>
      case Raised(code) =>
      case Cancelled =>
    }
  }

  // ---------------------------------------------------------------- event by event

  /** What the client is shown while the answer goes on: a heartbeat for every wait that runs out
      and a delta for every chunk with text. */
  function ShownFor(ticks: seq<Tick>): seq<StreamEvent> {
    if ticks == [] then []
    else
      (match ticks[0]
       case Timeout => [Heartbeat]
       case Arrived(c) => if c.content != "" then [Delta(c.content)] else []
       case _ => [])
      + ShownFor(ticks[1..])
  }

  /** Tick `n` is the first that ends the answer, or none does and `n` is their number. */
  ghost predicate EndsAt(ticks: seq<Tick>, n: nat) {
    && n <= |ticks|
    && (forall i :: 0 <= i < n ==> !Ends(ticks[i]))
    && (n < |ticks| ==> Ends(ticks[n]))
  }

  /** The event that closes the stream: the completed text, an error with the code of an application
      error, a general error when the reply has disappeared or anything else was raised, and none
      for a cancellation. */
  ghost predicate ClosesWith(t: Tick, replyPresent: bool, text: string, closing: seq<StreamEvent>) {
    match t
    case Finished =>
      closing == if replyPresent then [MessageCompleted(text)] else [StreamError("CHAT_MESSAGE_FAILED")]
    case Raised(Some(code)) => closing == [StreamError(code)]
    case Raised(None) => closing == [StreamError("CHAT_MESSAGE_FAILED")]
    case _ => closing == []
  }

  /** The finalization that belongs to it. */
  ghost predicate FinalizesWith(t: Tick, replyPresent: bool, text: string, fin: Finalization) {
    match t
    case Finished => if replyPresent then fin.Success? && fin.content == text else fin == Failure(text, "INTERNAL_ERROR")
    case Raised(Some(code)) => fin == Failure(text, code)
    case _ => fin == Failure(text, "INTERNAL_ERROR")
  }

  /** Every stream event by event: what the ticks before the end show, then the closing event. A
      stream that is consumed to its end and not cancelled closes with exactly one event. */
  lemma {:induction false} StreamEventByEvent(
      p: Prepared, a: Answer, ticks: seq<Tick>, replyPresent: bool, n: nat) returns (closing: seq<StreamEvent>)
    requires EndsAt(ticks, n)
    ensures Play(p, a, ticks, replyPresent).0 == ShownFor(ticks[..n]) + closing
    ensures n == |ticks| ==> closing == [] && Play(p, a, ticks, replyPresent).1 == Nothing
    ensures n < |ticks| ==>
              && ClosesWith(ticks[n], replyPresent, Concat(a.parts) + Received(ticks), closing)
              && FinalizesWith(ticks[n], replyPresent, Concat(a.parts) + Received(ticks), Play(p, a, ticks, replyPresent).1)
              && (|closing| == 1 <==> !ticks[n].Cancelled?)
    decreases |ticks|
  {
    hide Play, Received, Absorb, Concat, ClosesWith, FinalizesWith, Ends;
    closing := [];
    if ticks == [] {
      assert Play(p, a, [], replyPresent) == ([], Nothing) by { PlayOfNothing(p, a, replyPresent); }
    } else if n == 0 {
      assert ticks[..0] == [];
      closing := Play(p, a, ticks, replyPresent).0;
      PlayOfEnd(p, a, ticks, replyPresent);
    } else {
      var t, rest := ticks[0], ticks[1..];
      var a' := if t.Arrived? then Absorb(a, t.chunk) else a;
      assert EndsAt(rest, n - 1);
      closing := StreamEventByEvent(p, a', rest, replyPresent, n - 1);
      PlayOfTick(p, a, ticks, replyPresent);
      ShownSplit(ticks, n);
      hide ShownFor;
      Associates(ShownFor([t]), ShownFor(rest[..n - 1]), closing);
    }
  }

  lemma PlayOfNothing(p: Prepared, a: Answer, replyPresent: bool)
    ensures Play(p, a, [], replyPresent) == ([], Nothing)
  {
  }

  lemma PlayOfEnd(p: Prepared, a: Answer, ticks: seq<Tick>, replyPresent: bool)
    requires ticks != [] && Ends(ticks[0])
    ensures var (events, fin) := Play(p, a, ticks, replyPresent);
            var text := Concat(a.parts) + Received(ticks);
            && ClosesWith(ticks[0], replyPresent, text, events)
            && FinalizesWith(ticks[0], replyPresent, text, fin)
            && (|events| == 1 <==> !ticks[0].Cancelled?)
  {
    assert Concat(a.parts) + "" == Concat(a.parts);
  }

  lemma PlayOfTick(p: Prepared, a: Answer, ticks: seq<Tick>, replyPresent: bool)
    requires ticks != [] && !Ends(ticks[0])
    ensures var a' := if ticks[0].Arrived? then Absorb(a, ticks[0].chunk) else a;
            var rest := Play(p, a', ticks[1..], replyPresent);
            && Play(p, a, ticks, replyPresent) == (ShownFor([ticks[0]]) + rest.0, rest.1)
            && Concat(a.parts) + Received(ticks) == Concat(a'.parts) + Received(ticks[1..])
  {
    hide Absorb, Concat;
    OneShown(ticks[0]);
    var a' := if ticks[0].Arrived? then Absorb(a, ticks[0].chunk) else a;
    var rest := Play(p, a', ticks[1..], replyPresent);
    assert [] + rest.0 == rest.0 && "" + Received(ticks[1..]) == Received(ticks[1..]);
    if ticks[0].Arrived? {
      AbsorbContent(a, ticks[0].chunk);
      Associates(Concat(a.parts), ticks[0].chunk.content, Received(ticks[1..]));
    }
  }

  lemma ShownSplit(ticks: seq<Tick>, n: nat)
    requires 0 < n <= |ticks|
    ensures ShownFor(ticks[..n]) == ShownFor([ticks[0]]) + ShownFor(ticks[1..][..n - 1])
  {
    assert ticks[..n][0] == ticks[0] && ticks[..n][1..] == ticks[1..][..n - 1];
    OneShown(ticks[0]);
  }

  lemma OneShown(t: Tick)
    ensures ShownFor([t]) ==
            match t
            case Timeout => [Heartbeat]
            case Arrived(c) => if c.content != "" then [Delta(c.content)] else []
            case _ => []
  {
    assert [t][1..] == [];
  }

  function HeartbeatCount(events: seq<StreamEvent>): nat {
    if events == [] then 0 else (if events[0].Heartbeat? then 1 else 0) + HeartbeatCount(events[1..])
  }

  function TimeoutCount(ticks: seq<Tick>): nat {
    if ticks == [] then 0 else (if ticks[0].Timeout? then 1 else 0) + TimeoutCount(ticks[1..])
  }

  /** Every wait that runs out before the end gives exactly one heartbeat. */
  lemma {:induction false} OneHeartbeatPerTimeout(ticks: seq<Tick>)
    ensures HeartbeatCount(ShownFor(ticks)) == TimeoutCount(ticks)
  {
    if ticks != [] {
      OneHeartbeatPerTimeout(ticks[1..]);
      var rest := ShownFor(ticks[1..]);
      match ticks[0]
      case Timeout => assert ([Heartbeat] + rest)[1..] == rest;
      case Arrived(c) =>
        assert ([Delta(c.content)] + rest)[1..] == rest;
        assert [] + rest == rest;
      case _ => assert [] + rest == rest;
    }
  }

  // ---------------------------------------------------------------- heartbeats

  /** One read from the provider: how many heartbeat intervals pass before it is done, and what
      it then brings. */
  datatype Read = Read(delay: nat, outcome: Tick)

  function Timeouts(n: nat): seq<Tick> {
    if n == 0 then [] else [Timeout] + Timeouts(n - 1)
  }

  /** What the consumer sees of these reads, up to the one that ends the answer. */
  function Beats(awaited: seq<Read>): seq<Tick> {
    if awaited == [] then []
    else
      Timeouts(awaited[0].delay) + [awaited[0].outcome]
      + if Ends(awaited[0].outcome) then [] else Beats(awaited[1..])
  }

  /** `_with_heartbeats`: a read that is not done in time stays pending, and only one that was
      handed on is followed by the next. */
  method WithHeartbeats(awaited: seq<Read>) returns (ticks: seq<Tick>)
    ensures ticks == Beats(awaited)
  {
    ticks := [];
    var next, waited: nat := 0, 0;
    while next < |awaited|
      invariant 0 <= next <= |awaited|
      invariant next < |awaited| ==> 0 <= waited <= awaited[next].delay
      invariant Beats(awaited) == ticks + if next == |awaited| then [] else Remaining(awaited[next..], waited)
      decreases |awaited| - next, if next < |awaited| then awaited[next].delay - waited else 0
    {
      RemainingUnfolds(awaited[next..], waited, ticks);
      if waited < awaited[next].delay {
        ticks := ticks + [Timeout];
        waited := waited + 1;
        continue;
      }
      ticks := ticks + [awaited[next].outcome];
      if Ends(awaited[next].outcome) {
        return;
      }
      assert awaited[next..][1..] == awaited[next + 1..];
      next, waited := next + 1, 0;
    }
  }

  /** The same after `waited` intervals of the first read. */
  ghost function Remaining(awaited: seq<Read>, waited: nat): seq<Tick>
    requires awaited != [] && waited <= awaited[0].delay
  {
    Timeouts(awaited[0].delay - waited) + [awaited[0].outcome]
    + if Ends(awaited[0].outcome) then [] else Beats(awaited[1..])
  }

  lemma RemainingUnfolds(awaited: seq<Read>, waited: nat, ticks: seq<Tick>)
    requires awaited != [] && waited <= awaited[0].delay
    ensures waited < awaited[0].delay ==>
              ticks + Remaining(awaited, waited) == (ticks + [Timeout]) + Remaining(awaited, waited + 1)
    ensures waited == awaited[0].delay ==>
              ticks + Remaining(awaited, waited) ==
              (ticks + [awaited[0].outcome]) + if Ends(awaited[0].outcome) then [] else Beats(awaited[1..])
    ensures |awaited| > 1 ==> Beats(awaited[1..]) == Remaining(awaited[1..], 0)
    ensures |awaited| == 1 ==> Beats(awaited[1..]) == []
  {
    var rest := if Ends(awaited[0].outcome) then [] else Beats(awaited[1..]);
    if waited < awaited[0].delay {
      WaitingUnfolds(awaited[0].delay - waited, awaited[0].outcome, rest, ticks);
    } else {
      DoneUnfolds(awaited[0].outcome, rest, ticks);
    }
  }

  lemma WaitingUnfolds(n: nat, t: Tick, rest: seq<Tick>, ticks: seq<Tick>)
    requires n > 0
    ensures ticks + (Timeouts(n) + [t] + rest) == (ticks + [Timeout]) + (Timeouts(n - 1) + [t] + rest)
  {
    var later := Timeouts(n - 1);
    assert Timeouts(n) + [t] + rest == [Timeout] + (later + [t] + rest);
    Associates(ticks, [Timeout], later + [t] + rest);
  }

  lemma DoneUnfolds(t: Tick, rest: seq<Tick>, ticks: seq<Tick>)
    ensures ticks + (Timeouts(0) + [t] + rest) == (ticks + [t]) + rest
  {
    assert Timeouts(0) + [t] + rest == [t] + rest;
    Associates(ticks, [t], rest);
  }

  /** The outcomes up to the one that ends the answer. */
  function Outcomes(awaited: seq<Read>): seq<Tick> {
    if awaited == [] then []
    else [awaited[0].outcome] + if Ends(awaited[0].outcome) then [] else Outcomes(awaited[1..])
  }

  lemma {:induction false} TimeoutsVanish(n: nat, rest: seq<Tick>)
    ensures WithoutTimeouts(Timeouts(n) + rest) == WithoutTimeouts(rest)
  {
    if n == 0 {
      assert [] + rest == rest;
    } else {
      var later := Timeouts(n - 1) + rest;
      assert Timeouts(n) + rest == [Timeout] + later && ([Timeout] + later)[1..] == later;
      TimeoutsVanish(n - 1, rest);
    }
  }

  /** However long the reads take, each of them reaches the consumer once and in order. */
  lemma {:induction false} HeartbeatsLoseNothing(awaited: seq<Read>)
    requires forall r :: r in awaited ==> !r.outcome.Timeout?
    ensures WithoutTimeouts(Beats(awaited)) == Outcomes(awaited)
  {
    if awaited != [] {
      var t := awaited[0].outcome;
      var rest := if Ends(t) then [] else Beats(awaited[1..]);
      assert Beats(awaited) == Timeouts(awaited[0].delay) + ([t] + rest);
      TimeoutsVanish(awaited[0].delay, [t] + rest);
      assert ([t] + rest)[1..] == rest && awaited[0] in awaited;
      if !Ends(t) {
        HeartbeatsLoseNothing(awaited[1..]);
      }
    }
  }

  lemma {:induction false} OutcomesIgnoreDelays(slow: seq<Read>, fast: seq<Read>)
    requires |slow| == |fast| && forall i :: 0 <= i < |slow| ==> slow[i].outcome == fast[i].outcome
    ensures Outcomes(slow) == Outcomes(fast)
  {
    if slow != [] {
      OutcomesIgnoreDelays(slow[1..], fast[1..]);
    }
  }

  /** The pace of the provider decides nothing but the heartbeats: the same reads with any other
      delays give the same events and the same finalization. */
  lemma DelaysAreInvisible(p: Prepared, slow: seq<Read>, fast: seq<Read>, replyPresent: bool)
    requires |slow| == |fast| && forall i :: 0 <= i < |slow| ==> slow[i].outcome == fast[i].outcome
    requires forall r :: (r in slow || r in fast) ==> !r.outcome.Timeout?
    ensures var x := Play(p, NO_ANSWER, Beats(slow), replyPresent);
            var y := Play(p, NO_ANSWER, Beats(fast), replyPresent);
            WithoutHeartbeats(x.0) == WithoutHeartbeats(y.0) && x.1 == y.1
  {
    HeartbeatsLoseNothing(slow);
    HeartbeatsLoseNothing(fast);
    OutcomesIgnoreDelays(slow, fast);
    HeartbeatsAreTransparent(p, NO_ANSWER, Beats(slow), replyPresent);
    HeartbeatsAreTransparent(p, NO_ANSWER, Beats(fast), replyPresent);
  }

  /** Where the outcome of read `i` comes in what the consumer sees. */
  function PlaceOf(awaited: seq<Read>, i: nat): nat
    requires i < |awaited|
  {
    awaited[0].delay + if i == 0 then 0 else 1 + PlaceOf(awaited[1..], i - 1)
  }

  /** A read that is late by some intervals is preceded by as many heartbeats and no more, and
      nothing follows the read that ends the answer. */
  lemma {:induction false} BeatsPrecedeOutcome(awaited: seq<Read>, i: nat)
    requires i < |awaited| && forall j :: 0 <= j < i ==> !Ends(awaited[j].outcome)
    ensures awaited[i].delay <= PlaceOf(awaited, i) < |Beats(awaited)|
    ensures Beats(awaited)[PlaceOf(awaited, i)] == awaited[i].outcome
    ensures forall k :: PlaceOf(awaited, i) - awaited[i].delay <= k < PlaceOf(awaited, i) ==> Beats(awaited)[k] == Timeout
    ensures i > 0 ==> PlaceOf(awaited, i) == PlaceOf(awaited, i - 1) + 1 + awaited[i].delay
    ensures Ends(awaited[i].outcome) || i == |awaited| - 1 ==> |Beats(awaited)| == PlaceOf(awaited, i) + 1
  {
    hide Beats, Ends;
    BeatsUnfold(awaited);
    if i > 0 {
      var d, rest := awaited[0].delay, awaited[1..];
      assert forall j :: 0 <= j < i - 1 ==> rest[j] == awaited[j + 1];
      assert !Ends(awaited[0].outcome);
      BeatsPrecedeOutcome(rest, i - 1);
      forall k | PlaceOf(awaited, i) - awaited[i].delay <= k < PlaceOf(awaited, i) ensures Beats(awaited)[k] == Timeout {
        assert Beats(awaited)[d + 1 + (k - d - 1)] == Beats(rest)[k - d - 1];
      }
    }
  }

  lemma BeatsUnfold(awaited: seq<Read>)
    requires awaited != []
    ensures var d := awaited[0].delay;
            var later := if Ends(awaited[0].outcome) then [] else Beats(awaited[1..]);
            && |Beats(awaited)| == d + 1 + |later|
            && (forall k :: 0 <= k < d ==> Beats(awaited)[k] == Timeout)
            && Beats(awaited)[d] == awaited[0].outcome
            && (forall k :: 0 <= k < |later| ==> Beats(awaited)[d + 1 + k] == later[k])
            && (|awaited| == 1 ==> later == [])
  {
    TimeoutsAre(awaited[0].delay);
  }

  lemma {:induction false} TimeoutsAre(n: nat)
    ensures |Timeouts(n)| == n && forall k :: 0 <= k < n ==> Timeouts(n)[k] == Timeout
  {
    if n > 0 {
      TimeoutsAre(n - 1);
    }
  }

  // ---------------------------------------------------------------- the stored reply

  /** The finalizing transaction as a step of the exchange protocol. */
  function ActionOf(fin: Finalization, generation: nat, now: int): ChatExchange.Action
    requires !fin.Nothing?
  {
    match fin
    case Success(content, providerId, usage, metadata) =>
      ChatExchange.Succeed(generation, content, providerId, usage, metadata, now)
    case Failure(partial, code) => ChatExchange.Fail(generation, partial, code)
  }

  /** What the client was sent is what the database holds: after the finalizing step of a stream,
      in any reachable state, the reply is the concatenation of the deltas, and it is complete
      exactly when the stream closed with the completion event. */
  lemma StoredIsWhatWasStreamed(
      states: seq<ChatExchange.Sys>, run: seq<ChatExchange.Action>, maxLength: nat, k: nat,
      g: nat, p: Prepared, ticks: seq<Tick>, now: int)
    requires ChatExchange.IsRun(states, run, maxLength) && k <= |run| && g in states[k].inFlight
    requires !Play(p, NO_ANSWER, ticks, true).1.Nothing?
    ensures var (events, fin) := Play(p, NO_ANSWER, ticks, true);
            && ChatExchange.Enabled(states[k], ActionOf(fin, g, now))
            && var after := ChatExchange.Step(states[k], ActionOf(fin, g, now), maxLength);
               var reply := states[k].inFlight[g];
               && reply in after.db.messages && g !in after.inFlight
               && after.db.messages[reply].content == Deltas(events) == Received(ticks)
               && after.db.messages[reply].status in {ChatExchange.Completed, ChatExchange.Failed}
               && (after.db.messages[reply].status == ChatExchange.Completed <==>
                     events != [] && events[|events| - 1] == MessageCompleted(Deltas(events)))
  {
    hide Play, Deltas, Received, Concat, ChatExchange.Step;
    ChatExchange.ReachableInv(states, run, maxLength, k);
    DeltasArePersisted(p, NO_ANSWER, ticks, true);
    StreamShape(p, NO_ANSWER, ticks, true);
    NothingBefore(Received(ticks));
    FinalizingStep(states[k], g, Play(p, NO_ANSWER, ticks, true).1, now, maxLength);
  }

  /** What the finalizing step does to the reply. */
  lemma FinalizingStep(s: ChatExchange.Sys, g: nat, fin: Finalization, now: int, maxLength: nat)
    requires ChatExchange.FlightsInv(s.db.messages, s.inFlight) && g in s.inFlight && !fin.Nothing?
    ensures ChatExchange.Enabled(s, ActionOf(fin, g, now))
    ensures var after := ChatExchange.Step(s, ActionOf(fin, g, now), maxLength);
            var reply := s.inFlight[g];
            && reply in after.db.messages && g !in after.inFlight
            && after.db.messages[reply].content == (if fin.Success? then fin.content else fin.partial)
            && after.db.messages[reply].status == (if fin.Success? then ChatExchange.Completed else ChatExchange.Failed)
            && (fin.Success? ==>
                  && after.db.messages[reply].providerMessageId == fin.providerId
                  && after.db.messages[reply].tokenUsage == fin.usage
                  && after.db.messages[reply].metadata == ChatExchange.DropNulls(fin.metadata))
            && (fin.Failure? ==> after.db.messages[reply].metadata == map["error_code" := Text(fin.code)])
  {
  }

  lemma NothingBefore(text: string)
    ensures Concat(NO_ANSWER.parts) + text == text
  {
  }

  /** A stream that fails tells the client so, under the code that the failed reply is stored with if
      the provider raised an application error, and under the general code otherwise. */
  lemma FailedStreamIsReported(
      states: seq<ChatExchange.Sys>, run: seq<ChatExchange.Action>, maxLength: nat, k: nat,
      g: nat, p: Prepared, ticks: seq<Tick>, n: nat, now: int)
    requires ChatExchange.IsRun(states, run, maxLength) && k <= |run| && g in states[k].inFlight
    requires EndsAt(ticks, n) && n < |ticks| && ticks[n].Raised?
    ensures var (events, fin) := Play(p, NO_ANSWER, ticks, true);
            && fin.Failure? && events != []
            && events[|events| - 1] ==
               StreamError(if ticks[n].code.Some? then ticks[n].code.value else "CHAT_MESSAGE_FAILED")
            && ChatExchange.Enabled(states[k], ActionOf(fin, g, now))
            && var after := ChatExchange.Step(states[k], ActionOf(fin, g, now), maxLength);
               var reply := states[k].inFlight[g];
               && reply in after.db.messages
               && after.db.messages[reply].status == ChatExchange.Failed
               && after.db.messages[reply].content == Received(ticks)
               && after.db.messages[reply].metadata == map["error_code" :=
                    Text(if ticks[n].code.Some? then ticks[n].code.value else "INTERNAL_ERROR")]
  {
    hide Play, Received, ShownFor, Concat, ChatExchange.Step;
    var closing := StreamEventByEvent(p, NO_ANSWER, ticks, true, n);
    NothingBefore(Received(ticks));
    ChatExchange.ReachableInv(states, run, maxLength, k);
    FinalizingStep(states[k], g, Play(p, NO_ANSWER, ticks, true).1, now, maxLength);
  }

  // ---------------------------------------------------------------- the generator

  /** `_stream_events`: a replayed exchange is answered from the stored reply at once. */
  method StreamEvents(p: Prepared, replay: Option<string>, ticks: seq<Tick>, replyPresent: bool)
    returns (events: seq<StreamEvent>, fin: Finalization)
    ensures replay.Some? ==> events == [MessageCreated, MessageCompleted(replay.value)] && fin == Nothing
    ensures replay.None? ==> events == [MessageCreated] + Play(p, NO_ANSWER, ticks, replyPresent).0
    ensures replay.None? ==> fin == Play(p, NO_ANSWER, ticks, replyPresent).1
  {
    events, fin := [MessageCreated], Nothing;
    if replay.Some? {
      events := events + [MessageCompleted(replay.value)];
      return;
    }
    var parts: seq<string>, providerId: Option<string>, finishReason: Option<string> := [], None, None;
    var usage: Option<LLMUsage>, metadata: Metadata := None, map[];
    var next := 0;
    while next < |ticks|
      invariant 0 <= next <= |ticks| && fin == Nothing
      invariant var rest := Play(p, Answer(parts, providerId, finishReason, usage, metadata), ticks[next..], replyPresent);
                events + rest.0 == [MessageCreated] + Play(p, NO_ANSWER, ticks, replyPresent).0
                && rest.1 == Play(p, NO_ANSWER, ticks, replyPresent).1
    {
      var tick := ticks[next];
      ghost var answer := Answer(parts, providerId, finishReason, usage, metadata);
      assert ticks[next..][1..] == ticks[next + 1..];
      ghost var before := events;
      match tick {
        case Timeout =>
          events := events + [Heartbeat];
          Associates(before, [Heartbeat], Play(p, answer, ticks[next + 1..], replyPresent).0);
        case Arrived(chunk) =>
          if chunk.providerResponseId.Some? && chunk.providerResponseId.value != "" {
            providerId := chunk.providerResponseId;
          }
          if chunk.finishReason.Some? && chunk.finishReason.value != "" {
            finishReason := chunk.finishReason;
          }
          if chunk.usage.Some? {
            usage := chunk.usage;
          }
          metadata := metadata + chunk.metadata;
          if chunk.content != "" {
            parts := parts + [chunk.content];
            events := events + [Delta(chunk.content)];
            Associates(before, [Delta(chunk.content)], Play(p, Absorb(answer, chunk), ticks[next + 1..], replyPresent).0);
          }
          assert Absorb(answer, chunk) == Answer(parts, providerId, finishReason, usage, metadata);
        case Finished =>
          if replyPresent {
            fin := Success(Concat(parts), providerId, usage, AnswerMetadata(p.provider, p.model, finishReason, metadata));
            events := events + [MessageCompleted(Concat(parts))];
          } else {
            fin := Failure(Concat(parts), INTERNAL_ERROR);
            events := events + [StreamError(CHAT_MESSAGE_FAILED)];
          }
          return;
        case Raised(code) =>
          fin := Failure(Concat(parts), if code.Some? then code.value else INTERNAL_ERROR);
          events := events + [StreamError(if code.Some? then code.value else CHAT_MESSAGE_FAILED)];
          return;
        case Cancelled =>
          fin := Failure(Concat(parts), INTERNAL_ERROR);
          return;
      }
      next := next + 1;
    }
    assert ticks[|ticks|..] == [];
  }

  // ---------------------------------------------------------------- on the wire

  /** The event names of the protocol. */
  function EventName(e: StreamEvent): string
    requires !e.Heartbeat?
  {
    match e
    case MessageCreated => "message.created"
    case Delta(_) => "message.delta"
    case MessageCompleted(_) => "message.completed"
    case StreamError(_) => "error"
  }

  /** A client can tell the kinds of events apart by their names. */
  lemma EventNamesDiffer(e: StreamEvent, f: StreamEvent)
    requires !e.Heartbeat? && !f.Heartbeat?
    ensures EventName(e) == EventName(f) <==>
              && e.MessageCreated? == f.MessageCreated? && e.Delta? == f.Delta?
              && e.MessageCompleted? == f.MessageCompleted?
  {
    assert |"message.created"| == 15 && |"message.delta"| == 13 && |"message.completed"| == 17 && |"error"| == 5;
  }

  function Wire(events: seq<StreamEvent>, dump: StreamEvent -> string): seq<Sse.Frame> {
    if events == [] then []
    else
      [if events[0].Heartbeat? then Sse.KeepAlive else Sse.Event(EventName(events[0]), dump(events[0]))]
      + Wire(events[1..], dump)
  }

  /** Every event goes out as one frame, a heartbeat as a keep-alive comment. */
  lemma {:induction false} FramePerEvent(events: seq<StreamEvent>, dump: StreamEvent -> string, i: nat)
    ensures |Wire(events, dump)| == |events|
    ensures i < |events| ==>
              (Wire(events, dump)[i] ==
               if events[i].Heartbeat? then Sse.KeepAlive else Sse.Event(EventName(events[i]), dump(events[i])))
  {
    if events != [] {
      FramePerEvent(events[1..], dump, if i == 0 then 0 else i - 1);
    }
  }

  function Shown(events: seq<StreamEvent>, dump: StreamEvent -> string): seq<Sse.Dispatched>
    requires forall e :: e in events ==> !e.Heartbeat?
  {
    if events == [] then []
    else [Sse.Dispatched(EventName(events[0]), dump(events[0]))] + Shown(events[1..], dump)
  }

  lemma {:induction false} WireIsWellFormed(events: seq<StreamEvent>, dump: StreamEvent -> string)
    requires forall e :: Sse.OneLine(dump(e))
    ensures forall f :: f in Wire(events, dump) ==> Sse.WellFormed(f)
  {
    if events != [] {
      var frame :=
        if events[0].Heartbeat? then Sse.KeepAlive else Sse.Event(EventName(events[0]), dump(events[0]));
      WireIsWellFormed(events[1..], dump);
      if !events[0].Heartbeat? {
        EventNameIsOneLine(events[0]);
      }
      assert Sse.WellFormed(frame);
      assert Wire(events, dump) == [frame] + Wire(events[1..], dump);
    }
  }

  lemma EventNameIsOneLine(e: StreamEvent)
    requires !e.Heartbeat?
    ensures EventName(e) != "" && Sse.OneLine(EventName(e))
  {
  }

  lemma {:induction false} NoHeartbeatLeft(events: seq<StreamEvent>)
    ensures forall e :: e in WithoutHeartbeats(events) ==> !e.Heartbeat?
  {
    if events != [] {
      NoHeartbeatLeft(events[1..]);
    }
  }

  lemma {:induction false} WireEvents(events: seq<StreamEvent>, dump: StreamEvent -> string)
    requires forall e :: e in WithoutHeartbeats(events) ==> !e.Heartbeat?
    ensures Sse.Events(Wire(events, dump)) == Shown(WithoutHeartbeats(events), dump)
  {
    if events != [] {
      NoHeartbeatLeft(events[1..]);
      WireEvents(events[1..], dump);
      assert Wire(events, dump)[1..] == Wire(events[1..], dump);
      if events[0].Heartbeat? {
        assert WithoutHeartbeats(events) == WithoutHeartbeats(events[1..]);
      } else {
        assert WithoutHeartbeats(events)[1..] == WithoutHeartbeats(events[1..]);
      }
    }
  }

  /** A standard client that reads the encoded stream sees the events of the heartbeat-free run,
      provided the JSON texts hold no raw line break. */
  lemma ClientSeesStream(p: Prepared, ticks: seq<Tick>, replyPresent: bool, dump: StreamEvent -> string)
    requires forall e :: Sse.OneLine(dump(e))
    ensures forall e :: e in [MessageCreated] + Play(p, NO_ANSWER, WithoutTimeouts(ticks), replyPresent).0 ==> !e.Heartbeat?
    ensures Sse.Parse(Sse.EncodeAll(Wire([MessageCreated] + Play(p, NO_ANSWER, ticks, replyPresent).0, dump)))
         == Shown([MessageCreated] + Play(p, NO_ANSWER, WithoutTimeouts(ticks), replyPresent).0, dump)
  {
    var events := [MessageCreated] + Play(p, NO_ANSWER, ticks, replyPresent).0;
    WireIsWellFormed(events, dump);
    NoHeartbeatLeft(events);
    WireEvents(events, dump);
    Sse.StreamRoundTrip(Wire(events, dump));
    HeartbeatsAreTransparent(p, NO_ANSWER, ticks, replyPresent);
    HeartbeatCons(MessageCreated, Play(p, NO_ANSWER, ticks, replyPresent).0);
  }

  // ---------------------------------------------------------------- sliced agent answers

  function Slice(r: LLMResponse, from: nat, to: nat): LLMChunk
    requires from <= to <= |r.content|
  {
    var last := to == |r.content|;
    LLMChunk(r.content[from..to], r.model, r.provider,
             if last then r.finishReason else None, r.providerResponseId,
             if last then r.usage else None, if last then r.metadata else map[])
  }

  function SlicesFrom(r: LLMResponse, size: nat, from: nat): seq<LLMChunk>
    requires size > 0 && from <= |r.content|
    decreases |r.content| - from
  {
    if from == |r.content| then []
    else
      var to := Min(from + size, |r.content|);
      [Slice(r, from, to)] + SlicesFrom(r, size, to)
  }

  /** An empty answer is still announced by one chunk. */
  function Slices(r: LLMResponse, size: nat): seq<LLMChunk>
    requires size > 0
  {
    if r.content == "" then [Slice(r, 0, 0)] else SlicesFrom(r, size, 0)
  }

  /** Every slice has `size` characters, but for the last one, which has what is left; all name model,
      provider and response id, and the last one alone the rest. */
  ghost predicate IsSlice(r: LLMResponse, from: nat, size: nat, c: LLMChunk) {
    && from <= |r.content|
    && c.content == r.content[from..Min(from + size, |r.content|)]
    && c.model == r.model && c.provider == r.provider && c.providerResponseId == r.providerResponseId
    && (if from + size >= |r.content| then
          c.finishReason == r.finishReason && c.usage == r.usage && c.metadata == r.metadata
        else c.finishReason == None && c.usage == None && c.metadata == map[])
  }

  lemma {:induction false} SliceAt(r: LLMResponse, size: nat, from: nat, i: nat, at: nat)
    requires size > 0 && from < |r.content| && at == from + i * size
    ensures i < |SlicesFrom(r, size, from)| <==> at < |r.content|
    ensures i < |SlicesFrom(r, size, from)| ==> IsSlice(r, at, size, SlicesFrom(r, size, from)[i])
    decreases i
  {
    var to := Min(from + size, |r.content|);
    FirstSlice(r, size, from);
    if i == 0 {
      assert at == from;
    } else {
      TimesNext(i - 1, size);
      hide *;
      if to < |r.content| {
        SliceAt(r, size, to, i - 1, at);
        assert i < |SlicesFrom(r, size, from)| ==> SlicesFrom(r, size, from)[i] == SlicesFrom(r, size, to)[i - 1];
      }
    }
  }

  lemma FirstSlice(r: LLMResponse, size: nat, from: nat)
    requires size > 0 && from < |r.content|
    ensures var to := Min(from + size, |r.content|);
            && SlicesFrom(r, size, from) == [Slice(r, from, to)] + SlicesFrom(r, size, to)
            && from < to <= |r.content| && (to < |r.content| ==> to == from + size) && to <= from + size
            && (to == |r.content| ==> SlicesFrom(r, size, to) == [])
    ensures IsSlice(r, from, size, SlicesFrom(r, size, from)[0])
  {
  }

  lemma TimesNext(n: nat, size: nat)
    ensures (n + 1) * size == size + n * size && n * size >= 0
  {
  }

  /** Exactly which chunks an answer is sliced into. */
  lemma SlicesAre(r: LLMResponse, size: nat, i: nat)
    requires size > 0
    ensures i < |Slices(r, size)| <==> i == 0 || i * size < |r.content|
    ensures i < |Slices(r, size)| ==> IsSlice(r, i * size, size, Slices(r, size)[i])
  {
    if r.content != "" {
      SliceAt(r, size, 0, i, i * size);
    } else if i == 0 {
      assert r.content[0..0] == "";
    }
  }

  /** `AgentChatService.stream`, after the run has returned its answer */
  method StreamAnswer(r: LLMResponse, chunkChars: nat) returns (chunks: seq<LLMChunk>)
    requires chunkChars > 0
    ensures chunks == Slices(r, chunkChars)
  {
    if r.content == "" {
      return [LLMChunk("", r.model, r.provider, r.finishReason, r.providerResponseId, r.usage, r.metadata)];
    }
    chunks := [];
    var offset := 0;
    while offset < |r.content|
      invariant 0 <= offset
      invariant chunks + SlicesFrom(r, chunkChars, Min(offset, |r.content|)) == SlicesFrom(r, chunkChars, 0)
    {
      var end := Min(offset + chunkChars, |r.content|);
      var last := end == |r.content|;
      ghost var rest := SlicesFrom(r, chunkChars, end);
      assert chunks + ([Slice(r, offset, end)] + rest) == (chunks + [Slice(r, offset, end)]) + rest;
      chunks := chunks + [LLMChunk(
        r.content[offset..end], r.model, r.provider,
        if last then r.finishReason else None, r.providerResponseId,
        if last then r.usage else None, if last then r.metadata else map[])];
      offset := offset + chunkChars;
    }
  }

  function AbsorbAll(a: Answer, chunks: seq<LLMChunk>): Answer
    decreases |chunks|
  {
    if chunks == [] then a else AbsorbAll(Absorb(a, chunks[0]), chunks[1..])
  }

  lemma AbsorbFirst(r: LLMResponse, size: nat, from: nat, a: Answer)
    requires size > 0 && from < |r.content|
    ensures var to := Min(from + size, |r.content|);
            AbsorbAll(a, SlicesFrom(r, size, from)) == AbsorbAll(Absorb(a, Slice(r, from, to)), SlicesFrom(r, size, to))
  {
    var to := Min(from + size, |r.content|);
    var slices := SlicesFrom(r, size, from);
    assert slices[0] == Slice(r, from, to) && slices[1..] == SlicesFrom(r, size, to);
  }

  /** Collecting the slices gives the text of the answer back. */
  lemma {:induction false} AbsorbedText(r: LLMResponse, size: nat, from: nat, a: Answer)
    requires size > 0 && from < |r.content|
    ensures Concat(AbsorbAll(a, SlicesFrom(r, size, from)).parts) == Concat(a.parts) + r.content[from..]
    decreases |r.content| - from
  {
    hide Concat, Absorb;
    var to := Min(from + size, |r.content|);
    AbsorbFirst(r, size, from, a);
    AbsorbContent(a, Slice(r, from, to));
    if to < |r.content| {
      AbsorbedText(r, size, to, Absorb(a, Slice(r, from, to)));
      TextSplit(r.content, from, to);
      Associates(Concat(a.parts), r.content[from..to], r.content[to..]);
    } else {
      assert r.content[from..to] == r.content[from..];
    }
  }

  /** Collecting the slices gives everything else back that only the last slice carries. */
  lemma {:induction false} AbsorbedRest(r: LLMResponse, size: nat, from: nat, a: Answer)
    requires size > 0 && from < |r.content|
    ensures var collected := AbsorbAll(a, SlicesFrom(r, size, from));
            && collected.providerId == Or(r.providerResponseId, a.providerId)
            && collected.finishReason == Or(r.finishReason, a.finishReason)
            && collected.usage == (if r.usage.Some? then r.usage else a.usage)
            && collected.metadata == a.metadata + r.metadata
    decreases |r.content| - from
  {
    var to := Min(from + size, |r.content|);
    var a' := Absorb(a, Slice(r, from, to));
    AbsorbFirst(r, size, from, a);
    if to < |r.content| {
      AbsorbedRest(r, size, to, a');
      assert a'.metadata == a.metadata;
    }
  }

  lemma AbsorbAnswer(r: LLMResponse, size: nat)
    requires size > 0
    ensures var collected := AbsorbAll(NO_ANSWER, Slices(r, size));
            && Concat(collected.parts) == r.content
            && collected.providerId == Or(r.providerResponseId, None)
            && collected.finishReason == Or(r.finishReason, None)
            && collected.usage == r.usage
            && collected.metadata == r.metadata
  {
    if r.content == "" {
      var only := Slice(r, 0, 0);
      assert AbsorbAll(NO_ANSWER, [only]) == Absorb(NO_ANSWER, only) by {
        assert [only][1..] == [];
      }
      assert map[] + r.metadata == r.metadata;
    } else {
      AbsorbedText(r, size, 0, NO_ANSWER);
      AbsorbedRest(r, size, 0, NO_ANSWER);
      assert r.content[0..] == r.content && "" + r.content == r.content;
      assert map[] + r.metadata == r.metadata;
    }
  }

  // ---------------------------------------------------------------- what a stream collects

  lemma {:induction false} AbsorbSnoc(a: Answer, chunks: seq<LLMChunk>, c: LLMChunk)
    ensures AbsorbAll(a, chunks + [c]) == Absorb(AbsorbAll(a, chunks), c)
    decreases |chunks|
  {
    hide Absorb;
    if chunks == [] {
      assert [] + [c] == [c] && [c][1..] == [];
      assert AbsorbAll(Absorb(a, c), []) == Absorb(a, c);
    } else {
      assert (chunks + [c])[0] == chunks[0] && (chunks + [c])[1..] == chunks[1..] + [c];
      AbsorbSnoc(Absorb(a, chunks[0]), chunks[1..], c);
    }
  }

  predicate Telling(t: Option<string>) {
    t.Some? && t.value != ""
  }

  /** What the last `|chunks| - i` chunks leave unsaid stays what chunk `i` said. */
  lemma {:induction false} LatestWins(a: Answer, chunks: seq<LLMChunk>, i: nat)
    requires i < |chunks|
    ensures var all := AbsorbAll(a, chunks);
            && (chunks[i].usage.Some? && (forall j :: i < j < |chunks| ==> chunks[j].usage.None?) ==>
                  all.usage == chunks[i].usage)
            && (Telling(chunks[i].providerResponseId)
                && (forall j :: i < j < |chunks| ==> !Telling(chunks[j].providerResponseId)) ==>
                  all.providerId == chunks[i].providerResponseId)
            && (Telling(chunks[i].finishReason)
                && (forall j :: i < j < |chunks| ==> !Telling(chunks[j].finishReason)) ==>
                  all.finishReason == chunks[i].finishReason)
            && (forall key ::
                  (key in chunks[i].metadata && forall j :: i < j < |chunks| ==> key !in chunks[j].metadata) ==>
                    key in all.metadata && all.metadata[key] == chunks[i].metadata[key])
    decreases |chunks|
  {
    var before, last := chunks[..|chunks| - 1], chunks[|chunks| - 1];
    assert chunks == before + [last];
    AbsorbSnoc(a, before, last);
    if i < |before| {
      LatestWins(a, before, i);
      assert forall j :: 0 <= j < |before| ==> before[j] == chunks[j];
    }
  }

  /** What no chunk says stays absent. */
  lemma {:induction false} UnsaidStaysAbsent(chunks: seq<LLMChunk>)
    ensures var all := AbsorbAll(NO_ANSWER, chunks);
            && (all.usage.Some? ==> exists i :: 0 <= i < |chunks| && chunks[i].usage.Some?)
            && (all.providerId.Some? ==> exists i :: 0 <= i < |chunks| && Telling(chunks[i].providerResponseId))
            && (all.finishReason.Some? ==> exists i :: 0 <= i < |chunks| && Telling(chunks[i].finishReason))
            && (forall key :: key in all.metadata ==> exists i :: 0 <= i < |chunks| && key in chunks[i].metadata)
  {
    if chunks != [] {
      var before, last := chunks[..|chunks| - 1], chunks[|chunks| - 1];
      assert chunks == before + [last];
      AbsorbSnoc(NO_ANSWER, before, last);
      UnsaidStaysAbsent(before);
      assert forall j :: 0 <= j < |before| ==> before[j] == chunks[j];
    }
  }

  /** The chunks among these ticks. */
  function ChunksIn(ticks: seq<Tick>): seq<LLMChunk> {
    if ticks == [] then []
    else (if ticks[0].Arrived? then [ticks[0].chunk] else []) + ChunksIn(ticks[1..])
  }

  /** What a stream that ends well stores: the text of all its chunks, and of everything else that
      they tell the latest. */
  lemma {:induction false} StreamStoresCollected(p: Prepared, a: Answer, ticks: seq<Tick>, n: nat)
    requires EndsAt(ticks, n) && n < |ticks| && ticks[n].Finished?
    ensures var all := AbsorbAll(a, ChunksIn(ticks[..n]));
            Play(p, a, ticks, true).1 ==
            Success(Concat(all.parts), all.providerId, all.usage,
                    AnswerMetadata(p.provider, p.model, all.finishReason, all.metadata))
    decreases |ticks|
  {
    hide Absorb;
    if n == 0 {
      assert ticks[..0] == [];
    } else {
      var t, rest := ticks[0], ticks[1..];
      assert forall i :: 0 <= i < n - 1 ==> rest[i] == ticks[i + 1];
      assert ticks[..n][0] == t && ticks[..n][1..] == rest[..n - 1];
      StreamStoresCollected(p, if t.Arrived? then Absorb(a, t.chunk) else a, rest, n - 1);
      if t.Arrived? {
        var later := ChunksIn(rest[..n - 1]);
        assert ([t.chunk] + later)[1..] == later;
      } else {
        assert [] + ChunksIn(rest[..n - 1]) == ChunksIn(rest[..n - 1]);
      }
    }
  }

  /** The ticks of a provider that delivers these chunks and ends. */
  function Delivery(chunks: seq<LLMChunk>): seq<Tick> {
    if chunks == [] then [Finished] else [Arrived(chunks[0])] + Delivery(chunks[1..])
  }

  lemma {:induction false} PlayDelivery(p: Prepared, a: Answer, chunks: seq<LLMChunk>)
    ensures Play(p, a, Delivery(chunks), true).1 == SuccessOf(p, AbsorbAll(a, chunks))
    decreases |chunks|
  {
    if chunks != [] {
      PlayDelivery(p, Absorb(a, chunks[0]), chunks[1..]);
      assert Delivery(chunks)[1..] == Delivery(chunks[1..]);
    }
  }

  /** What `send_message` finalizes with for the same answer. */
  function DirectSuccess(r: LLMResponse): Finalization {
    Success(r.content, r.providerResponseId, r.usage,
            AnswerMetadata(r.provider, Some(r.model), r.finishReason, r.metadata))
  }

  /** How the one call of the generation service ends. */
  datatype Generation =
    | Delivered(response: LLMResponse)
    | GenerationRaised(code: Option<string>)
    | GenerationCancelled

  function DirectOutcome(outcome: Generation): Finalization {
    match outcome
    case Delivered(r) => DirectSuccess(r)
    case GenerationRaised(code) => Failure("", if code.Some? then code.value else INTERNAL_ERROR)
    case GenerationCancelled => Failure("", INTERNAL_ERROR)
  }

  /** The database after the finalizing step, when no other generation is in flight. */
  ghost function Finalized(db: ChatExchange.Db, id: nat, fin: Finalization, now: int, maxLength: nat): ChatExchange.Db
    requires id in db.messages && !fin.Nothing?
  {
    ChatExchange.Step(ChatExchange.Sys(db, map[0 := id]), ActionOf(fin, 0, now), maxLength).db
  }

  /** `send_message` without other requests in between: prepare, generate when asked to, finalize
      with the answer or with an empty failed reply. */
  method SendMessage(store: ChatExchange.ChatStore, r: ChatExchange.SendRequest, outcome: Generation, now: int)
    returns (prepared: ChatExchange.Prepared)
    modifies store
    ensures prepared == ChatExchange.PrepareStep(old(store.View()), r, store.maxLength).1
    ensures var db := ChatExchange.PrepareStep(old(store.View()), r, store.maxLength).0;
            if prepared.Generate? then
              && prepared.replyId in db.messages
              && store.View() == Finalized(db, prepared.replyId, DirectOutcome(outcome), now, store.maxLength)
            else store.View() == db
  {
    GeneratedIfPrepared(store.View(), r, store.maxLength);
    prepared := store.PrepareExchange(r);
    if !prepared.Generate? {
      return;
    }
    match outcome {
      case Delivered(response) =>
        var metadata := AnswerMetadata(response.provider, Some(response.model), response.finishReason, response.metadata);
        var _ := store.FinalizeSuccess(
          prepared.replyId, response.content, response.providerResponseId, response.usage, metadata, now);
      case GenerationRaised(code) =>
        store.FinalizeFailure(prepared.replyId, "", if code.Some? then code.value else INTERNAL_ERROR);
      case GenerationCancelled =>
        store.FinalizeFailure(prepared.replyId, "", INTERNAL_ERROR);
    }
  }

  /** The same with any other requests in between: in every reachable state, the finalizing step
      stores the answer, or an empty failed reply. */
  lemma DirectAnswerIsStored(
      states: seq<ChatExchange.Sys>, run: seq<ChatExchange.Action>, maxLength: nat, k: nat,
      g: nat, outcome: Generation, now: int)
    requires ChatExchange.IsRun(states, run, maxLength) && k <= |run| && g in states[k].inFlight
    ensures ChatExchange.Enabled(states[k], ActionOf(DirectOutcome(outcome), g, now))
    ensures var after := ChatExchange.Step(states[k], ActionOf(DirectOutcome(outcome), g, now), maxLength);
            var reply := states[k].inFlight[g];
            && reply in after.db.messages && g !in after.inFlight
            && after.db.messages[reply].content == (if outcome.Delivered? then outcome.response.content else "")
            && after.db.messages[reply].status ==
               (if outcome.Delivered? then ChatExchange.Completed else ChatExchange.Failed)
            && (outcome.GenerationCancelled? || outcome == GenerationRaised(None) ==>
                  after.db.messages[reply].metadata == map["error_code" := Text("INTERNAL_ERROR")])
            && (outcome.GenerationRaised? && outcome.code.Some? ==>
                  after.db.messages[reply].metadata == map["error_code" := Text(outcome.code.value)])
            && (outcome.Delivered? ==>
                  var r := outcome.response;
                  && after.db.messages[reply].providerMessageId == r.providerResponseId
                  && after.db.messages[reply].tokenUsage == r.usage
                  && after.db.messages[reply].metadata == ChatExchange.DropNulls(
                       AnswerMetadata(r.provider, Some(r.model), r.finishReason, r.metadata)))
  {
    ChatExchange.ReachableInv(states, run, maxLength, k);
    FinalizingStep(states[k], g, DirectOutcome(outcome), now, maxLength);
  }

  lemma GeneratedIfPrepared(db: ChatExchange.Db, r: ChatExchange.SendRequest, maxLength: nat)
    ensures var after := ChatExchange.PrepareStep(db, r, maxLength);
            after.1.Generate? ==> after.1.replyId in after.0.messages
  {
  }

  /** What a successful finalization stores: null metadata values are dropped. */
  function Stored(f: Finalization): Finalization
    requires f.Success?
  {
    f.(metadata := ChatExchange.DropNulls(f.metadata))
  }

  /** The answer does not use the empty string where text may be absent, and names the provider
      and the model of the exchange, unless its own metadata overrides the key in question. */
  predicate SameOnBothPaths(p: Prepared, r: LLMResponse) {
    r.providerResponseId != Some("") && SameMetadataInputs(p, r)
  }

  predicate SameMetadataInputs(p: Prepared, r: LLMResponse) {
    && ("finish_reason" in r.metadata || r.finishReason != Some(""))
    && ("provider" in r.metadata || p.provider == r.provider)
    && ("model" in r.metadata || p.model == Some(r.model))
  }

  /** For every answer and every slice size, the stream path and the direct path persist the
      same content, the same token usage and the same run metadata. */
  lemma AgentPathsAgree(p: Prepared, r: LLMResponse, size: nat)
    requires size > 0
    ensures var streamed := Play(p, NO_ANSWER, Delivery(Slices(r, size)), true).1;
            && streamed.Success?
            && streamed.content == r.content && streamed.usage == r.usage
            && (forall key :: key in r.metadata ==>
                  && key in streamed.metadata && streamed.metadata[key] == r.metadata[key]
                  && key in DirectSuccess(r).metadata && DirectSuccess(r).metadata[key] == r.metadata[key])
  {
    PlayDelivery(p, NO_ANSWER, Slices(r, size));
    AbsorbAnswer(r, size);
  }

  /** Exactly when the two stored rows are equal altogether. */
  lemma AgentPathsIdenticalIff(p: Prepared, r: LLMResponse, size: nat)
    requires size > 0
    ensures var streamed := Play(p, NO_ANSWER, Delivery(Slices(r, size)), true).1;
            streamed.Success? && (Stored(streamed) == Stored(DirectSuccess(r)) <==> SameOnBothPaths(p, r))
  {
    PlayDelivery(p, NO_ANSWER, Slices(r, size));
    AbsorbAnswer(r, size);
    var s := Stored(Play(p, NO_ANSWER, Delivery(Slices(r, size)), true).1);
    var d := Stored(DirectSuccess(r));
    MetadataEqualIff(p, r);
    assert s.providerId == Or(r.providerResponseId, None);
  }

  /** An answer that the two paths store differently: the response names another provider than the
      exchange was prepared for. */
  lemma AgentPathsCanDiffer(size: nat)
    requires size > 0
    ensures var p := Prepared("a", Some("m"));
            var r := LLMResponse("hi", "m", "b", None, None, None, [], map[]);
            var streamed := Play(p, NO_ANSWER, Delivery(Slices(r, size)), true).1;
            streamed.Success? && Stored(streamed) != Stored(DirectSuccess(r))
  {
    var p := Prepared("a", Some("m"));
    var r := LLMResponse("hi", "m", "b", None, None, None, [], map[]);
    AgentPathsIdenticalIff(p, r, size);
    assert p.provider[0] != r.provider[0];
  }

  /** One key decides: two metadata maps that agree elsewhere are stored alike exactly when
      they agree on it. */
  lemma StoredAt(m: Metadata, key: string)
    ensures key in m ==> (key in ChatExchange.DropNulls(m) <==> m[key] != Null)
    ensures key in ChatExchange.DropNulls(m) ==> key in m && ChatExchange.DropNulls(m)[key] == m[key]
  {
  }

  lemma StoredAlikeAt(m: Metadata, n: Metadata, key: string)
    requires key in m && key in n && ChatExchange.DropNulls(m) == ChatExchange.DropNulls(n)
    ensures m[key] == n[key]
  {
    StoredAt(m, key);
    StoredAt(n, key);
  }

  lemma BaseMetadata(provider: string, model: Option<string>, finishReason: Option<string>, extra: Metadata)
    ensures var m := AnswerMetadata(provider, model, finishReason, extra);
            && "provider" in m && "model" in m && "finish_reason" in m
            && ("provider" !in extra ==> m["provider"] == Text(provider))
            && ("model" !in extra ==> m["model"] == OptionalText(model))
            && ("finish_reason" !in extra ==> m["finish_reason"] == OptionalText(finishReason))
  {
    assert |"provider"| == 8 && |"model"| == 5 && |"finish_reason"| == 13;
  }

  lemma MetadataEqualIff(p: Prepared, r: LLMResponse)
    ensures (ChatExchange.DropNulls(AnswerMetadata(p.provider, p.model, Or(r.finishReason, None), r.metadata))
          == ChatExchange.DropNulls(AnswerMetadata(r.provider, Some(r.model), r.finishReason, r.metadata)))
        <==> SameMetadataInputs(p, r)
  {
    var s := AnswerMetadata(p.provider, p.model, Or(r.finishReason, None), r.metadata);
    var d := AnswerMetadata(r.provider, Some(r.model), r.finishReason, r.metadata);
    BaseMetadata(p.provider, p.model, Or(r.finishReason, None), r.metadata);
    BaseMetadata(r.provider, Some(r.model), r.finishReason, r.metadata);
    if ChatExchange.DropNulls(s) == ChatExchange.DropNulls(d) {
      StoredAlikeAt(s, d, "provider");
      StoredAlikeAt(s, d, "model");
      StoredAlikeAt(s, d, "finish_reason");
    } else if SameMetadataInputs(p, r) {
      MetadataEqual(p, r);
    }
  }

  lemma MetadataEqual(p: Prepared, r: LLMResponse)
    requires SameMetadataInputs(p, r)
    ensures AnswerMetadata(p.provider, p.model, Or(r.finishReason, None), r.metadata)
         == AnswerMetadata(r.provider, Some(r.model), r.finishReason, r.metadata)
  {
    BaseMetadata(p.provider, p.model, Or(r.finishReason, None), r.metadata);
    BaseMetadata(r.provider, Some(r.model), r.finishReason, r.metadata);
  }
}
