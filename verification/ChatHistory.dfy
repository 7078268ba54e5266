/** How a send ends, what a finalizing step changes, and where the messages come from, in every
    reachable state of the chat exchange (backend/app/domains/chat/service.py). */
module ChatHistory {
  import opened Common
  import opened Llm
  import opened ChatExchange

  // ---------------------------------------------------------------- how a send ends

  /** No message of the conversation carries the client id. */
  ghost predicate NewClientId(db: Db, r: SendRequest) {
    forall id :: id in db.messages ==>
      db.messages[id].conversationId != r.conversationId || db.messages[id].clientId != Some(r.clientId)
  }

  /** Message `u` carries the client id of the request, and `a` replies to it. */
  ghost predicate IsExchange(db: Db, r: SendRequest, u: nat, a: nat) {
    && u in db.messages && a in db.messages
    && db.messages[u].conversationId == r.conversationId && db.messages[u].clientId == Some(r.clientId)
    && db.messages[a].role == Assistant && db.messages[a].parentId == Some(u)
  }

  /** Exactly which sends are refused for their text or their sender: one that is too long, and one
      to a conversation that is missing, archived or owned by another user. */
  lemma InadmissibleIsRefused(db: Db, r: SendRequest, maxLength: nat)
    ensures var (after, out) := PrepareStep(db, r, maxLength);
            && (out == Rejected(MessageTooLong) <==> |r.content| > maxLength)
            && (out == Rejected(ConversationNotFound) <==>
                  && |r.content| <= maxLength
                  && (|| r.conversationId !in db.conversations
                      || db.conversations[r.conversationId].userId != r.userId
                      || db.conversations[r.conversationId].archived))
            && (!Admissible(db, r, maxLength) <==> out in {Rejected(MessageTooLong), Rejected(ConversationNotFound)})
            && (!Admissible(db, r, maxLength) ==> after == db)
  {
  }

  /** Exactly how an admissible send ends, in every reachable state: a new client id is generated
      for; a known one is answered by the status of its reply. */
  lemma SendEndsIn(states: seq<Sys>, run: seq<Action>, maxLength: nat, k: nat, r: SendRequest)
    requires IsRun(states, run, maxLength) && k <= |run| && Admissible(states[k].db, r, maxLength)
    ensures NewClientId(states[k].db, r) || exists u, a :: IsExchange(states[k].db, r, u, a)
    ensures NewClientId(states[k].db, r) ==>
              PrepareStep(states[k].db, r, maxLength).1 ==
              if r.contextAssembled then Generate(r.newUserMessageId, r.newReplyId, false) else Rejected(ContextFailed)
    ensures forall u, a :: IsExchange(states[k].db, r, u, a) ==>
              PrepareStep(states[k].db, r, maxLength).1 ==
              match states[k].db.messages[a].status
              case Completed => Replayed(u, a)
              case Pending => Rejected(RequestInProgress)
              case Streaming => Rejected(RequestInProgress)
              case Failed => if r.contextAssembled then Generate(u, a, true) else Rejected(ContextFailed)
  {
    ReachableInv(states, run, maxLength, k);
    var db := states[k].db;
    var existing := ByClient(db.messages, r.conversationId, r.clientId);
    Lookups(db.messages, r.conversationId, r.clientId);
    hide IsRun, Inv, MessagesInv, PrepareStep;
    if NewClientId(db, r) {
      assert existing == {};
      NewSendEndsIn(db, r, maxLength);
    } else {
      var id :| id in db.messages && db.messages[id].conversationId == r.conversationId
                && db.messages[id].clientId == Some(r.clientId);
      assert id in existing;
      OnlyOne(existing, id);
      assert TheOnly(RepliesTo(db.messages, id)) in RepliesTo(db.messages, id);
      assert IsExchange(db, r, id, TheOnly(RepliesTo(db.messages, id)));
    }
    forall u, a | IsExchange(db, r, u, a)
      ensures PrepareStep(db, r, maxLength).1 ==
              match db.messages[a].status
              case Completed => Replayed(u, a)
              case Pending => Rejected(RequestInProgress)
              case Streaming => Rejected(RequestInProgress)
              case Failed => if r.contextAssembled then Generate(u, a, true) else Rejected(ContextFailed)
    {
      assert u in existing && a in RepliesTo(db.messages, u);
      OnlyOne(existing, u);
      OnlyOne(RepliesTo(db.messages, u), a);
      RepeatedSendEndsIn(db, r, maxLength, u, a);
    }
  }

  lemma NewSendEndsIn(db: Db, r: SendRequest, maxLength: nat)
    requires Admissible(db, r, maxLength) && ByClient(db.messages, r.conversationId, r.clientId) == {}
    ensures PrepareStep(db, r, maxLength).1 ==
            if r.contextAssembled then Generate(r.newUserMessageId, r.newReplyId, false) else Rejected(ContextFailed)
  {
  }

  lemma RepeatedSendEndsIn(db: Db, r: SendRequest, maxLength: nat, u: nat, a: nat)
    requires Admissible(db, r, maxLength) && ByClient(db.messages, r.conversationId, r.clientId) == {u}
    requires RepliesTo(db.messages, u) == {a} && a in db.messages
    ensures PrepareStep(db, r, maxLength).1 ==
            match db.messages[a].status
            case Completed => Replayed(u, a)
            case Pending => Rejected(RequestInProgress)
            case Streaming => Rejected(RequestInProgress)
            case Failed => if r.contextAssembled then Generate(u, a, true) else Rejected(ContextFailed)
  {
    hide ByClient, RepliesTo;
    OnlyOne({u}, u);
    OnlyOne({a}, a);
    assert TheOnly({u}) == u by { assert {u} == {TheOnly({u})}; assert u in {TheOnly({u})}; }
    assert TheOnly({a}) == a by { assert {a} == {TheOnly({a})}; assert a in {TheOnly({a})}; }
  }

  /** Whoever is answered, with a generation or with a stored reply, owns the conversation, and gets
      rows of that conversation only. */
  lemma OnlyOwnersAreAnswered(states: seq<Sys>, run: seq<Action>, maxLength: nat, k: nat, r: SendRequest)
    requires IsRun(states, run, maxLength) && k <= |run|
    requires r.newUserMessageId != r.newReplyId && !PrepareStep(states[k].db, r, maxLength).1.Rejected?
    ensures Admissible(states[k].db, r, maxLength)
    ensures var (after, out) := PrepareStep(states[k].db, r, maxLength);
            && out.userMessageId in after.messages
            && after.messages[out.userMessageId].conversationId == r.conversationId
            && after.messages[out.userMessageId].clientId == Some(r.clientId)
            && out.replyId in after.messages
            && after.messages[out.replyId].conversationId == r.conversationId
            && after.messages[out.replyId].parentId == Some(out.userMessageId)
  {
    var db := states[k].db;
    ReachableInv(states, run, maxLength, k);
    PrepareEffect(db, r, maxLength);
    InadmissibleIsRefused(db, r, maxLength);
    var out := PrepareStep(db, r, maxLength).1;
    hide IsRun, PrepareStep;
    if out.Replayed? || out.reused {
      assert WellFormed(db.messages, out.replyId);
    }
  }

  /** An accepted send gives the conversation a title if it has none, moves its last activity to the
      time of the send, and touches no other conversation; any other send touches none at all. */
  lemma AcceptedSendTouchesItsConversation(db: Db, r: SendRequest, maxLength: nat)
    ensures var (after, out) := PrepareStep(db, r, maxLength);
            && (!out.Generate? ==> after == db)
            && (out.Generate? ==>
                  && r.conversationId in db.conversations
                  && after.conversations == db.conversations[r.conversationId :=
                       var c := db.conversations[r.conversationId];
                       Conversation(c.userId, c.archived,
                                    if c.title.Some? then c.title else Some(DeriveTitle(r.content)), Some(r.now))])
  {
  }

  /** A finalizing step changes the row of its own reply, and on success the last activity of that
      row's conversation; it changes nothing else. */
  lemma FinishingIsLocal(s: Sys, a: Action, maxLength: nat)
    requires Enabled(s, a) && (a.Succeed? || a.Fail?) && s.inFlight[a.generation] in s.db.messages
    ensures var id := s.inFlight[a.generation];
            var m := s.db.messages[id];
            var after := Step(s, a, maxLength).db;
            && after.messages.Keys == s.db.messages.Keys
            && (forall x :: x in s.db.messages && x != id ==> after.messages[x] == s.db.messages[x])
            && SamePlace(m, after.messages[id])
            && (a.Fail? ==>
                  && after.messages[id] == m.(content := a.partial, status := Failed,
                                              metadata := map["error_code" := Text(a.code)])
                  && after.conversations == s.db.conversations)
            && (a.Succeed? ==>
                  && after.conversations.Keys == s.db.conversations.Keys
                  && forall c :: c in s.db.conversations ==>
                       after.conversations[c] ==
                       if c == m.conversationId then s.db.conversations[c].(lastMessageAt := Some(a.now))
                       else s.db.conversations[c])
  {
  }

  /** The action starts, completes or fails a generation of this reply. */
  ghost predicate Touches(s: Sys, a: Action, maxLength: nat, reply: nat) {
    Starts(s, a, maxLength, reply) || Completes(s, a, reply) || Fails(s, a, reply)
  }

  lemma StepLeavesRow(s: Sys, a: Action, maxLength: nat, id: nat)
    requires Inv(s) && Enabled(s, a) && id in s.db.messages && !Touches(s, a, maxLength, id)
    ensures id in Step(s, a, maxLength).db.messages
    ensures Step(s, a, maxLength).db.messages[id] == s.db.messages[id]
  {
    hide MessagesInv, ByClient;
    match a
    case Send(r, g) =>
      PrepareEffect(s.db, r, maxLength);
      hide PrepareStep;
    case Succeed(g, content, providerId, usage, metadata, now) => FinishingIsLocal(s, a, maxLength);
    case Fail(g, partial, code) => FinishingIsLocal(s, a, maxLength);
    case Crash(g) =>
    case CreateConversation(c, userId) =>
    case Archive(c) =>
  }

  /** Over whole runs, a row stays as it is until a generation of it starts, completes or fails. */
  lemma {:induction false} UntouchedRowStays(
      states: seq<Sys>, run: seq<Action>, maxLength: nat, i: nat, j: nat, id: nat)
    requires IsRun(states, run, maxLength) && i <= j <= |run| && id in states[i].db.messages
    requires forall k :: i <= k < j ==> !Touches(states[k], run[k], maxLength, id)
    ensures id in states[j].db.messages && states[j].db.messages[id] == states[i].db.messages[id]
    decreases j - i
  {
    hide Step, Inv, Touches;
    if i < j {
      UntouchedRowStays(states, run, maxLength, i, j - 1, id);
      assert Next(states[j - 1], run[j - 1], states[j], maxLength);
      ReachableInv(states, run, maxLength, j - 1);
      StepLeavesRow(states[j - 1], run[j - 1], maxLength, id);
    }
  }

  /** A failed reply keeps the partial text and the error code until it is generated again. */
  lemma FailureIsKept(states: seq<Sys>, run: seq<Action>, maxLength: nat, i: nat, j: nat, reply: nat)
    requires IsRun(states, run, maxLength) && i < j <= |run| && Fails(states[i], run[i], reply)
    requires forall k :: i < k < j ==> !Starts(states[k], run[k], maxLength, reply)
    ensures reply in states[j].db.messages
    ensures var m := states[j].db.messages[reply];
            && m.status == Failed && m.content == run[i].partial
            && m.metadata == map["error_code" := Text(run[i].code)]
    decreases j - i
  {
    hide Step, MessagesInv, Starts;
    assert Next(states[j - 1], run[j - 1], states[j], maxLength);
    ReachableInv(states, run, maxLength, j - 1);
    if i + 1 == j {
      FinishingIsLocal(states[i], run[i], maxLength);
    } else {
      FailureIsKept(states, run, maxLength, i, j - 1, reply);
      StepLeavesRow(states[j - 1], run[j - 1], maxLength, reply);
    }
  }

  // ---------------------------------------------------------------- where messages come from

  /** The action is the send that created this user message. */
  ghost predicate Sent(s: Sys, a: Action, maxLength: nat, u: nat, m: Message) {
    && a.Send? && Admissible(s.db, a.request, maxLength)
    && PrepareStep(s.db, a.request, maxLength).1 == Generate(u, a.request.newReplyId, false)
    && m.conversationId == a.request.conversationId
    && m.content == a.request.content && m.clientId == Some(a.request.clientId) && m.createdAt == a.request.now
  }

  lemma NewUserMessageWasSent(s: Sys, a: Action, maxLength: nat, u: nat)
    requires Inv(s) && Enabled(s, a) && u !in s.db.messages
    requires u in Step(s, a, maxLength).db.messages && Step(s, a, maxLength).db.messages[u].role == User
    ensures Sent(s, a, maxLength, u, Step(s, a, maxLength).db.messages[u])
  {
    match a
    case Send(r, g) =>
      PrepareEffect(s.db, r, maxLength);
      InadmissibleIsRefused(s.db, r, maxLength);
    case Succeed(g, content, providerId, usage, metadata, now) => FinishingIsLocal(s, a, maxLength);
    case Fail(g, partial, code) => FinishingIsLocal(s, a, maxLength);
    case Crash(g) =>
    case CreateConversation(c, userId) =>
    case Archive(c) =>
  }

  lemma {:induction false} MessageWasSent(
      states: seq<Sys>, run: seq<Action>, maxLength: nat, k: nat, u: nat) returns (i: nat)
    requires IsRun(states, run, maxLength) && k <= |run|
    requires u in states[k].db.messages && states[k].db.messages[u].role == User
    ensures i < k && Sent(states[i], run[i], maxLength, u, states[k].db.messages[u])
  {
    assert k > 0;
    i := k - 1;
    assert Next(states[i], run[i], states[k], maxLength);
    ReachableInv(states, run, maxLength, i);
    if u in states[i].db.messages {
      StepEvolves(states[i], run[i], maxLength);
      assert RowEvolves(states[i].db.messages[u], states[k].db.messages[u]);
      i := MessageWasSent(states, run, maxLength, i, u);
    } else {
      NewUserMessageWasSent(states[i], run[i], maxLength, u);
    }
  }

  /** Conversations stay, and so do their owners. */
  ghost predicate OwnersStay(before: map<nat, Conversation>, after: map<nat, Conversation>) {
    forall c :: c in before ==> c in after && after[c].userId == before[c].userId
  }

  lemma StepKeepsOwners(s: Sys, a: Action, maxLength: nat)
    requires Inv(s) && Enabled(s, a)
    ensures OwnersStay(s.db.conversations, Step(s, a, maxLength).db.conversations)
  {
    match a
    case Send(r, g) => AcceptedSendTouchesItsConversation(s.db, r, maxLength);
    case Succeed(g, content, providerId, usage, metadata, now) => FinishingIsLocal(s, a, maxLength);
    case Fail(g, partial, code) => FinishingIsLocal(s, a, maxLength);
    case Crash(g) =>
    case CreateConversation(c, userId) =>
    case Archive(c) =>
  }

  lemma {:induction false} OwnersStayOverRuns(states: seq<Sys>, run: seq<Action>, maxLength: nat, i: nat, j: nat)
    requires IsRun(states, run, maxLength) && i <= j <= |run|
    ensures OwnersStay(states[i].db.conversations, states[j].db.conversations)
    decreases j - i
  {
    if i < j {
      OwnersStayOverRuns(states, run, maxLength, i, j - 1);
      assert Next(states[j - 1], run[j - 1], states[j], maxLength);
      ReachableInv(states, run, maxLength, j - 1);
      StepKeepsOwners(states[j - 1], run[j - 1], maxLength);
    }
  }

  /** In every reachable state, each user message was sent by the owner of its conversation, with
      this very text and client id. */
  lemma EveryMessageIsItsOwners(
      states: seq<Sys>, run: seq<Action>, maxLength: nat, k: nat, u: nat) returns (i: nat)
    requires IsRun(states, run, maxLength) && k <= |run|
    requires u in states[k].db.messages && states[k].db.messages[u].role == User
    ensures i < k && Sent(states[i], run[i], maxLength, u, states[k].db.messages[u])
    ensures var m := states[k].db.messages[u];
            && m.conversationId in states[k].db.conversations
            && states[k].db.conversations[m.conversationId].userId == run[i].request.userId
  {
    i := MessageWasSent(states, run, maxLength, k, u);
    OwnersStayOverRuns(states, run, maxLength, i, k);
  }
}
