/** The idempotent chat exchange (backend/app/domains/chat/service.py): a prepare transaction
    under the conversation lock, generation outside of any transaction, and a finalizing
    transaction. Many requests run at once; each transaction is one atomic step. */
module ChatExchange {
  import opened Common
  import opened Llm
  import PyText

  datatype Status = Pending | Streaming | Completed | Failed

  datatype Message = Message(
    conversationId: nat,
    parentId: Option<nat>,
    clientId: Option<nat>,
    role: Role,
    content: string,
    status: Status,
    providerMessageId: Option<string>,
    tokenUsage: Option<LLMUsage>,
    metadata: Metadata,
    createdAt: int)

  datatype Conversation = Conversation(
    userId: nat, archived: bool, title: Option<string>, lastMessageAt: Option<int>)

  datatype Db = Db(conversations: map<nat, Conversation>, messages: map<nat, Message>)

  /** One call of `send_message` or `start_stream`, with the identifiers and the time that the
      operation draws, and whether the context assembler delivers any message. */
  datatype SendRequest = SendRequest(
    userId: nat, conversationId: nat, clientId: nat, content: string, streaming: bool,
    newUserMessageId: nat, newReplyId: nat, now: int, contextAssembled: bool)

  datatype Rejection =
    | MessageTooLong | ConversationNotFound | RequestInProgress | MultipleRows | ContextFailed

  datatype Prepared =
    | Rejected(reason: Rejection)
    | Replayed(userMessageId: nat, replyId: nat)
    | Generate(userMessageId: nat, replyId: nat, reused: bool)

  // ---------------------------------------------------------------- rows

  function NewUserMessage(r: SendRequest): Message {
    Message(r.conversationId, None, Some(r.clientId), User, r.content, Completed, None, None, map[], r.now)
  }

  function OpenStatus(streaming: bool): Status {
    if streaming then Streaming else Pending
  }

  function NewReply(r: SendRequest, userMessageId: nat): Message {
    Message(r.conversationId, Some(userMessageId), None, Assistant, "", OpenStatus(r.streaming),
            None, None, map[], r.now + 1)
  }

  function Reopened(m: Message, streaming: bool): Message {
    m.(content := "", status := OpenStatus(streaming), providerMessageId := None,
       tokenUsage := None, metadata := map[])
  }

  predicate Open(m: Message) {
    m.status == Pending || m.status == Streaming
  }

  /** `_derive_title` */
  function DeriveTitle(content: string): string {
    var collapsed := PyText.Normalize(content);
    if |collapsed| <= 72 then collapsed else PyText.RStrip(collapsed[..69]) + "..."
  }

  /** A derived title has at most 72 characters: the normalized text itself, or its first 69
      characters without the white space they may end in, and three dots. */
  lemma TitleIsStart(content: string) returns (kept: nat)
    ensures |DeriveTitle(content)| <= 72
    ensures var text := PyText.Normalize(content);
            if |text| <= 72 then DeriveTitle(content) == text
            else
              && kept <= 69
              && DeriveTitle(content) == text[..kept] + "..."
              && PyText.Blank(text[kept..69])
              && (kept > 0 ==> !PyText.IsSpace(text[kept - 1]))
  {
    var text := PyText.Normalize(content);
    kept := 0;
    if |text| > 72 {
      PyText.RStripIsPrefix(text[..69]);
      kept := |PyText.RStrip(text[..69])|;
      assert PyText.RStrip(text[..69]) == text[..69][..kept] == text[..kept];
      assert text[..69][kept..] == text[kept..69];
    }
  }

  /** The keys whose value is not null. */
  function DropNulls(m: Metadata): Metadata {
    map k | k in m && m[k] != Null :: m[k]
  }

  /** Rows found by conversation and client id, and the replies to one user message. */
  function ByClient(messages: map<nat, Message>, conversationId: nat, clientId: nat): set<nat> {
    set id | id in messages && messages[id].conversationId == conversationId
             && messages[id].clientId == Some(clientId)
  }

  function RepliesTo(messages: map<nat, Message>, userMessageId: nat): set<nat> {
    set id | id in messages && messages[id].parentId == Some(userMessageId)
             && messages[id].role == Assistant
  }

  // ---------------------------------------------------------------- transactions on values

  /** The conversation row after a message was accepted. */
  function Touched(c: Conversation, content: string, now: int): Conversation {
    c.(title := if c.title.None? then Some(DeriveTitle(content)) else c.title,
       lastMessageAt := Some(now))
  }

  /** `_prepare_exchange`: rejected and replayed requests leave the database as it was. */
  ghost function PrepareStep(db: Db, r: SendRequest, maxLength: nat): (Db, Prepared) {
    if |r.content| > maxLength then (db, Rejected(MessageTooLong))
    else if r.conversationId !in db.conversations
         || db.conversations[r.conversationId].userId != r.userId
         || db.conversations[r.conversationId].archived then (db, Rejected(ConversationNotFound))
    else
      var existing := ByClient(db.messages, r.conversationId, r.clientId);
      if |existing| > 1 then (db, Rejected(MultipleRows))
      else if |existing| == 0 then
        Commit(db, r, db.messages[r.newUserMessageId := NewUserMessage(r)]
                                 [r.newReplyId := NewReply(r, r.newUserMessageId)],
               Generate(r.newUserMessageId, r.newReplyId, false))
      else
        var user := TheOnly(existing);
        var replies := RepliesTo(db.messages, user);
        if |replies| > 1 then (db, Rejected(MultipleRows))
        else if |replies| == 0 then
          Commit(db, r, db.messages[r.newReplyId := NewReply(r, user)], Generate(user, r.newReplyId, true))
        else
          var reply := TheOnly(replies);
          if db.messages[reply].status == Completed then (db, Replayed(user, reply))
          else if Open(db.messages[reply]) then (db, Rejected(RequestInProgress))
          else Commit(db, r, db.messages[reply := Reopened(db.messages[reply], r.streaming)],
                      Generate(user, reply, true))
  }

  /** The common end of an accepted request; a failing context assembly rolls everything back. */
  function Commit(db: Db, r: SendRequest, messages: map<nat, Message>, prepared: Prepared): (Db, Prepared)
    requires r.conversationId in db.conversations
  {
    if !r.contextAssembled then (db, Rejected(ContextFailed))
    else
      var c := db.conversations[r.conversationId];
      (Db(db.conversations[r.conversationId := Touched(c, r.content, r.now)], messages), prepared)
  }

  function Succeeded(
      m: Message, content: string, providerId: Option<string>, usage: Option<LLMUsage>, metadata: Metadata)
      : Message
  {
    m.(content := content, status := Completed, providerMessageId := providerId,
       tokenUsage := usage, metadata := DropNulls(metadata))
  }

  function Broken(m: Message, partial: string, code: string): Message {
    m.(content := partial, status := Failed, metadata := map["error_code" := Text(code)])
  }

  /** `_finalize_success` on an existing reply */
  function SuccessStep(
      db: Db, id: nat, content: string, providerId: Option<string>, usage: Option<LLMUsage>,
      metadata: Metadata, now: int) : Db
    requires id in db.messages
  {
    var m := Succeeded(db.messages[id], content, providerId, usage, metadata);
    var conversations :=
      if m.conversationId in db.conversations then
        db.conversations[m.conversationId := db.conversations[m.conversationId].(lastMessageAt := Some(now))]
      else db.conversations;
    Db(conversations, db.messages[id := m])
  }

  /** `_finalize_failure`: a reply that is gone is left alone. */
  function FailureStep(db: Db, id: nat, partial: string, code: string): Db {
    if id !in db.messages then db
    else db.(messages := db.messages[id := Broken(db.messages[id], partial, code)])
  }

  // ---------------------------------------------------------------- the system

  /** The database and the generations in flight, each with the reply it works on. */
  datatype Sys = Sys(db: Db, inFlight: map<nat, nat>)

  datatype Action =
    | Send(request: SendRequest, generation: nat)
    | Succeed(generation: nat, content: string, providerId: Option<string>,
              usage: Option<LLMUsage>, metadata: Metadata, now: int)
    | Fail(generation: nat, partial: string, code: string)
    | Crash(generation: nat)
    | CreateConversation(id: nat, userId: nat)
    | Archive(id: nat)

  ghost predicate Enabled(s: Sys, a: Action) {
    match a
    case Send(r, g) =>
      && g !in s.inFlight
      && r.newUserMessageId !in s.db.messages
      && r.newReplyId !in s.db.messages
      && r.newUserMessageId != r.newReplyId
    case Succeed(g, _, _, _, _, _) => g in s.inFlight && s.inFlight[g] in s.db.messages
    case Fail(g, _, _) => g in s.inFlight
    case Crash(g) => g in s.inFlight
    case CreateConversation(id, _) => id !in s.db.conversations
    case Archive(id) => id in s.db.conversations
  }

  ghost function Step(s: Sys, a: Action, maxLength: nat): Sys
    requires Enabled(s, a)
  {
    match a
    case Send(r, g) =>
      var after := PrepareStep(s.db, r, maxLength);
      if after.1.Generate? then Sys(after.0, s.inFlight[g := after.1.replyId]) else s
    case Succeed(g, content, providerId, usage, metadata, now) =>
      Sys(SuccessStep(s.db, s.inFlight[g], content, providerId, usage, metadata, now), s.inFlight - {g})
    case Fail(g, partial, code) =>
      Sys(FailureStep(s.db, s.inFlight[g], partial, code), s.inFlight - {g})
    case Crash(g) => s.(inFlight := s.inFlight - {g})
    case CreateConversation(id, userId) =>
      s.(db := s.db.(conversations := s.db.conversations[id := Conversation(userId, false, None, None)]))
    case Archive(id) =>
      s.(db := s.db.(conversations := s.db.conversations[id := s.db.conversations[id].(archived := true)]))
  }

  ghost predicate Next(s: Sys, a: Action, s': Sys, maxLength: nat) {
    Enabled(s, a) && s' == Step(s, a, maxLength)
  }

  const EMPTY := Sys(Db(map[], map[]), map[])

  ghost predicate IsRun(states: seq<Sys>, run: seq<Action>, maxLength: nat) {
    && |states| == |run| + 1
    && states[0] == EMPTY
    && forall k :: 0 <= k < |run| ==> Next(states[k], run[k], states[k + 1], maxLength)
  }

  // ---------------------------------------------------------------- invariant

  /** A user message carries its client id and is complete; an assistant message answers a user
      message of its own conversation. There are no other rows. */
  ghost predicate WellFormed(messages: map<nat, Message>, id: nat)
    requires id in messages
  {
    var m := messages[id];
    if m.role == User then m.clientId.Some? && m.parentId.None? && m.status == Completed
    else
      && m.role == Assistant && m.clientId.None?
      && m.parentId.Some? && m.parentId.value in messages
      && messages[m.parentId.value].role == User
      && messages[m.parentId.value].conversationId == m.conversationId
  }

  ghost predicate RowsWellFormed(messages: map<nat, Message>) {
    forall id :: id in messages ==> WellFormed(messages, id)
  }

  ghost predicate ClientIdsUnique(messages: map<nat, Message>) {
    forall a, b ::
      (&& a in messages && b in messages
       && messages[a].role == User && messages[b].role == User
       && messages[a].conversationId == messages[b].conversationId
       && messages[a].clientId == messages[b].clientId) ==> a == b
  }

  ghost predicate RepliesUnique(messages: map<nat, Message>) {
    forall a, b ::
      (&& a in messages && b in messages
       && messages[a].role == Assistant && messages[b].role == Assistant
       && messages[a].parentId == messages[b].parentId) ==> a == b
  }

  ghost predicate Answered(messages: map<nat, Message>, user: nat) {
    exists id :: id in messages && messages[id].role == Assistant && messages[id].parentId == Some(user)
  }

  ghost predicate AllAnswered(messages: map<nat, Message>) {
    forall u :: u in messages && messages[u].role == User ==> Answered(messages, u)
  }

  ghost predicate MessagesInv(messages: map<nat, Message>) {
    RowsWellFormed(messages) && ClientIdsUnique(messages) && RepliesUnique(messages) && AllAnswered(messages)
  }

  /** A generation in flight works on an open reply that no other generation works on. */
  ghost predicate FlightsInv(messages: map<nat, Message>, inFlight: map<nat, nat>) {
    && (forall g :: g in inFlight ==>
          inFlight[g] in messages && messages[inFlight[g]].role == Assistant && Open(messages[inFlight[g]]))
    && (forall g, h :: g in inFlight && h in inFlight && inFlight[g] == inFlight[h] ==> g == h)
  }

  ghost predicate Inv(s: Sys) {
    MessagesInv(s.db.messages) && FlightsInv(s.db.messages, s.inFlight)
  }

  /** A reply changes its status and payload, and keeps its place in the conversation. */
  ghost predicate SamePlace(m: Message, m': Message) {
    && m'.role == m.role && m'.parentId == m.parentId && m'.clientId == m.clientId
    && m'.conversationId == m.conversationId && m'.createdAt == m.createdAt
  }

  lemma UpdatingReplyKeepsMessages(messages: map<nat, Message>, id: nat, m: Message)
    requires MessagesInv(messages) && id in messages
    requires messages[id].role == Assistant && SamePlace(messages[id], m)
    ensures MessagesInv(messages[id := m])
  {
    var messages' := messages[id := m];
    forall x | x in messages' ensures WellFormed(messages', x) {
      assert WellFormed(messages, x);
    }
    forall u | u in messages' && messages'[u].role == User ensures Answered(messages', u) {
      assert Answered(messages, u);
      var a :| a in messages && messages[a].role == Assistant && messages[a].parentId == Some(u);
      assert messages'[a].parentId == Some(u);
    }
  }

  lemma AddingExchangeKeepsMessages(messages: map<nat, Message>, r: SendRequest)
    requires MessagesInv(messages)
    requires r.newUserMessageId !in messages && r.newReplyId !in messages
    requires r.newUserMessageId != r.newReplyId
    requires ByClient(messages, r.conversationId, r.clientId) == {}
    ensures MessagesInv(messages[r.newUserMessageId := NewUserMessage(r)]
                                [r.newReplyId := NewReply(r, r.newUserMessageId)])
  {
    AddingExchangeKeepsRows(messages, r);
    AddingExchangeKeepsUnique(messages, r);
    AddingExchangeKeepsAnswers(messages, r);
  }

  lemma AddingExchangeKeepsRows(messages: map<nat, Message>, r: SendRequest)
    requires RowsWellFormed(messages)
    requires r.newUserMessageId !in messages && r.newReplyId !in messages
    requires r.newUserMessageId != r.newReplyId
    ensures RowsWellFormed(messages[r.newUserMessageId := NewUserMessage(r)]
                                   [r.newReplyId := NewReply(r, r.newUserMessageId)])
  {
    var u, a := r.newUserMessageId, r.newReplyId;
    var messages' := messages[u := NewUserMessage(r)][a := NewReply(r, u)];
    forall x | x in messages' ensures WellFormed(messages', x) {
      assert x in messages ==> WellFormed(messages, x);
    }
  }

  lemma AddingExchangeKeepsUnique(messages: map<nat, Message>, r: SendRequest)
    requires RowsWellFormed(messages) && ClientIdsUnique(messages) && RepliesUnique(messages)
    requires r.newUserMessageId !in messages && r.newReplyId !in messages
    requires r.newUserMessageId != r.newReplyId
    requires ByClient(messages, r.conversationId, r.clientId) == {}
    ensures var messages' := messages[r.newUserMessageId := NewUserMessage(r)]
                                     [r.newReplyId := NewReply(r, r.newUserMessageId)];
            ClientIdsUnique(messages') && RepliesUnique(messages')
  {
    forall x | x in messages && messages[x].role == User
      ensures !(messages[x].conversationId == r.conversationId && messages[x].clientId == Some(r.clientId))
    {
      assert x !in ByClient(messages, r.conversationId, r.clientId);
    }
    forall x | x in messages && messages[x].role == Assistant
      ensures messages[x].parentId != Some(r.newUserMessageId)
    {
      assert WellFormed(messages, x);
    }
  }

  lemma AddingExchangeKeepsAnswers(messages: map<nat, Message>, r: SendRequest)
    requires AllAnswered(messages)
    requires r.newUserMessageId !in messages && r.newReplyId !in messages
    requires r.newUserMessageId != r.newReplyId
    ensures AllAnswered(messages[r.newUserMessageId := NewUserMessage(r)]
                                [r.newReplyId := NewReply(r, r.newUserMessageId)])
  {
    var u, a := r.newUserMessageId, r.newReplyId;
    var messages' := messages[u := NewUserMessage(r)][a := NewReply(r, u)];
    forall x | x in messages' && messages'[x].role == User ensures Answered(messages', x) {
      if x == u {
        assert messages'[a].parentId == Some(u);
      } else {
        assert Answered(messages, x);
        var y :| y in messages && messages[y].role == Assistant && messages[y].parentId == Some(x);
        assert messages'[y].parentId == Some(x);
      }
    }
  }

  /** The lookups of a well-formed table: at most one row per client id, exactly one reply. */
  lemma Lookups(messages: map<nat, Message>, conversationId: nat, clientId: nat)
    requires MessagesInv(messages)
    ensures var existing := ByClient(messages, conversationId, clientId);
            && |existing| <= 1
            && (|existing| == 1 ==>
                  && messages[TheOnly(existing)].role == User
                  && |RepliesTo(messages, TheOnly(existing))| == 1)
  {
    var existing := ByClient(messages, conversationId, clientId);
    forall id | id in existing ensures messages[id].role == User {
      assert WellFormed(messages, id);
    }
    AtMostOne(existing);
    if |existing| == 1 {
      var u := TheOnly(existing);
      assert u in existing;
      var replies := RepliesTo(messages, u);
      AtMostOne(replies);
      assert Answered(messages, u);
      var a :| a in messages && messages[a].role == Assistant && messages[a].parentId == Some(u);
      assert a in replies;
    }
  }

  /** The missing-reply branch of `_prepare_exchange`. */
  ghost predicate TakesMissingReplyBranch(db: Db, r: SendRequest) {
    var existing := ByClient(db.messages, r.conversationId, r.clientId);
    |existing| == 1 && RepliesTo(db.messages, TheOnly(existing)) == {}
  }

  /** What an accepted request does to the message table when the invariant holds: it either
      adds one exchange, or reopens the failed reply of the message that is already there. */
  lemma PrepareEffect(db: Db, r: SendRequest, maxLength: nat)
    requires MessagesInv(db.messages)
    ensures !TakesMissingReplyBranch(db, r)
    ensures PrepareStep(db, r, maxLength).1 != Rejected(MultipleRows)
    ensures var after := PrepareStep(db, r, maxLength);
            match after.1
            case Generate(u, a, reused) =>
              if reused then
                && u in db.messages && a in db.messages
                && db.messages[u].role == User
                && db.messages[a].role == Assistant && db.messages[a].parentId == Some(u)
                && db.messages[a].status == Failed
                && u in ByClient(db.messages, r.conversationId, r.clientId)
                && after.0.messages == db.messages[a := Reopened(db.messages[a], r.streaming)]
              else
                && u == r.newUserMessageId && a == r.newReplyId
                && ByClient(db.messages, r.conversationId, r.clientId) == {}
                && after.0.messages == db.messages[u := NewUserMessage(r)][a := NewReply(r, u)]
            case Replayed(u, a) =>
              && after.0 == db
              && a in db.messages && db.messages[a].status == Completed
              && db.messages[a].role == Assistant && db.messages[a].parentId == Some(u)
              && u in ByClient(db.messages, r.conversationId, r.clientId)
            case Rejected(_) => after.0 == db
  {
    Lookups(db.messages, r.conversationId, r.clientId);
    var existing := ByClient(db.messages, r.conversationId, r.clientId);
    if |existing| == 1 {
      var u := TheOnly(existing);
      assert u in existing;
      var replies := RepliesTo(db.messages, u);
      assert TheOnly(replies) in replies;
    }
  }

  /** Starting a generation on a reply that was not open before. */
  lemma StartingKeepsFlights(
      messages: map<nat, Message>, messages': map<nat, Message>, inFlight: map<nat, nat>, g: nat, a: nat)
    requires FlightsInv(messages, inFlight) && g !in inFlight
    requires forall id :: id in messages && id != a ==> id in messages' && messages'[id] == messages[id]
    requires a in messages ==> !Open(messages[a])
    requires a in messages' && messages'[a].role == Assistant && Open(messages'[a])
    ensures FlightsInv(messages', inFlight[g := a])
  {
  }

  lemma SendKeepsInv(s: Sys, r: SendRequest, g: nat, maxLength: nat)
    requires Inv(s) && Enabled(s, Send(r, g))
    ensures Inv(Step(s, Send(r, g), maxLength))
  {
    hide PrepareStep, MessagesInv, FlightsInv, ByClient;
    PrepareEffect(s.db, r, maxLength);
    var after := PrepareStep(s.db, r, maxLength);
    if after.1.Generate? {
      var a := after.1.replyId;
      if after.1.reused {
        UpdatingReplyKeepsMessages(s.db.messages, a, Reopened(s.db.messages[a], r.streaming));
      } else {
        AddingExchangeKeepsMessages(s.db.messages, r);
      }
      StartingKeepsFlights(s.db.messages, after.0.messages, s.inFlight, g, a);
    }
  }

  /** Every step keeps the invariant. */
  lemma StepKeepsInv(s: Sys, a: Action, maxLength: nat)
    requires Inv(s) && Enabled(s, a)
    ensures Inv(Step(s, a, maxLength))
  {
    match a
    case Send(r, g) => SendKeepsInv(s, r, g, maxLength);
    case Succeed(g, content, providerId, usage, metadata, now) =>
      FinishingKeepsInv(s, g, Succeeded(s.db.messages[s.inFlight[g]], content, providerId, usage, metadata));
    case Fail(g, partial, code) =>
      FinishingKeepsInv(s, g, Broken(s.db.messages[s.inFlight[g]], partial, code));
    case Crash(g) =>
      LandingKeepsFlights(s.db.messages, s.inFlight, g);
    case CreateConversation(id, userId) =>
    case Archive(id) =>
  }

  lemma LandingKeepsFlights(messages: map<nat, Message>, inFlight: map<nat, nat>, g: nat)
    requires FlightsInv(messages, inFlight)
    ensures FlightsInv(messages, inFlight - {g})
  {
  }

  /** A generation that ends takes its reply with it. */
  lemma FinishingKeepsInv(s: Sys, g: nat, m: Message)
    requires Inv(s) && g in s.inFlight && SamePlace(s.db.messages[s.inFlight[g]], m)
    ensures MessagesInv(s.db.messages[s.inFlight[g] := m])
    ensures FlightsInv(s.db.messages[s.inFlight[g] := m], s.inFlight - {g})
  {
    UpdatingReplyKeepsMessages(s.db.messages, s.inFlight[g], m);
  }

  lemma {:induction false} ReachableInv(states: seq<Sys>, run: seq<Action>, maxLength: nat, k: nat)
    requires IsRun(states, run, maxLength) && k <= |run|
    ensures Inv(states[k])
  {
    if k > 0 {
      ReachableInv(states, run, maxLength, k - 1);
      assert Next(states[k - 1], run[k - 1], states[k], maxLength);
      StepKeepsInv(states[k - 1], run[k - 1], maxLength);
    }
  }

  /** Safety over every interleaving: one user message per client id, one reply per user
      message, the missing-reply branch never taken, and at most one generation per reply,
      which then is pending or streaming. */
  lemma ExchangesAreUnique(
      states: seq<Sys>, run: seq<Action>, maxLength: nat, k: nat, r: SendRequest, g: nat, h: nat)
    requires IsRun(states, run, maxLength) && k <= |run|
    ensures var db := states[k].db;
            var existing := ByClient(db.messages, r.conversationId, r.clientId);
            && |existing| <= 1
            && (|existing| == 1 ==> |RepliesTo(db.messages, TheOnly(existing))| == 1)
            && !TakesMissingReplyBranch(db, r)
            && PrepareStep(db, r, maxLength).1 != Rejected(MultipleRows)
    ensures var s := states[k];
            g in s.inFlight ==>
              && s.inFlight[g] in s.db.messages && Open(s.db.messages[s.inFlight[g]])
              && (h in s.inFlight && s.inFlight[h] == s.inFlight[g] ==> g == h)
  {
    ReachableInv(states, run, maxLength, k);
    Lookups(states[k].db.messages, r.conversationId, r.clientId);
    PrepareEffect(states[k].db, r, maxLength);
  }

  // ---------------------------------------------------------------- whole runs

  /** What every step does to a row that is already there. */
  ghost predicate RowEvolves(m: Message, m': Message) {
    && SamePlace(m, m')
    && (m.role == User ==> m' == m)
    && (m.status == Completed ==> m' == m)
  }

  ghost predicate Evolves(messages: map<nat, Message>, messages': map<nat, Message>) {
    forall id :: id in messages ==> id in messages' && RowEvolves(messages[id], messages'[id])
  }

  lemma StepEvolves(s: Sys, a: Action, maxLength: nat)
    requires Inv(s) && Enabled(s, a)
    ensures Evolves(s.db.messages, Step(s, a, maxLength).db.messages)
  {
    hide PrepareStep, MessagesInv;
    match a
    case Send(r, g) => SendEvolves(s.db, r, maxLength);
    case Succeed(g, content, providerId, usage, metadata, now) =>
      var id := s.inFlight[g];
      UpdatingEvolves(s.db.messages, id, Succeeded(s.db.messages[id], content, providerId, usage, metadata));
    case Fail(g, partial, code) =>
      var id := s.inFlight[g];
      UpdatingEvolves(s.db.messages, id, Broken(s.db.messages[id], partial, code));
    case Crash(g) =>
    case CreateConversation(id, userId) =>
    case Archive(id) =>
  }

  lemma SendEvolves(db: Db, r: SendRequest, maxLength: nat)
    requires MessagesInv(db.messages)
    requires r.newUserMessageId !in db.messages && r.newReplyId !in db.messages
    ensures Evolves(db.messages, PrepareStep(db, r, maxLength).0.messages)
  {
    hide PrepareStep, MessagesInv, ByClient;
    PrepareEffect(db, r, maxLength);
    var after := PrepareStep(db, r, maxLength);
    if after.1.Generate? && after.1.reused {
      var reply := after.1.replyId;
      UpdatingEvolves(db.messages, reply, Reopened(db.messages[reply], r.streaming));
    }
  }

  lemma UpdatingEvolves(messages: map<nat, Message>, id: nat, m: Message)
    requires id in messages && messages[id].role != User && messages[id].status != Completed
    requires SamePlace(messages[id], m)
    ensures Evolves(messages, messages[id := m])
  {
  }

  /** User messages and completed replies never change again; no row moves or disappears. */
  lemma {:induction false} RunEvolves(
      states: seq<Sys>, run: seq<Action>, maxLength: nat, i: nat, j: nat)
    requires IsRun(states, run, maxLength) && i <= j <= |run|
    ensures Evolves(states[i].db.messages, states[j].db.messages)
    decreases j - i
  {
    if i < j {
      RunEvolves(states, run, maxLength, i, j - 1);
      assert Next(states[j - 1], run[j - 1], states[j], maxLength);
      ReachableInv(states, run, maxLength, j - 1);
      StepEvolves(states[j - 1], run[j - 1], maxLength);
      EvolvesTransitive(states[i].db.messages, states[j - 1].db.messages, states[j].db.messages);
    }
  }

  lemma EvolvesTransitive(a: map<nat, Message>, b: map<nat, Message>, c: map<nat, Message>)
    requires Evolves(a, b) && Evolves(b, c)
    ensures Evolves(a, c)
  {
    forall id | id in a ensures id in c && RowEvolves(a[id], c[id]) {
      assert RowEvolves(a[id], b[id]) && RowEvolves(b[id], c[id]);
    }
  }

  /** The owner may send to this conversation, and the text is not too long. */
  predicate Admissible(db: Db, r: SendRequest, maxLength: nat) {
    && |r.content| <= maxLength
    && r.conversationId in db.conversations
    && db.conversations[r.conversationId].userId == r.userId
    && !db.conversations[r.conversationId].archived
  }

  /** Once a reply is complete, every later send with its client id gets that very row back:
      no generation starts and nothing changes, for the rest of the run. */
  lemma CompletedIsReplayed(
      states: seq<Sys>, run: seq<Action>, maxLength: nat, i: nat, j: nat,
      u: nat, a: nat, r: SendRequest)
    requires IsRun(states, run, maxLength) && i <= j <= |run|
    requires u in states[i].db.messages && a in states[i].db.messages
    requires states[i].db.messages[u].clientId == Some(r.clientId)
    requires states[i].db.messages[u].conversationId == r.conversationId
    requires states[i].db.messages[a].role == Assistant && states[i].db.messages[a].parentId == Some(u)
    requires states[i].db.messages[a].status == Completed
    requires Admissible(states[j].db, r, maxLength)
    ensures PrepareStep(states[j].db, r, maxLength) == (states[j].db, Replayed(u, a))
    ensures a in states[j].db.messages && states[j].db.messages[a] == states[i].db.messages[a]
  {
    RunEvolves(states, run, maxLength, i, j);
    var before, messages := states[i].db.messages, states[j].db.messages;
    assert RowEvolves(before[a], messages[a]) && RowEvolves(before[u], messages[u]);
    ReachableInv(states, run, maxLength, j);
    Lookups(messages, r.conversationId, r.clientId);
    assert u in ByClient(messages, r.conversationId, r.clientId);
    OnlyOne(ByClient(messages, r.conversationId, r.clientId), u);
    assert a in RepliesTo(messages, u);
    OnlyOne(RepliesTo(messages, u), a);
  }

  /** Only a failed reply is ever regenerated, in its own row; every other row, and with it the
      text of the first request, stays as it is. */
  lemma OnlyFailedIsRegenerated(
      states: seq<Sys>, run: seq<Action>, maxLength: nat, k: nat, r: SendRequest, u: nat, a: nat)
    requires IsRun(states, run, maxLength) && k <= |run|
    requires PrepareStep(states[k].db, r, maxLength).1 == Generate(u, a, true)
    ensures u in ByClient(states[k].db.messages, r.conversationId, r.clientId)
    ensures a in RepliesTo(states[k].db.messages, u) && states[k].db.messages[a].status == Failed
    ensures var after := PrepareStep(states[k].db, r, maxLength).0.messages;
            && after.Keys == states[k].db.messages.Keys
            && SamePlace(states[k].db.messages[a], after[a])
            && after[a].status == (if r.streaming then Streaming else Pending)
            && after[a].content == "" && after[a].providerMessageId == None && after[a].tokenUsage == None
            && after[a].metadata == map[]
            && forall id :: id in after && id != a ==> after[id] == states[k].db.messages[id]
  {
    ReachableInv(states, run, maxLength, k);
    PrepareEffect(states[k].db, r, maxLength);
  }

  /** A client id seen for the first time, and no other, gets exactly two new rows. */
  lemma FirstSendAddsTwoRows(
      states: seq<Sys>, run: seq<Action>, maxLength: nat, k: nat, r: SendRequest, u: nat, a: nat)
    requires IsRun(states, run, maxLength) && k <= |run|
    requires u !in states[k].db.messages && a !in states[k].db.messages && u != a
    requires PrepareStep(states[k].db, r, maxLength).1 == Generate(u, a, false)
    ensures ByClient(states[k].db.messages, r.conversationId, r.clientId) == {}
    ensures var before, after := states[k].db.messages, PrepareStep(states[k].db, r, maxLength).0.messages;
            && |after| == |before| + 2
            && u in ByClient(after, r.conversationId, r.clientId) && a in RepliesTo(after, u)
            && after[u] == Message(r.conversationId, None, Some(r.clientId), User, r.content, Completed,
                                   None, None, map[], r.now)
            && after[a] == Message(r.conversationId, Some(u), None, Assistant, "",
                                   if r.streaming then Streaming else Pending, None, None, map[], r.now + 1)
            && forall id :: id in before ==> id in after && after[id] == before[id]
  {
    ReachableInv(states, run, maxLength, k);
    PrepareEffect(states[k].db, r, maxLength);
    TwoNewRows(states[k].db.messages, u, a, NewUserMessage(r), NewReply(r, u));
    NewRowsAreFound(states[k].db.messages, r);
  }

  lemma NewRowsAreFound(messages: map<nat, Message>, r: SendRequest)
    requires r.newUserMessageId !in messages && r.newReplyId !in messages && r.newUserMessageId != r.newReplyId
    ensures var u, a := r.newUserMessageId, r.newReplyId;
            var after := messages[u := NewUserMessage(r)][a := NewReply(r, u)];
            && u in ByClient(after, r.conversationId, r.clientId) && a in RepliesTo(after, u)
            && forall id :: id in messages ==> id in after && after[id] == messages[id]
  {
  }

  lemma TwoNewRows(messages: map<nat, Message>, u: nat, a: nat, m: Message, n: Message)
    requires u !in messages && a !in messages && u != a
    ensures |messages[u := m][a := n]| == |messages| + 2
  {
    var one := messages[u := m];
    assert one.Keys == messages.Keys + {u};
    assert one[a := n].Keys == one.Keys + {a};
  }

  /** The action finishes a generation of this reply successfully. */
  ghost predicate Completes(s: Sys, a: Action, reply: nat) {
    a.Succeed? && a.generation in s.inFlight && s.inFlight[a.generation] == reply
  }

  /** The action starts a generation of this reply. */
  ghost predicate Starts(s: Sys, a: Action, maxLength: nat, reply: nat) {
    a.Send? && PrepareStep(s.db, a.request, maxLength).1.Generate?
    && PrepareStep(s.db, a.request, maxLength).1.replyId == reply
  }

  ghost predicate Fails(s: Sys, a: Action, reply: nat) {
    a.Fail? && a.generation in s.inFlight && s.inFlight[a.generation] == reply
  }

  /** In any run, at most one generation completes a given reply. */
  lemma CompletesAtMostOnce(
      states: seq<Sys>, run: seq<Action>, maxLength: nat, i: nat, j: nat, reply: nat)
    requires IsRun(states, run, maxLength) && i < j < |run|
    requires Completes(states[i], run[i], reply)
    ensures !Completes(states[j], run[j], reply)
  {
    assert Next(states[i], run[i], states[i + 1], maxLength);
    RunEvolves(states, run, maxLength, i + 1, j);
    assert RowEvolves(states[i + 1].db.messages[reply], states[j].db.messages[reply]);
    ReachableInv(states, run, maxLength, j);
  }

  /** An open reply stays open or completes as long as no generation of it fails. */
  lemma StepKeepsOpen(s: Sys, a: Action, maxLength: nat, reply: nat)
    requires Inv(s) && Enabled(s, a) && reply in s.db.messages
    requires s.db.messages[reply].status != Failed && !Fails(s, a, reply)
    ensures reply in Step(s, a, maxLength).db.messages
    ensures Step(s, a, maxLength).db.messages[reply].status != Failed
  {
    match a
    case Send(r, g) => SendKeepsOpen(s.db, r, maxLength, reply);
    case Succeed(g, content, providerId, usage, metadata, now) =>
    case Fail(g, partial, code) =>
    case Crash(g) =>
    case CreateConversation(id, userId) =>
    case Archive(id) =>
  }

  lemma SendKeepsOpen(db: Db, r: SendRequest, maxLength: nat, reply: nat)
    requires MessagesInv(db.messages) && reply in db.messages
    requires r.newUserMessageId !in db.messages && r.newReplyId !in db.messages
    requires db.messages[reply].status != Failed
    ensures var messages := PrepareStep(db, r, maxLength).0.messages;
            reply in messages && messages[reply].status != Failed
  {
    PrepareEffect(db, r, maxLength);
  }

  lemma {:induction false} FailureBetween(
      states: seq<Sys>, run: seq<Action>, maxLength: nat, i: nat, j: nat, reply: nat) returns (k: nat)
    requires IsRun(states, run, maxLength) && i < j <= |run|
    requires reply in states[i].db.messages && states[i].db.messages[reply].status != Failed
    requires reply in states[j].db.messages && states[j].db.messages[reply].status == Failed
    ensures i <= k < j && Fails(states[k], run[k], reply)
    decreases j - i
  {
    assert Next(states[i], run[i], states[i + 1], maxLength);
    if Fails(states[i], run[i], reply) {
      k := i;
    } else {
      ReachableInv(states, run, maxLength, i);
      StepKeepsOpen(states[i], run[i], maxLength, reply);
      k := FailureBetween(states, run, maxLength, i + 1, j, reply);
    }
  }

  /** Between two generations of the same reply lies a failure of it: a client that repeats a
      request never causes a second model call while the first may still succeed. */
  lemma RegenerationNeedsFailure(
      states: seq<Sys>, run: seq<Action>, maxLength: nat, i: nat, j: nat, reply: nat) returns (k: nat)
    requires IsRun(states, run, maxLength) && i < j < |run|
    requires Starts(states[i], run[i], maxLength, reply) && Starts(states[j], run[j], maxLength, reply)
    ensures i < k < j && Fails(states[k], run[k], reply)
  {
    assert Next(states[i], run[i], states[i + 1], maxLength);
    assert Next(states[j], run[j], states[j + 1], maxLength);
    ReachableInv(states, run, maxLength, i);
    PrepareEffect(states[i].db, run[i].request, maxLength);
    RunEvolves(states, run, maxLength, i + 1, j);
    ReachableInv(states, run, maxLength, j);
    PrepareEffect(states[j].db, run[j].request, maxLength);
    k := FailureBetween(states, run, maxLength, i + 1, j, reply);
  }

  /** What the completing generation delivered is what every later state holds. */
  lemma CompletedContentIsFinal(
      states: seq<Sys>, run: seq<Action>, maxLength: nat, i: nat, j: nat, reply: nat)
    requires IsRun(states, run, maxLength) && i < j <= |run|
    requires Completes(states[i], run[i], reply)
    ensures reply in states[j].db.messages
    ensures var m := states[j].db.messages[reply];
            && m.status == Completed
            && m.content == run[i].content
            && m.providerMessageId == run[i].providerId
            && m.tokenUsage == run[i].usage
            && (forall key :: key in m.metadata <==> key in run[i].metadata && run[i].metadata[key] != Null)
            && (forall key :: key in m.metadata ==> m.metadata[key] == run[i].metadata[key])
  {
    assert Next(states[i], run[i], states[i + 1], maxLength);
    RunEvolves(states, run, maxLength, i + 1, j);
    assert RowEvolves(states[i + 1].db.messages[reply], states[j].db.messages[reply]);
  }

  // ---------------------------------------------------------------- abandoned replies

  /** The action is the crash of a generation of this reply. */
  ghost predicate Crashes(s: Sys, a: Action, reply: nat) {
    a.Crash? && a.generation in s.inFlight && s.inFlight[a.generation] == reply
  }

  /** No generation works on this reply. */
  ghost predicate Free(inFlight: map<nat, nat>, reply: nat) {
    forall g :: g in inFlight ==> inFlight[g] != reply
  }

  /** An open reply that no generation works on. */
  ghost predicate Abandoned(s: Sys, reply: nat) {
    && reply in s.db.messages && s.db.messages[reply].role == Assistant && Open(s.db.messages[reply])
    && Free(s.inFlight, reply)
  }

  /** A generation that dies without finalizing leaves its reply open, and nobody works on it. */
  lemma CrashAbandons(s: Sys, a: Action, maxLength: nat, reply: nat)
    requires Inv(s) && Enabled(s, a) && Crashes(s, a, reply)
    ensures Abandoned(Step(s, a, maxLength), reply)
    ensures Step(s, a, maxLength).db == s.db
  {
  }

  /** What a send does to the rows that are open already, and which reply it starts. */
  lemma SendSparesOpen(db: Db, r: SendRequest, maxLength: nat, reply: nat)
    requires MessagesInv(db.messages)
    requires r.newUserMessageId !in db.messages && r.newReplyId !in db.messages
    ensures var after := PrepareStep(db, r, maxLength);
            && (reply in db.messages && Open(db.messages[reply]) ==>
                  && reply in after.0.messages && after.0.messages[reply] == db.messages[reply]
                  && (after.1.Generate? ==> after.1.replyId != reply))
            && (reply in after.0.messages && after.0.messages[reply].role == Assistant
                && Open(after.0.messages[reply]) ==>
                  || (reply in db.messages && db.messages[reply] == after.0.messages[reply])
                  || (after.1.Generate? && after.1.replyId == reply))
  {
    hide PrepareStep, MessagesInv, ByClient;
    PrepareEffect(db, r, maxLength);
  }

  /** No step touches an abandoned reply. */
  lemma StepKeepsAbandoned(s: Sys, a: Action, maxLength: nat, reply: nat)
    requires Inv(s) && Enabled(s, a) && Abandoned(s, reply)
    ensures Abandoned(Step(s, a, maxLength), reply)
    ensures Step(s, a, maxLength).db.messages[reply] == s.db.messages[reply]
  {
    hide PrepareStep, MessagesInv;
    match a
    case Send(r, g) => SendSparesOpen(s.db, r, maxLength, reply);
    case Succeed(g, content, providerId, usage, metadata, now) =>
    case Fail(g, partial, code) =>
    case Crash(g) =>
    case CreateConversation(id, userId) =>
    case Archive(id) =>
  }

  /** Only a crash abandons a reply. */
  lemma OnlyCrashAbandons(s: Sys, a: Action, maxLength: nat, reply: nat)
    requires Inv(s) && Enabled(s, a) && Abandoned(Step(s, a, maxLength), reply)
    ensures Abandoned(s, reply) || Crashes(s, a, reply)
  {
    match a
    case Send(r, g) => SendAbandonsNone(s, r, g, maxLength, reply);
    case Succeed(g, content, providerId, usage, metadata, now) =>
      LandingFrees(s.inFlight, g, reply);
    case Fail(g, partial, code) => LandingFrees(s.inFlight, g, reply);
    case Crash(g) =>
      if s.inFlight[g] != reply {
        LandingFrees(s.inFlight, g, reply);
      }
    case CreateConversation(id, userId) =>
    case Archive(id) =>
  }

  lemma LandingFrees(inFlight: map<nat, nat>, g: nat, reply: nat)
    requires g in inFlight && inFlight[g] != reply && Free(inFlight - {g}, reply)
    ensures Free(inFlight, reply)
  {
    forall h | h in inFlight ensures inFlight[h] != reply {
      if h != g {
        assert h in inFlight - {g};
      }
    }
  }

  lemma SendAbandonsNone(s: Sys, r: SendRequest, g: nat, maxLength: nat, reply: nat)
    requires Inv(s) && Enabled(s, Send(r, g)) && Abandoned(Step(s, Send(r, g), maxLength), reply)
    ensures Abandoned(s, reply)
  {
    SendSparesOpen(s.db, r, maxLength, reply);
    var after := PrepareStep(s.db, r, maxLength);
    if after.1.Generate? {
      var inFlight := s.inFlight[g := after.1.replyId];
      assert Free(inFlight, reply) && inFlight[g] == after.1.replyId;
      forall h | h in s.inFlight ensures s.inFlight[h] != reply {
        assert inFlight[h] == s.inFlight[h];
      }
    }
  }

  lemma {:induction false} StaysAbandoned(
      states: seq<Sys>, run: seq<Action>, maxLength: nat, i: nat, j: nat, reply: nat)
    requires IsRun(states, run, maxLength) && i <= j <= |run|
    requires Abandoned(states[i], reply)
    ensures Abandoned(states[j], reply)
    ensures states[j].db.messages[reply] == states[i].db.messages[reply]
    decreases j - i
  {
    hide Step, Inv;
    if i < j {
      StaysAbandoned(states, run, maxLength, i, j - 1, reply);
      assert Next(states[j - 1], run[j - 1], states[j], maxLength);
      ReachableInv(states, run, maxLength, j - 1);
      StepKeepsAbandoned(states[j - 1], run[j - 1], maxLength, reply);
    }
  }

  lemma CrashedStaysAbandoned(
      states: seq<Sys>, run: seq<Action>, maxLength: nat, i: nat, k: nat, reply: nat)
    requires IsRun(states, run, maxLength) && i < k <= |run| && Crashes(states[i], run[i], reply)
    ensures reply in states[i].db.messages && Abandoned(states[k], reply)
    ensures states[k].db.messages[reply] == states[i].db.messages[reply]
  {
    assert Next(states[i], run[i], states[i + 1], maxLength);
    ReachableInv(states, run, maxLength, i);
    CrashAbandons(states[i], run[i], maxLength, reply);
    StaysAbandoned(states, run, maxLength, i + 1, k, reply);
  }

  lemma {:induction false} CrashBefore(
      states: seq<Sys>, run: seq<Action>, maxLength: nat, k: nat, reply: nat) returns (i: nat)
    requires IsRun(states, run, maxLength) && k <= |run| && Abandoned(states[k], reply)
    ensures i < k && Crashes(states[i], run[i], reply)
  {
    assert k > 0;
    i := k - 1;
    assert Next(states[i], run[i], states[k], maxLength);
    ReachableInv(states, run, maxLength, i);
    OnlyCrashAbandons(states[i], run[i], maxLength, reply);
    if !Crashes(states[i], run[i], reply) {
      i := CrashBefore(states, run, maxLength, i, reply);
    }
  }

  /** Exactly which replies are abandoned: those with a crashed generation in the past. */
  lemma AbandonedIffCrashed(states: seq<Sys>, run: seq<Action>, maxLength: nat, k: nat, reply: nat)
    requires IsRun(states, run, maxLength) && k <= |run|
    ensures Abandoned(states[k], reply) <==>
              exists i :: 0 <= i < k && Crashes(states[i], run[i], reply)
  {
    if i :| 0 <= i < k && Crashes(states[i], run[i], reply) {
      CrashedStaysAbandoned(states, run, maxLength, i, k, reply);
    } else if Abandoned(states[k], reply) {
      var i := CrashBefore(states, run, maxLength, k, reply);
    }
  }

  /** Exactly when a repeated request is rejected as in progress: when its reply is open. */
  lemma InProgressIffOpen(
      states: seq<Sys>, run: seq<Action>, maxLength: nat, k: nat, u: nat, a: nat, r: SendRequest)
    requires IsRun(states, run, maxLength) && k <= |run| && Admissible(states[k].db, r, maxLength)
    requires u in states[k].db.messages && a in states[k].db.messages
    requires states[k].db.messages[u].clientId == Some(r.clientId)
    requires states[k].db.messages[u].conversationId == r.conversationId
    requires states[k].db.messages[a].role == Assistant && states[k].db.messages[a].parentId == Some(u)
    ensures PrepareStep(states[k].db, r, maxLength).1 == Rejected(RequestInProgress)
        <==> Open(states[k].db.messages[a])
  {
    ReachableInv(states, run, maxLength, k);
    var messages := states[k].db.messages;
    Lookups(messages, r.conversationId, r.clientId);
    assert u in ByClient(messages, r.conversationId, r.clientId);
    OnlyOne(ByClient(messages, r.conversationId, r.clientId), u);
    assert a in RepliesTo(messages, u);
    OnlyOne(RepliesTo(messages, u), a);
  }

  /** After a crash the client id is stuck: the reply keeps its row, and every admissible send
      with that client id is rejected as in progress, for the rest of the run. */
  lemma CrashBlocksClientId(
      states: seq<Sys>, run: seq<Action>, maxLength: nat, i: nat, j: nat, u: nat, a: nat, r: SendRequest)
    requires IsRun(states, run, maxLength) && i < j <= |run| && Crashes(states[i], run[i], a)
    requires u in states[i].db.messages && a in states[i].db.messages
    requires states[i].db.messages[u].clientId == Some(r.clientId)
    requires states[i].db.messages[u].conversationId == r.conversationId
    requires states[i].db.messages[a].parentId == Some(u)
    requires Admissible(states[j].db, r, maxLength)
    ensures PrepareStep(states[j].db, r, maxLength) == (states[j].db, Rejected(RequestInProgress))
    ensures Abandoned(states[j], a) && states[j].db.messages[a] == states[i].db.messages[a]
  {
    CrashedStaysAbandoned(states, run, maxLength, i, j, a);
    RunEvolves(states, run, maxLength, i, j);
    assert RowEvolves(states[i].db.messages[u], states[j].db.messages[u]);
    InProgressIffOpen(states, run, maxLength, j, u, a, r);
    RejectionChangesNothing(states[j].db, r, maxLength);
  }

  /** A run that gets there in three steps: nothing is in flight, and the request cannot be repeated. */
  lemma StrandingRun(maxLength: nat) returns (states: seq<Sys>, run: seq<Action>, r: SendRequest)
    ensures IsRun(states, run, maxLength) && |run| == 3
    ensures states[3].inFlight == map[] && Admissible(states[3].db, r, maxLength)
    ensures PrepareStep(states[3].db, r, maxLength) == (states[3].db, Rejected(RequestInProgress))
  {
    r := SendRequest(1, 2, 3, "", false, 4, 5, 0, true);
    run := [CreateConversation(2, 1), Send(r, 0), Crash(0)];
    var s1 := Step(EMPTY, run[0], maxLength);
    assert ByClient(s1.db.messages, 2, 3) == {};
    var s2 := Step(s1, run[1], maxLength);
    var s3 := Step(s2, run[2], maxLength);
    states := [EMPTY, s1, s2, s3];
    assert s2.inFlight == map[0 := 5] && Crashes(s2, run[2], 5);
    assert IsRun(states, run, maxLength);
    CrashBlocksClientId(states, run, maxLength, 2, 3, 4, 5, r);
  }

  lemma RejectionChangesNothing(db: Db, r: SendRequest, maxLength: nat)
    ensures PrepareStep(db, r, maxLength).1.Rejected? ==> PrepareStep(db, r, maxLength).0 == db
  {
  }

  // ---------------------------------------------------------------- the service

  /** The tables behind `ChatApplicationService`. */
  class ChatStore {
    var conversations: map<nat, Conversation>
    var messages: map<nat, Message>
    const maxLength: nat

    ghost function View(): Db
      reads this
    {
      Db(conversations, messages)
    }

    constructor (maxLength: nat)
      ensures View() == EMPTY.db && this.maxLength == maxLength
    {
      this.maxLength := maxLength;
      conversations, messages := map[], map[];
    }

    /** `_prepare_exchange`; a request that raises leaves through a rollback. */
    method PrepareExchange(r: SendRequest) returns (prepared: Prepared)
      modifies this
      ensures (View(), prepared) == PrepareStep(old(View()), r, maxLength)
    {
      if |r.content| > maxLength {
        return Rejected(MessageTooLong);
      }
      if || r.conversationId !in conversations
         || conversations[r.conversationId].userId != r.userId
         || conversations[r.conversationId].archived
      {
        return Rejected(ConversationNotFound);
      }
      var savedConversations, savedMessages := conversations, messages;
      var existing := OneOrNone(ByClient(messages, r.conversationId, r.clientId));
      if existing.Err? {
        return Rejected(MultipleRows);
      }
      var userMessageId, replyId: nat;
      if existing.value.None? {
        userMessageId := r.newUserMessageId;
        replyId := r.newReplyId;
        messages := messages[userMessageId := NewUserMessage(r)];
        messages := messages[replyId := NewReply(r, userMessageId)];
      } else {
        userMessageId := existing.value.value;
        var reply := OneOrNone(RepliesTo(messages, userMessageId));
        if reply.Err? {
          return Rejected(MultipleRows);
        }
        if reply.value.None? {
          replyId := r.newReplyId;
          messages := messages[replyId := NewReply(r, userMessageId)];
        } else {
          replyId := reply.value.value;
          assert replyId in RepliesTo(messages, userMessageId);
          var message := messages[replyId];
          if message.status == Completed {
            return Replayed(userMessageId, replyId);
          }
          if message.status == Pending || message.status == Streaming {
            return Rejected(RequestInProgress);
          }
          message := message.(content := "");
          message := message.(status := OpenStatus(r.streaming));
          message := message.(providerMessageId := None, tokenUsage := None, metadata := map[]);
          messages := messages[replyId := message];
        }
      }
      var conversation := conversations[r.conversationId];
      if conversation.title.None? {
        conversation := conversation.(title := Some(DeriveTitle(r.content)));
      }
      conversation := conversation.(lastMessageAt := Some(r.now));
      conversations := conversations[r.conversationId := conversation];
      if !r.contextAssembled {
        conversations, messages := savedConversations, savedMessages;
        return Rejected(ContextFailed);
      }
      return Generate(userMessageId, replyId, existing.value.Some?);
    }

    /** `_finalize_success`; the result tells whether the reply was still there. */
    method FinalizeSuccess(
        id: nat, content: string, providerId: Option<string>, usage: Option<LLMUsage>,
        metadata: Metadata, now: int)
      returns (found: bool)
      modifies this
      ensures found == (id in old(messages))
      ensures View() == if found then SuccessStep(old(View()), id, content, providerId, usage, metadata, now)
                        else old(View())
    {
      if id !in messages {
        return false;
      }
      var assistant := messages[id];
      assistant := assistant.(content := content, status := Completed);
      assistant := assistant.(providerMessageId := providerId, tokenUsage := usage);
      assistant := assistant.(metadata := DropNulls(metadata));
      messages := messages[id := assistant];
      if assistant.conversationId in conversations {
        var conversation := conversations[assistant.conversationId];
        conversations := conversations[assistant.conversationId := conversation.(lastMessageAt := Some(now))];
      }
      return true;
    }

    /** `_finalize_failure` */
    method FinalizeFailure(id: nat, partial: string, code: string)
      modifies this
      ensures View() == FailureStep(old(View()), id, partial, code)
    {
      if id !in messages {
        return;
      }
      var assistant := messages[id];
      assistant := assistant.(content := partial, status := Failed);
      assistant := assistant.(metadata := map["error_code" := Text(code)]);
      messages := messages[id := assistant];
    }
  }
}
