/** Refresh-token rotation with reuse detection
    (backend/app/domains/auth/service.py and backend/app/domains/auth/repository.py).
    Every operation is one atomic transaction on the session table. */
module RefreshSessions {
  import opened Common

  datatype TokenKind = Access | Refresh

  /** A signed token text, known by its claims. `signed` says whether the signature verifies. */
  datatype Token = Token(
    kind: TokenKind, signed: bool, subject: nat, jti: nat, expiresAt: int,
    sessionId: Option<nat>, familyId: Option<nat>)

  /** The stored hash of a token: an injective function of the text. */
  datatype Digest = Digest(of: Token)

  datatype Session = Session(
    userId: nat, tokenJti: nat, tokenHash: Digest, familyId: nat, expiresAt: int,
    revokedAt: Option<int>, replacedBy: Option<nat>)

  /** A user row, with the normalized e-mail address and user name. */
  datatype Account = Account(email: string, username: string, active: bool)

  datatype Db = Db(sessions: map<nat, Session>, users: map<nat, Account>)

  datatype AuthError =
    | InvalidCredentials | InactiveUser | InvalidToken | TokenExpired | IncompleteClaims
    | SessionNotFound | ReuseDetected | TokenRevoked | ValidationFailed | UserNotFound
    | InvalidRegistration | EmailExists | UsernameExists | MultipleRows

  datatype Outcome = Issued(token: Token) | Done(revoked: nat) | Failed(error: AuthError)

  // ---------------------------------------------------------------- tokens and rows

  function RefreshTokenFor(userId: nat, sessionId: nat, familyId: nat, jti: nat, expiresAt: int): Token {
    Token(Refresh, true, userId, jti, expiresAt, Some(sessionId), Some(familyId))
  }

  function NewSession(userId: nat, sessionId: nat, familyId: nat, jti: nat, expiresAt: int): Session {
    Session(userId, jti, Digest(RefreshTokenFor(userId, sessionId, familyId, jti, expiresAt)),
            familyId, expiresAt, None, None)
  }

  /** `TokenService.decode(token, expected_type="refresh")` at the given time */
  function Decode(token: Token, at: int): Result<Token, AuthError> {
    if !token.signed then Err(InvalidToken)
    else if token.expiresAt <= at then Err(TokenExpired)
    else if token.kind != Refresh then Err(InvalidToken)
    else Ok(token)
  }

  function Revoke(s: Session, now: int): Session {
    if s.revokedAt.None? then s.(revokedAt := Some(now)) else s
  }

  /** `UPDATE ... SET revoked_at = now WHERE token_family_id = f AND revoked_at IS NULL` */
  function FamilyRevoked(sessions: map<nat, Session>, familyId: nat, now: int): map<nat, Session> {
    map id | id in sessions ::
      if sessions[id].familyId == familyId then Revoke(sessions[id], now) else sessions[id]
  }

  function UserRevoked(sessions: map<nat, Session>, userId: nat, now: int): map<nat, Session> {
    map id | id in sessions ::
      if sessions[id].userId == userId then Revoke(sessions[id], now) else sessions[id]
  }

  function ActiveOf(sessions: map<nat, Session>, userId: nat): set<nat> {
    set id | id in sessions && sessions[id].userId == userId && sessions[id].revokedAt.None?
  }

  // ---------------------------------------------------------------- operations on values

  datatype Action =
    | Register(wellFormed: bool, email: string, username: string, userId: nat,
               sessionId: nat, familyId: nat, jti: nat, expiresAt: int)
    | Login(email: string, passwordMatches: bool,
            sessionId: nat, familyId: nat, jti: nat, expiresAt: int)
    | RefreshTokens(token: Token, decodedAt: int, now: int, sessionId: nat, jti: nat, expiresAt: int)
    | Logout(token: Token, decodedAt: int, now: int)
    | LogoutAll(userId: nat, now: int)
    | SetActive(userId: nat, active: bool)

  function CreateSessionStep(db: Db, userId: nat, sessionId: nat, familyId: nat, jti: nat, expiresAt: int)
    : (Db, Outcome)
  {
    (db.(sessions := db.sessions[sessionId := NewSession(userId, sessionId, familyId, jti, expiresAt)]),
     Issued(RefreshTokenFor(userId, sessionId, familyId, jti, expiresAt)))
  }

  /** The stored row disagrees with the claims or the hash of the presented token. */
  predicate Mismatch(s: Session, token: Token) {
    || s.userId != token.subject
    || s.tokenJti != token.jti
    || Some(s.familyId) != token.familyId
    || s.tokenHash != Digest(token)
  }

  function RefreshStep(db: Db, token: Token, decodedAt: int, now: int, newId: nat, jti: nat, expiresAt: int)
    : (Db, Outcome)
  {
    var decoded := Decode(token, decodedAt);
    if decoded.Err? then (db, Failed(decoded.error))
    else if token.sessionId.None? || token.familyId.None? then (db, Failed(IncompleteClaims))
    else if token.sessionId.value !in db.sessions then (db, Failed(SessionNotFound))
    else
      var id := token.sessionId.value;
      var s := db.sessions[id];
      if s.revokedAt.Some? then
        if s.replacedBy.Some? then
          (db.(sessions := FamilyRevoked(db.sessions, s.familyId, now)), Failed(ReuseDetected))
        else (db, Failed(TokenRevoked))
      else if s.expiresAt <= now then (db, Failed(TokenExpired))
      else if Mismatch(s, token) then
        (db.(sessions := FamilyRevoked(db.sessions, s.familyId, now)), Failed(ValidationFailed))
      else if s.userId !in db.users then (db, Failed(UserNotFound))
      else if !db.users[s.userId].active then (db, Failed(InactiveUser))
      else
        (db.(sessions := Rotated(db.sessions, id, newId, jti, expiresAt, now)),
         Issued(RefreshTokenFor(s.userId, newId, s.familyId, jti, expiresAt)))
  }

  function LogoutStep(db: Db, token: Token, decodedAt: int, now: int): (Db, Outcome) {
    var decoded := Decode(token, decodedAt);
    if decoded.Err? then (db, Failed(decoded.error))
    else if token.sessionId.None? then (db, Failed(IncompleteClaims))
    else if token.sessionId.value !in db.sessions then (db, Done(0))
    else
      var id := token.sessionId.value;
      var s := db.sessions[id];
      if s.tokenHash != Digest(token) then (db, Failed(InvalidToken))
      else (db.(sessions := db.sessions[id := Revoke(s, now)]), Done(if s.revokedAt.None? then 1 else 0))
  }

  function ByEmail(users: map<nat, Account>, email: string): set<nat> {
    set u | u in users && users[u].email == email
  }

  function ByUsername(users: map<nat, Account>, username: string): set<nat> {
    set u | u in users && users[u].username == username
  }

  /** `register`; `wellFormed` says that user name and password pass their own checks. */
  function RegisterStep(
      db: Db, wellFormed: bool, email: string, username: string, userId: nat,
      sessionId: nat, familyId: nat, jti: nat, expiresAt: int) : (Db, Outcome)
  {
    if !wellFormed then (db, Failed(InvalidRegistration))
    else if |ByEmail(db.users, email)| > 1 then (db, Failed(MultipleRows))
    else if |ByEmail(db.users, email)| == 1 then (db, Failed(EmailExists))
    else if |ByUsername(db.users, username)| > 1 then (db, Failed(MultipleRows))
    else if |ByUsername(db.users, username)| == 1 then (db, Failed(UsernameExists))
    else
      CreateSessionStep(db.(users := db.users[userId := Account(email, username, true)]),
                        userId, sessionId, familyId, jti, expiresAt)
  }

  /** `login` */
  ghost function LoginStep(
      db: Db, email: string, passwordMatches: bool, sessionId: nat, familyId: nat, jti: nat, expiresAt: int)
      : (Db, Outcome)
  {
    var found := ByEmail(db.users, email);
    if |found| > 1 then (db, Failed(MultipleRows))
    else if |found| == 0 || !passwordMatches then (db, Failed(InvalidCredentials))
    else if !db.users[TheOnly(found)].active then (db, Failed(InactiveUser))
    else CreateSessionStep(db, TheOnly(found), sessionId, familyId, jti, expiresAt)
  }

  ghost function Step(db: Db, a: Action): (Db, Outcome) {
    match a
    case Register(wellFormed, email, username, user, id, family, jti, exp) =>
      RegisterStep(db, wellFormed, email, username, user, id, family, jti, exp)
    case Login(email, matches, id, family, jti, exp) => LoginStep(db, email, matches, id, family, jti, exp)
    case RefreshTokens(token, decodedAt, now, id, jti, exp) =>
      RefreshStep(db, token, decodedAt, now, id, jti, exp)
    case Logout(token, decodedAt, now) => LogoutStep(db, token, decodedAt, now)
    case LogoutAll(user, now) =>
      (db.(sessions := UserRevoked(db.sessions, user, now)), Done(|ActiveOf(db.sessions, user)|))
    case SetActive(user, active) =>
      (if user in db.users then db.(users := db.users[user := db.users[user].(active := active)]) else db, Done(0))
  }

  /** Generated identifiers have not been used before. */
  ghost predicate Enabled(db: Db, a: Action) {
    match a
    case Register(_, _, _, user, id, family, _, _) => user !in db.users && FreshSession(db, id) && FreshFamily(db, family)
    case Login(_, _, id, family, _, _) => FreshSession(db, id) && FreshFamily(db, family)
    case RefreshTokens(_, _, _, id, _, _) => FreshSession(db, id)
    case _ => true
  }

  ghost predicate FreshSession(db: Db, id: nat) {
    id !in db.sessions
  }

  ghost predicate FreshFamily(db: Db, family: nat) {
    forall id :: id in db.sessions ==> db.sessions[id].familyId != family
  }

  // ---------------------------------------------------------------- runs

  const EMPTY := Db(map[], map[])

  ghost predicate Next(db: Db, a: Action, db': Db) {
    Enabled(db, a) && db' == Step(db, a).0
  }

  /** A run: the actions taken, and the states before, between and after them. */
  ghost predicate IsRun(states: seq<Db>, run: seq<Action>) {
    && |states| == |run| + 1
    && states[0] == EMPTY
    && forall k :: 0 <= k < |run| ==> Next(states[k], run[k], states[k + 1])
  }

  /** The action presents `token` for rotation in state `db`, and succeeds. */
  ghost predicate Rotates(db: Db, a: Action, token: Token) {
    a.RefreshTokens? && a.token == token && Step(db, a).1.Issued?
  }

  // ---------------------------------------------------------------- invariant

  /** A row agrees with the token it was created with. */
  ghost predicate MatchesToken(id: nat, s: Session) {
    s.tokenHash == Digest(RefreshTokenFor(s.userId, id, s.familyId, s.tokenJti, s.expiresAt))
  }

  ghost predicate Linked(db: Db, earlier: nat, later: nat)
    requires earlier in db.sessions
  {
    db.sessions[earlier].replacedBy == Some(later) && db.sessions[earlier].revokedAt.Some?
  }

  /** `chain` lists the sessions of a family, each once, each but the last revoked and
      replaced by the next, and all of one user. */
  ghost predicate IsChain(db: Db, family: nat, chain: seq<nat>) {
    && chain != []
    && (forall i, j :: 0 <= i < j < |chain| ==> chain[i] != chain[j])
    && (forall id :: id in chain ==> id in db.sessions && db.sessions[id].familyId == family)
    && (forall id :: id in db.sessions && db.sessions[id].familyId == family ==> id in chain)
    && (forall i :: 0 <= i < |chain| ==> db.sessions[chain[i]].userId == db.sessions[chain[0]].userId)
    && (forall i :: 0 <= i < |chain| - 1 ==> Linked(db, chain[i], chain[i + 1]))
    && db.sessions[chain[|chain| - 1]].replacedBy == None
  }

  ghost predicate HasChain(db: Db, family: nat) {
    exists chain :: IsChain(db, family, chain)
  }

  ghost predicate RowsMatch(db: Db) {
    forall id :: id in db.sessions ==> MatchesToken(id, db.sessions[id])
  }

  ghost predicate FamiliesChained(db: Db) {
    forall id :: id in db.sessions ==> HasChain(db, db.sessions[id].familyId)
  }

  /** Every session belongs to an account. */
  ghost predicate OwnersKnown(db: Db) {
    forall id :: id in db.sessions ==> db.sessions[id].userId in db.users
  }

  /** No two accounts share an e-mail address or a user name. */
  ghost predicate AccountsUnique(users: map<nat, Account>) {
    forall u, v :: u in users && v in users && u != v ==>
      users[u].email != users[v].email && users[u].username != users[v].username
  }

  ghost predicate Inv(db: Db) {
    RowsMatch(db) && FamiliesChained(db) && OwnersKnown(db) && AccountsUnique(db.users)
  }

  /** Accounts keep their names; whether they are active may change. */
  ghost predicate SameAccounts(users: map<nat, Account>, users': map<nat, Account>) {
    && users.Keys == users'.Keys
    && forall u :: u in users ==> users'[u].email == users[u].email && users'[u].username == users[u].username
  }

  /** What a chain depends on is unchanged, and what was revoked still is. */
  ghost predicate SameLinks(s: Session, s': Session) {
    && s'.userId == s.userId && s'.familyId == s.familyId && s'.replacedBy == s.replacedBy
    && (s.revokedAt.Some? ==> s'.revokedAt.Some?)
  }

  ghost predicate KeepsFamily(db: Db, db': Db, family: nat) {
    && (forall id :: id in db.sessions && db.sessions[id].familyId == family ==>
          id in db'.sessions && SameLinks(db.sessions[id], db'.sessions[id]))
    && (forall id :: id in db'.sessions && db'.sessions[id].familyId == family ==>
          id in db.sessions && db.sessions[id].familyId == family)
  }

  lemma ChainKept(db: Db, db': Db, family: nat)
    requires HasChain(db, family) && KeepsFamily(db, db', family)
    ensures HasChain(db', family)
  {
    var chain :| IsChain(db, family, chain);
    forall id | id in chain
      ensures id in db'.sessions && db'.sessions[id].familyId == family
      ensures SameLinks(db.sessions[id], db'.sessions[id])
    {
    }
    forall i | 0 <= i < |chain| - 1 ensures Linked(db', chain[i], chain[i + 1]) {
      assert Linked(db, chain[i], chain[i + 1]);
      assert chain[i] in chain;
    }
    forall i | 0 <= i < |chain|
      ensures db'.sessions[chain[i]].userId == db'.sessions[chain[0]].userId
      ensures db'.sessions[chain[i]].replacedBy == db.sessions[chain[i]].replacedBy
    {
      assert chain[i] in chain && chain[0] in chain;
    }
    assert IsChain(db', family, chain);
  }

  /** Rows may become revoked, and nothing else changes. */
  ghost predicate OnlyRevokes(before: map<nat, Session>, after: map<nat, Session>) {
    && before.Keys == after.Keys
    && forall id :: id in before ==>
         || after[id] == before[id]
         || (before[id].revokedAt.None? && after[id] == before[id].(revokedAt := after[id].revokedAt))
  }

  lemma RevokedRow(before: map<nat, Session>, after: map<nat, Session>, id: nat)
    requires OnlyRevokes(before, after) && id in before
    ensures id in after && SameLinks(before[id], after[id])
    ensures after[id] == before[id].(revokedAt := after[id].revokedAt)
  {
  }

  lemma RevokingKeepsFamily(db: Db, db': Db, family: nat)
    requires OnlyRevokes(db.sessions, db'.sessions)
    ensures KeepsFamily(db, db', family)
  {
    forall id | id in db.sessions
      ensures id in db'.sessions && SameLinks(db.sessions[id], db'.sessions[id])
    {
      RevokedRow(db.sessions, db'.sessions, id);
    }
  }

  lemma RevokingKeepsInv(db: Db, db': Db)
    requires Inv(db) && OnlyRevokes(db.sessions, db'.sessions)
    requires db.users.Keys <= db'.users.Keys && AccountsUnique(db'.users)
    ensures Inv(db')
  {
    forall id | id in db'.sessions
      ensures MatchesToken(id, db'.sessions[id]) && HasChain(db', db'.sessions[id].familyId)
      ensures db'.sessions[id].userId in db'.users
    {
      RevokedRow(db.sessions, db'.sessions, id);
      RowOf(db, id);
      RevokingKeepsFamily(db, db', db.sessions[id].familyId);
      ChainKept(db, db', db.sessions[id].familyId);
    }
  }

  /** What the invariant says about one row. */
  lemma RowOf(db: Db, id: nat)
    requires Inv(db) && id in db.sessions
    ensures MatchesToken(id, db.sessions[id]) && HasChain(db, db.sessions[id].familyId)
    ensures db.sessions[id].userId in db.users
  {
  }

  lemma BulkRevokesOnlyRevoke(sessions: map<nat, Session>, key: nat, now: int)
    ensures OnlyRevokes(sessions, FamilyRevoked(sessions, key, now))
    ensures OnlyRevokes(sessions, UserRevoked(sessions, key, now))
  {
  }

  lemma FreshChain(db: Db, user: nat, id: nat, family: nat, jti: nat, expiresAt: int)
    requires FreshSession(db, id) && FreshFamily(db, family)
    ensures IsChain(CreateSessionStep(db, user, id, family, jti, expiresAt).0, family, [id])
  {
  }

  /** A new family starts as a chain of one. */
  lemma CreatingKeepsInv(db: Db, user: nat, id: nat, family: nat, jti: nat, expiresAt: int)
    requires Inv(db) && FreshSession(db, id) && FreshFamily(db, family) && user in db.users
    ensures Inv(CreateSessionStep(db, user, id, family, jti, expiresAt).0)
  {
    var db' := CreateSessionStep(db, user, id, family, jti, expiresAt).0;
    FreshChain(db, user, id, family, jti, expiresAt);
    forall x | x in db'.sessions
      ensures MatchesToken(x, db'.sessions[x]) && HasChain(db', db'.sessions[x].familyId)
    {
      if x != id {
        OlderChainKept(db, user, id, family, jti, expiresAt, x);
      }
    }
  }

  lemma OlderChainKept(db: Db, user: nat, id: nat, family: nat, jti: nat, expiresAt: int, x: nat)
    requires Inv(db) && FreshSession(db, id) && FreshFamily(db, family) && x in db.sessions
    ensures var db' := CreateSessionStep(db, user, id, family, jti, expiresAt).0;
            && x in db'.sessions && db'.sessions[x] == db.sessions[x]
            && MatchesToken(x, db'.sessions[x]) && HasChain(db', db'.sessions[x].familyId)
  {
    assert MatchesToken(x, db.sessions[x]) && HasChain(db, db.sessions[x].familyId);
    ChainKept(db, CreateSessionStep(db, user, id, family, jti, expiresAt).0, db.sessions[x].familyId);
  }

  /** An active session is the end of its family's chain. */
  lemma ActiveIsTail(db: Db, family: nat, chain: seq<nat>, id: nat)
    requires IsChain(db, family, chain)
    requires id in db.sessions && db.sessions[id].familyId == family && db.sessions[id].revokedAt.None?
    ensures chain[|chain| - 1] == id
  {
    var i :| 0 <= i < |chain| && chain[i] == id;
    assert i < |chain| - 1 ==> Linked(db, chain[i], chain[i + 1]);
  }

  /** The session table after a successful rotation. */
  function Rotated(
      sessions: map<nat, Session>, id: nat, newId: nat, jti: nat, expiresAt: int, now: int)
      : map<nat, Session>
    requires id in sessions
  {
    var s := sessions[id];
    var added := sessions[newId := NewSession(s.userId, newId, s.familyId, jti, expiresAt)];
    added[id := s.(revokedAt := Some(now), replacedBy := Some(newId))]
  }

  /** Rotation appends one session to the end of the chain. */
  lemma RotatingKeepsInv(db: Db, id: nat, newId: nat, jti: nat, expiresAt: int, now: int)
    requires Inv(db) && id in db.sessions && newId !in db.sessions && db.sessions[id].revokedAt.None?
    ensures Inv(db.(sessions := Rotated(db.sessions, id, newId, jti, expiresAt, now)))
  {
    RotatedRows(db, id, newId, jti, expiresAt, now);
    RowOf(db, id);
    RotatedFamilyHasChain(db, id, newId, jti, expiresAt, now);
    RotatedFamilies(db.sessions, id, newId, jti, expiresAt, now);
    hide HasChain, Rotated, RowsMatch, OwnersKnown;
    var db' := db.(sessions := Rotated(db.sessions, id, newId, jti, expiresAt, now));
    forall x | x in db'.sessions ensures HasChain(db', db'.sessions[x].familyId) {
      if x in db.sessions && db.sessions[x].familyId != db.sessions[id].familyId {
        RowOf(db, x);
        OtherFamilyKept(db, id, newId, jti, expiresAt, now, db.sessions[x].familyId);
      }
    }
  }

  lemma RotatedFamilies(
      sessions: map<nat, Session>, id: nat, newId: nat, jti: nat, expiresAt: int, now: int)
    requires id in sessions && newId !in sessions
    ensures var after := Rotated(sessions, id, newId, jti, expiresAt, now);
            && after.Keys == sessions.Keys + {newId}
            && after[newId].familyId == sessions[id].familyId
            && forall x :: x in sessions ==> after[x].familyId == sessions[x].familyId
  {
  }

  lemma RotatedRows(db: Db, id: nat, newId: nat, jti: nat, expiresAt: int, now: int)
    requires RowsMatch(db) && OwnersKnown(db) && id in db.sessions && newId !in db.sessions
    ensures var db' := db.(sessions := Rotated(db.sessions, id, newId, jti, expiresAt, now));
            RowsMatch(db') && OwnersKnown(db')
  {
    assert MatchesToken(id, db.sessions[id]);
  }

  lemma OtherFamilyKept(
      db: Db, id: nat, newId: nat, jti: nat, expiresAt: int, now: int, family: nat)
    requires id in db.sessions && newId !in db.sessions && db.sessions[id].familyId != family
    requires HasChain(db, family)
    ensures HasChain(db.(sessions := Rotated(db.sessions, id, newId, jti, expiresAt, now)), family)
  {
    ChainKept(db, db.(sessions := Rotated(db.sessions, id, newId, jti, expiresAt, now)), family);
  }

  lemma RotatedFamilyHasChain(db: Db, id: nat, newId: nat, jti: nat, expiresAt: int, now: int)
    requires id in db.sessions && HasChain(db, db.sessions[id].familyId)
    requires newId !in db.sessions && db.sessions[id].revokedAt.None?
    ensures HasChain(db.(sessions := Rotated(db.sessions, id, newId, jti, expiresAt, now)),
                     db.sessions[id].familyId)
  {
    var family := db.sessions[id].familyId;
    var chain :| IsChain(db, family, chain);
    ActiveIsTail(db, family, chain, id);
    ChainGrows(db, db.(sessions := Rotated(db.sessions, id, newId, jti, expiresAt, now)), family, chain, newId);
  }

  lemma ChainGrows(db: Db, db': Db, family: nat, chain: seq<nat>, newId: nat)
    requires IsChain(db, family, chain) && newId !in db.sessions
    requires var id := chain[|chain| - 1];
             && db'.sessions.Keys == db.sessions.Keys + {newId}
             && (forall x :: x in db.sessions && x != id ==> db'.sessions[x] == db.sessions[x])
             && db'.sessions[id].userId == db.sessions[id].userId == db'.sessions[newId].userId
             && db'.sessions[id].familyId == family == db'.sessions[newId].familyId
             && Linked(db', id, newId)
             && db'.sessions[newId].replacedBy == None
    ensures HasChain(db', family)
  {
    var grown := chain + [newId];
    forall i | 0 <= i < |grown| - 1 ensures Linked(db', grown[i], grown[i + 1]) {
      if i < |chain| - 1 {
        assert Linked(db, chain[i], chain[i + 1]);
      }
    }
    forall x | x in db'.sessions && db'.sessions[x].familyId == family ensures x in grown {
      if x == newId {
        assert grown[|chain|] == newId;
      } else {
        assert x in chain;
      }
    }
    assert IsChain(db', family, grown);
  }

  /** A refresh either rotates the active session its token was issued for, or at most
      revokes rows. */
  lemma RefreshEffect(
      db: Db, token: Token, decodedAt: int, now: int, newId: nat, jti: nat, expiresAt: int)
    ensures var after := RefreshStep(db, token, decodedAt, now, newId, jti, expiresAt);
            if after.1.Issued? then
              && token.sessionId.Some? && token.sessionId.value in db.sessions
              && db.sessions[token.sessionId.value].revokedAt.None?
              && db.sessions[token.sessionId.value].tokenHash == Digest(token)
              && after.0 == db.(sessions := Rotated(db.sessions, token.sessionId.value, newId, jti, expiresAt, now))
            else OnlyRevokes(db.sessions, after.0.sessions)
  {
    if token.sessionId.Some? && token.sessionId.value in db.sessions {
      BulkRevokesOnlyRevoke(db.sessions, db.sessions[token.sessionId.value].familyId, now);
    }
  }

  lemma QuietEffect(db: Db, a: Action)
    requires !Step(db, a).1.Issued?
    ensures OnlyRevokes(db.sessions, Step(db, a).0.sessions)
    ensures SameAccounts(db.users, Step(db, a).0.users)
  {
    match a
    case Register(wellFormed, email, username, user, id, family, jti, exp) =>
    case Login(email, matches, id, family, jti, exp) =>
    case RefreshTokens(token, decodedAt, now, id, jti, exp) =>
      RefreshEffect(db, token, decodedAt, now, id, jti, exp);
    case Logout(token, decodedAt, now) =>
    case LogoutAll(user, now) => BulkRevokesOnlyRevoke(db.sessions, user, now);
    case SetActive(user, active) =>
  }

  lemma NewAccountIsUnique(users: map<nat, Account>, email: string, username: string, user: nat)
    requires AccountsUnique(users) && user !in users
    requires |ByEmail(users, email)| == 0 && |ByUsername(users, username)| == 0
    ensures AccountsUnique(users[user := Account(email, username, true)])
  {
    forall u | u in users ensures users[u].email != email && users[u].username != username {
      assert u !in ByEmail(users, email) && u !in ByUsername(users, username);
    }
  }

  lemma SameAccountsUnique(users: map<nat, Account>, users': map<nat, Account>)
    requires AccountsUnique(users) && SameAccounts(users, users')
    ensures AccountsUnique(users')
  {
  }

  /** Every operation keeps the invariant. */
  lemma StepKeepsInv(db: Db, a: Action)
    requires Inv(db) && Enabled(db, a)
    ensures Inv(Step(db, a).0)
  {
    if !Step(db, a).1.Issued? {
      QuietEffect(db, a);
      SameAccountsUnique(db.users, Step(db, a).0.users);
      RevokingKeepsInv(db, Step(db, a).0);
    } else {
      match a
      case Register(wellFormed, email, username, user, id, family, jti, exp) =>
        var known := db.(users := db.users[user := Account(email, username, true)]);
        NewAccountIsUnique(db.users, email, username, user);
        RevokingKeepsInv(db, known);
        CreatingKeepsInv(known, user, id, family, jti, exp);
      case Login(email, matches, id, family, jti, exp) =>
        assert TheOnly(ByEmail(db.users, email)) in ByEmail(db.users, email);
        CreatingKeepsInv(db, TheOnly(ByEmail(db.users, email)), id, family, jti, exp);
      case RefreshTokens(token, decodedAt, now, id, jti, exp) =>
        RefreshEffect(db, token, decodedAt, now, id, jti, exp);
        RotatingKeepsInv(db, token.sessionId.value, id, jti, exp, now);
    }
  }

  lemma {:induction false} ReachableInv(states: seq<Db>, run: seq<Action>, k: nat)
    requires IsRun(states, run) && k <= |run|
    ensures Inv(states[k])
  {
    if k > 0 {
      ReachableInv(states, run, k - 1);
      assert Next(states[k - 1], run[k - 1], states[k]);
      StepKeepsInv(states[k - 1], run[k - 1]);
    }
  }

  /** Consequences of the chain for one session and for two of the same family. */
  lemma ChainFacts(db: Db, family: nat, x: nat, y: nat)
    requires HasChain(db, family)
    requires x in db.sessions && y in db.sessions
    requires db.sessions[x].familyId == family == db.sessions[y].familyId
    ensures db.sessions[x].userId == db.sessions[y].userId
    ensures db.sessions[x].revokedAt.None? && db.sessions[y].revokedAt.None? ==> x == y
    ensures var r := db.sessions[x].replacedBy;
            r.Some? ==>
              && db.sessions[x].revokedAt.Some?
              && r.value != x && r.value in db.sessions && db.sessions[r.value].familyId == family
              && (db.sessions[y].replacedBy == r ==> x == y)
  {
    var chain :| IsChain(db, family, chain);
    var i :| 0 <= i < |chain| && chain[i] == x;
    var j :| 0 <= j < |chain| && chain[j] == y;
    if i < |chain| - 1 {
      assert Linked(db, chain[i], chain[i + 1]);
      assert chain[i + 1] in chain;
    }
    if j < |chain| - 1 {
      assert Linked(db, chain[j], chain[j + 1]);
    }
  }

  /** In every reachable state a family is one replacement chain: a replaced session is revoked,
      its replacement is another session of the same family and user, no session replaces two
      others, and two active sessions never share a family. */
  lemma FamiliesAreChains(states: seq<Db>, run: seq<Action>, k: nat, x: nat, y: nat)
    requires IsRun(states, run) && k <= |run|
    requires x in states[k].sessions && y in states[k].sessions
    ensures HasChain(states[k], states[k].sessions[x].familyId)
    ensures var db := states[k];
            var s := db.sessions[x];
            s.replacedBy.Some? ==>
              && s.revokedAt.Some?
              && s.replacedBy.value in db.sessions && s.replacedBy.value != x
              && db.sessions[s.replacedBy.value].familyId == s.familyId
              && db.sessions[s.replacedBy.value].userId == s.userId
    ensures var s, t := states[k].sessions[x], states[k].sessions[y];
            && (x != y && s.replacedBy.Some? ==> t.replacedBy != s.replacedBy)
            && (s.familyId == t.familyId ==> s.userId == t.userId)
            && (x != y && s.familyId == t.familyId ==> s.revokedAt.Some? || t.revokedAt.Some?)
  {
    ReachableInv(states, run, k);
    var db := states[k];
    var family := db.sessions[x].familyId;
    assert HasChain(db, family) && HasChain(db, db.sessions[y].familyId);
    ChainFacts(db, family, x, x);
    if db.sessions[x].replacedBy.Some? {
      ChainFacts(db, family, x, db.sessions[x].replacedBy.value);
    }
    if db.sessions[y].familyId == family {
      ChainFacts(db, family, x, y);
    } else {
      ChainFacts(db, db.sessions[y].familyId, y, y);
    }
  }

  // ---------------------------------------------------------------- whole runs

  /** A row never disappears and never changes owner; once revoked it never changes again. */
  ghost predicate Grows(db: Db, db': Db) {
    forall id :: id in db.sessions ==>
      && id in db'.sessions
      && (if db.sessions[id].revokedAt.Some? then db'.sessions[id] == db.sessions[id]
          else && db'.sessions[id].tokenHash == db.sessions[id].tokenHash
               && db'.sessions[id].familyId == db.sessions[id].familyId)
  }

  lemma StepGrows(db: Db, a: Action)
    requires Enabled(db, a)
    ensures Grows(db, Step(db, a).0)
  {
    if !Step(db, a).1.Issued? {
      QuietEffect(db, a);
    } else if a.RefreshTokens? {
      RefreshEffect(db, a.token, a.decodedAt, a.now, a.sessionId, a.jti, a.expiresAt);
    }
  }

  lemma {:induction false} RunGrows(states: seq<Db>, run: seq<Action>, i: nat, j: nat)
    requires IsRun(states, run) && i <= j <= |run|
    ensures Grows(states[i], states[j])
    decreases j - i
  {
    if i < j {
      RunGrows(states, run, i, j - 1);
      assert Next(states[j - 1], run[j - 1], states[j]);
      StepGrows(states[j - 1], run[j - 1]);
    }
  }

  /** After a rotation the presented token's session is revoked and names its replacement. */
  lemma RotationRetires(db: Db, a: Action, token: Token)
    requires Enabled(db, a) && Rotates(db, a, token)
    ensures var s' := Step(db, a).0.sessions;
            && token.sessionId.Some? && token.sessionId.value in s'
            && s'[token.sessionId.value].revokedAt.Some?
            && s'[token.sessionId.value].replacedBy == Some(a.sessionId)
            && s'[token.sessionId.value].tokenHash == Digest(token)
            && s'[token.sessionId.value].familyId == db.sessions[token.sessionId.value].familyId
  {
    RefreshEffect(db, a.token, a.decodedAt, a.now, a.sessionId, a.jti, a.expiresAt);
  }

  /** In any run, a token rotates successfully at most once. */
  lemma RotatesAtMostOnce(states: seq<Db>, run: seq<Action>, i: nat, j: nat, token: Token)
    requires IsRun(states, run) && i < j < |run|
    requires Rotates(states[i], run[i], token)
    ensures !Rotates(states[j], run[j], token)
  {
    assert Next(states[i], run[i], states[i + 1]);
    RotationRetires(states[i], run[i], token);
    RunGrows(states, run, i + 1, j);
  }

  /** A family that exists and has no active session left. */
  ghost predicate Dead(db: Db, family: nat) {
    && !FreshFamily(db, family)
    && forall id :: id in db.sessions && db.sessions[id].familyId == family ==>
         db.sessions[id].revokedAt.Some?
  }

  /** A dead family stays dead, and no refresh issues a token for it. */
  lemma DeadStaysDead(db: Db, a: Action, family: nat)
    requires Enabled(db, a) && Dead(db, family)
    ensures Dead(Step(db, a).0, family)
    ensures Step(db, a).1.Issued? ==> Step(db, a).1.token.familyId != Some(family)
  {
    StepGrows(db, a);
    var id :| id in db.sessions && db.sessions[id].familyId == family;
    assert Step(db, a).0.sessions[id].familyId == family;
    if !Step(db, a).1.Issued? {
      QuietEffect(db, a);
    } else if a.RefreshTokens? {
      RefreshEffect(db, a.token, a.decodedAt, a.now, a.sessionId, a.jti, a.expiresAt);
    }
  }

  lemma {:induction false} DeadForever(states: seq<Db>, run: seq<Action>, i: nat, j: nat, family: nat)
    requires IsRun(states, run) && i <= j <= |run|
    requires Dead(states[i], family)
    ensures Dead(states[j], family)
    decreases j - i
  {
    if i < j {
      DeadForever(states, run, i, j - 1, family);
      assert Next(states[j - 1], run[j - 1], states[j]);
      DeadStaysDead(states[j - 1], run[j - 1], family);
    }
  }

  /** A refresh with a token whose session was already replaced ends its family. */
  lemma ReuseIsDetected(db: Db, a: Action, token: Token)
    requires a.RefreshTokens? && a.token == token && Decode(token, a.decodedAt).Ok?
    requires token.sessionId.Some? && token.familyId.Some? && token.sessionId.value in db.sessions
    requires db.sessions[token.sessionId.value].familyId == token.familyId.value
    requires db.sessions[token.sessionId.value].revokedAt.Some?
    requires db.sessions[token.sessionId.value].replacedBy.Some?
    ensures Step(db, a).1 == Failed(ReuseDetected)
    ensures Dead(Step(db, a).0, token.familyId.value)
  {
    var s' := FamilyRevoked(db.sessions, token.familyId.value, a.now);
    assert Step(db, a) == (db.(sessions := s'), Failed(ReuseDetected));
    assert s'[token.sessionId.value].familyId == token.familyId.value;
  }

  /** Presenting a rotated token again is detected whenever the token still decodes, and from
      then on its family has no active session and issues no token, for the rest of the run. */
  lemma ReuseEndsFamily(states: seq<Db>, run: seq<Action>, i: nat, j: nat, k: nat, token: Token)
    requires IsRun(states, run) && i < j < k <= |run|
    requires Rotates(states[i], run[i], token)
    requires run[j].RefreshTokens? && run[j].token == token && Decode(token, run[j].decodedAt).Ok?
    ensures Step(states[j], run[j]).1 == Failed(ReuseDetected)
    ensures token.familyId.Some? && Dead(states[k], token.familyId.value)
    ensures k < |run| && Step(states[k], run[k]).1.Issued? ==>
              Step(states[k], run[k]).1.token.familyId != token.familyId
  {
    assert Next(states[i], run[i], states[i + 1]);
    RotationRetires(states[i], run[i], token);
    RunGrows(states, run, i + 1, j);
    ReachableInv(states, run, j);
    assert MatchesToken(token.sessionId.value, states[j].sessions[token.sessionId.value]);
    ReuseIsDetected(states[j], run[j], token);
    assert Next(states[j], run[j], states[j + 1]);
    DeadForever(states, run, j + 1, k, token.familyId.value);
    if k < |run| {
      assert Next(states[k], run[k], states[k + 1]);
      DeadStaysDead(states[k], run[k], token.familyId.value);
    }
  }

  /** A token is issued when some row was created with it. */
  ghost predicate WasIssued(db: Db, token: Token) {
    exists id :: id in db.sessions && db.sessions[id].tokenHash == Digest(token)
  }

  /** What an operation returns, it has stored. */
  lemma IssuedTokensAreStored(db: Db, a: Action)
    requires Enabled(db, a) && Step(db, a).1.Issued?
    ensures WasIssued(Step(db, a).0, Step(db, a).1.token)
  {
    if a.RefreshTokens? {
      RefreshEffect(db, a.token, a.decodedAt, a.now, a.sessionId, a.jti, a.expiresAt);
      assert Step(db, a).0.sessions[a.sessionId].tokenHash == Digest(Step(db, a).1.token);
    } else {
      assert Step(db, a).0.sessions[a.sessionId].tokenHash == Digest(Step(db, a).1.token);
    }
  }

  /** A token that was issued at any time in a run is still stored at any later time. */
  lemma IssuedIsRemembered(states: seq<Db>, run: seq<Action>, i: nat, k: nat, token: Token)
    requires IsRun(states, run) && i < k <= |run|
    requires Step(states[i], run[i]).1 == Issued(token)
    ensures WasIssued(states[k], token)
  {
    assert Next(states[i], run[i], states[i + 1]);
    IssuedTokensAreStored(states[i], run[i]);
    RunGrows(states, run, i + 1, k);
    var id :| id in states[i + 1].sessions && states[i + 1].sessions[id].tokenHash == Digest(token);
    assert states[k].sessions[id].tokenHash == Digest(token);
  }

  /** The row of an issued token is found by its claims and agrees with them. */
  lemma IssuedTokenMatches(db: Db, token: Token)
    requires Inv(db) && WasIssued(db, token)
    ensures token.signed && token.kind == Refresh && token.familyId.Some?
    ensures token.sessionId.Some? && token.sessionId.value in db.sessions
    ensures !Mismatch(db.sessions[token.sessionId.value], token)
    ensures db.sessions[token.sessionId.value].expiresAt == token.expiresAt
  {
    var id :| id in db.sessions && db.sessions[id].tokenHash == Digest(token);
    assert MatchesToken(id, db.sessions[id]);
  }

  /** Exactly how a refresh with an issued token ends, in any reachable state; the
      validation-failed branch is never taken. */
  lemma RefreshOfIssuedToken(
      states: seq<Db>, run: seq<Action>, k: nat, token: Token,
      decodedAt: int, now: int, newId: nat, jti: nat, expiresAt: int)
    requires IsRun(states, run) && k <= |run| && WasIssued(states[k], token)
    requires decodedAt <= now
    ensures token.familyId.Some?
    ensures token.sessionId.Some? && token.sessionId.value in states[k].sessions
    ensures token.subject in states[k].users
    ensures var db := states[k];
            var s := db.sessions[token.sessionId.value];
            RefreshStep(db, token, decodedAt, now, newId, jti, expiresAt).1 ==
            if token.expiresAt <= decodedAt then Failed(TokenExpired)
            else if s.replacedBy.Some? then Failed(ReuseDetected)
            else if s.revokedAt.Some? then Failed(TokenRevoked)
            else if token.expiresAt <= now then Failed(TokenExpired)
            else if !db.users[token.subject].active then Failed(InactiveUser)
            else Issued(RefreshTokenFor(token.subject, newId, token.familyId.value, jti, expiresAt))
  {
    ReachableInv(states, run, k);
    IssuedTokenMatches(states[k], token);
    hide IsRun, Inv, WasIssued, HasChain, RefreshStep;
    var id := token.sessionId.value;
    RowOf(states[k], id);
    ChainFacts(states[k], states[k].sessions[id].familyId, id, id);
    RefreshOfMatching(states[k], token, decodedAt, now, newId, jti, expiresAt);
  }

  lemma RefreshOfMatching(
      db: Db, token: Token, decodedAt: int, now: int, newId: nat, jti: nat, expiresAt: int)
    requires token.signed && token.kind == Refresh && token.familyId.Some?
    requires token.sessionId.Some? && token.sessionId.value in db.sessions
    requires var s := db.sessions[token.sessionId.value];
             && !Mismatch(s, token) && s.expiresAt == token.expiresAt
             && (s.replacedBy.Some? ==> s.revokedAt.Some?)
    requires token.subject in db.users && decodedAt <= now
    ensures var s := db.sessions[token.sessionId.value];
            RefreshStep(db, token, decodedAt, now, newId, jti, expiresAt).1 ==
            if token.expiresAt <= decodedAt then Failed(TokenExpired)
            else if s.replacedBy.Some? then Failed(ReuseDetected)
            else if s.revokedAt.Some? then Failed(TokenRevoked)
            else if token.expiresAt <= now then Failed(TokenExpired)
            else if !db.users[token.subject].active then Failed(InactiveUser)
            else Issued(RefreshTokenFor(token.subject, newId, token.familyId.value, jti, expiresAt))
  {
  }

  /** Logout touches no session but the token's own; with a token that is not stored there it
      changes nothing at all. */
  lemma LogoutIsLocal(db: Db, token: Token, decodedAt: int, now: int, other: nat)
    requires Inv(db) && other in db.sessions
    ensures var after := LogoutStep(db, token, decodedAt, now).0;
            && (Some(other) != token.sessionId ==>
                  other in after.sessions && after.sessions[other] == db.sessions[other])
            && (!WasIssued(db, token) ==> after == db)
  {
    if token.sessionId.Some? && token.sessionId.value in db.sessions {
      assert !WasIssued(db, token) ==> db.sessions[token.sessionId.value].tokenHash != Digest(token);
    }
  }

  /** With an issued token that still decodes, logout succeeds and leaves its session revoked;
      doing it again changes nothing. */
  lemma LogoutRevokes(states: seq<Db>, run: seq<Action>, k: nat, token: Token, decodedAt: int, now: int)
    requires IsRun(states, run) && k <= |run| && WasIssued(states[k], token)
    requires token.expiresAt > decodedAt
    ensures token.sessionId.Some?
    ensures var after := LogoutStep(states[k], token, decodedAt, now);
            && after.1.Done?
            && token.sessionId.value in after.0.sessions
            && after.0.sessions[token.sessionId.value].revokedAt.Some?
            && LogoutStep(after.0, token, decodedAt, now) == (after.0, Done(0))
  {
    ReachableInv(states, run, k);
    IssuedTokenMatches(states[k], token);
    LogoutOfStored(states[k], token, decodedAt, now);
  }

  lemma LogoutOfStored(db: Db, token: Token, decodedAt: int, now: int)
    requires Decode(token, decodedAt).Ok?
    requires token.sessionId.Some? && token.sessionId.value in db.sessions
    requires db.sessions[token.sessionId.value].tokenHash == Digest(token)
    ensures var after := LogoutStep(db, token, decodedAt, now);
            && after.1.Done?
            && token.sessionId.value in after.0.sessions
            && after.0.sessions[token.sessionId.value].revokedAt.Some?
            && LogoutStep(after.0, token, decodedAt, now) == (after.0, Done(0))
  {
    var id := token.sessionId.value;
    var s := Revoke(db.sessions[id], now);
    var once := db.sessions[id := s];
    assert LogoutStep(db, token, decodedAt, now).0 == db.(sessions := once);
    assert once[id := Revoke(s, now)] == once;
  }

  /** Logging out everywhere leaves the user no active session, and reports how many there were. */
  lemma LogoutAllIsComplete(db: Db, user: nat, now: int)
    ensures var after := Step(db, LogoutAll(user, now));
            && ActiveOf(after.0.sessions, user) == {}
            && after.1 == Done(|ActiveOf(db.sessions, user)|)
            && forall other :: other != user ==> ActiveOf(after.0.sessions, other) == ActiveOf(db.sessions, other)
  {
    var after := Step(db, LogoutAll(user, now)).0;
    forall other | other != user
      ensures ActiveOf(after.sessions, other) == ActiveOf(db.sessions, other)
    {
    }
  }

  // ---------------------------------------------------------------- what an operation leaves alone

  /** The row belongs to the family of the session that the token names. */
  predicate InFamilyOf(db: Db, token: Token, x: nat)
    requires x in db.sessions
  {
    && token.sessionId.Some? && token.sessionId.value in db.sessions
    && db.sessions[token.sessionId.value].familyId == db.sessions[x].familyId
  }

  /** Whatever its outcome, a refresh touches no session outside the family of the token's session. */
  lemma RefreshSparesOthers(
      db: Db, token: Token, decodedAt: int, now: int, newId: nat, jti: nat, expiresAt: int, x: nat)
    requires newId !in db.sessions && x in db.sessions && !InFamilyOf(db, token, x)
    ensures var after := RefreshStep(db, token, decodedAt, now, newId, jti, expiresAt).0;
            x in after.sessions && after.sessions[x] == db.sessions[x]
  {
  }

  /** The operation may touch this session: a refresh within its family, a logout of the session
      itself, or a logout of its user everywhere. */
  predicate Concerns(db: Db, a: Action, x: nat)
    requires x in db.sessions
  {
    match a
    case RefreshTokens(token, _, _, _, _, _) => InFamilyOf(db, token, x)
    case Logout(token, _, _) => token.sessionId == Some(x)
    case LogoutAll(user, _) => db.sessions[x].userId == user
    case _ => false
  }

  lemma StepSpares(db: Db, a: Action, x: nat)
    requires Enabled(db, a) && x in db.sessions && !Concerns(db, a, x)
    ensures x in Step(db, a).0.sessions && Step(db, a).0.sessions[x] == db.sessions[x]
  {
    if a.RefreshTokens? {
      RefreshSparesOthers(db, a.token, a.decodedAt, a.now, a.sessionId, a.jti, a.expiresAt, x);
    }
  }

  /** Over whole runs, a session stays exactly as it is until an operation concerns it; so reuse or
      forgery of a token never reaches another family. */
  lemma {:induction false} UnconcernedSessionStays(states: seq<Db>, run: seq<Action>, i: nat, j: nat, x: nat)
    requires IsRun(states, run) && i <= j <= |run| && x in states[i].sessions
    requires forall k :: i <= k < j && x in states[k].sessions ==> !Concerns(states[k], run[k], x)
    ensures x in states[j].sessions && states[j].sessions[x] == states[i].sessions[x]
    decreases j - i
  {
    if i < j {
      UnconcernedSessionStays(states, run, i, j - 1, x);
      assert Next(states[j - 1], run[j - 1], states[j]);
      StepSpares(states[j - 1], run[j - 1], x);
    }
  }

  /** In any run, a refresh never touches a session of another user. */
  lemma RefreshSparesOtherUsers(states: seq<Db>, run: seq<Action>, k: nat, x: nat)
    requires IsRun(states, run) && k < |run| && run[k].RefreshTokens? && x in states[k].sessions
    requires var id := run[k].token.sessionId;
             id.Some? && id.value in states[k].sessions ==>
               states[k].sessions[id.value].userId != states[k].sessions[x].userId
    ensures x in states[k + 1].sessions && states[k + 1].sessions[x] == states[k].sessions[x]
  {
    assert Next(states[k], run[k], states[k + 1]);
    if InFamilyOf(states[k], run[k].token, x) {
      FamiliesAreChains(states, run, k, run[k].token.sessionId.value, x);
    }
    StepSpares(states[k], run[k], x);
  }

  /** A refresh that ends in anything but a rotation, a detected reuse or a failed validation leaves
      the database as it was; so does one that comes with no usable token. */
  lemma RefusedRefreshChangesNothing(states: seq<Db>, run: seq<Action>, k: nat)
    requires IsRun(states, run) && k < |run| && run[k].RefreshTokens?
    ensures var out := Step(states[k], run[k]).1;
            !out.Issued? && out != Failed(ReuseDetected) && out != Failed(ValidationFailed) ==>
              states[k + 1] == states[k]
    ensures !run[k].token.signed || run[k].token.kind != Refresh || run[k].token.expiresAt <= run[k].decodedAt
            || run[k].token.familyId.None? || run[k].token.sessionId.None?
            || run[k].token.sessionId.value !in states[k].sessions ==>
              states[k + 1] == states[k] && Step(states[k], run[k]).1.Failed?
  {
    assert Next(states[k], run[k], states[k + 1]);
  }

  /** A refresh token that the service has not issued, naming a session that is active and not
      expired, is refused and ends the family of that session; naming any other session, it is
      refused as that session's own token would be. */
  lemma RefreshOfForeignToken(states: seq<Db>, run: seq<Action>, k: nat)
    requires IsRun(states, run) && k < |run| && run[k].RefreshTokens? && !WasIssued(states[k], run[k].token)
    ensures var token, at := run[k].token, run[k].decodedAt;
            Step(states[k], run[k]).1 ==
            if !token.signed then Failed(InvalidToken)
            else if token.expiresAt <= at then Failed(TokenExpired)
            else if token.kind == Access then Failed(InvalidToken)
            else if token.sessionId.None? || token.familyId.None? then Failed(IncompleteClaims)
            else if token.sessionId.value !in states[k].sessions then Failed(SessionNotFound)
            else
              var s := states[k].sessions[token.sessionId.value];
              if s.replacedBy.Some? then Failed(ReuseDetected)
              else if s.revokedAt.Some? then Failed(TokenRevoked)
              else if s.expiresAt <= run[k].now then Failed(TokenExpired)
              else Failed(ValidationFailed)
    ensures Step(states[k], run[k]).1 == Failed(ValidationFailed) ==>
              && run[k].token.sessionId.Some? && run[k].token.sessionId.value in states[k].sessions
              && Dead(states[k + 1], states[k].sessions[run[k].token.sessionId.value].familyId)
  {
    assert Next(states[k], run[k], states[k + 1]);
    ReachableInv(states, run, k);
    var db, id := states[k], run[k].token.sessionId;
    hide IsRun, Inv, HasChain, Step;
    if id.Some? && id.value in db.sessions {
      assert db.sessions[id.value].tokenHash != Digest(run[k].token);
      RowOf(db, id.value);
      ChainFacts(db, db.sessions[id.value].familyId, id.value, id.value);
    }
    RefreshOfMismatching(db, run[k]);
  }

  lemma RefreshOfMismatching(db: Db, a: Action)
    requires a.RefreshTokens?
    requires a.token.sessionId.Some? && a.token.sessionId.value in db.sessions ==>
               var s := db.sessions[a.token.sessionId.value];
               s.tokenHash != Digest(a.token) && (s.replacedBy.Some? ==> s.revokedAt.Some?)
    ensures var token, at := a.token, a.decodedAt;
            Step(db, a).1 ==
            if !token.signed then Failed(InvalidToken)
            else if token.expiresAt <= at then Failed(TokenExpired)
            else if token.kind == Access then Failed(InvalidToken)
            else if token.sessionId.None? || token.familyId.None? then Failed(IncompleteClaims)
            else if token.sessionId.value !in db.sessions then Failed(SessionNotFound)
            else
              var s := db.sessions[token.sessionId.value];
              if s.replacedBy.Some? then Failed(ReuseDetected)
              else if s.revokedAt.Some? then Failed(TokenRevoked)
              else if s.expiresAt <= a.now then Failed(TokenExpired)
              else Failed(ValidationFailed)
    ensures Step(db, a).1 == Failed(ValidationFailed) ==>
              && a.token.sessionId.Some? && a.token.sessionId.value in db.sessions
              && Dead(Step(db, a).0, db.sessions[a.token.sessionId.value].familyId)
  {
    hide Dead, FamilyRevoked, Rotated;
    if a.token.sessionId.Some? && a.token.sessionId.value in db.sessions {
      RevokedFamilyIsDead(db, a.token.sessionId.value, a.now);
    }
  }

  /** Exactly when the validation of a presented token fails: when its session is active and not
      expired, and user, identifier, family or hash differ. */
  lemma ValidationFailsIff(db: Db, a: Action)
    requires a.RefreshTokens?
    ensures Step(db, a).1 == Failed(ValidationFailed) <==>
              var token := a.token;
              && token.signed && token.kind == Refresh && token.expiresAt > a.decodedAt
              && token.familyId.Some? && token.sessionId.Some? && token.sessionId.value in db.sessions
              && var s := db.sessions[token.sessionId.value];
                 && s.revokedAt.None? && s.expiresAt > a.now
                 && (|| s.userId != token.subject || s.tokenJti != token.jti
                     || s.familyId != token.familyId.value || s.tokenHash != Digest(token))
  {
  }

  lemma RevokedFamilyIsDead(db: Db, id: nat, now: int)
    requires id in db.sessions
    ensures var family := db.sessions[id].familyId;
            Dead(db.(sessions := FamilyRevoked(db.sessions, family, now)), family)
  {
    var family := db.sessions[id].familyId;
    var after := FamilyRevoked(db.sessions, family, now);
    assert after[id].familyId == family;
  }

  /** A row that an operation revokes carries the time of the operation. */
  lemma RevocationCarriesTime(db: Db, a: Action, x: nat)
    requires Enabled(db, a) && x in db.sessions && db.sessions[x].revokedAt.None?
    ensures x in Step(db, a).0.sessions
    ensures Step(db, a).0.sessions[x].revokedAt.Some? ==>
              (a.RefreshTokens? || a.Logout? || a.LogoutAll?) && Step(db, a).0.sessions[x].revokedAt == Some(a.now)
  {
    StepGrows(db, a);
  }

  /** A rotation revokes the presented session, points it to the new one, adds that one as an active
      session of the same user and family, and changes nothing else. */
  lemma RotationIsExact(db: Db, a: Action, token: Token)
    requires Enabled(db, a) && Rotates(db, a, token)
    ensures token.sessionId.Some? && token.sessionId.value in db.sessions
    ensures var (after, out) := Step(db, a);
            var id := token.sessionId.value;
            var s := db.sessions[id];
            && after.users == db.users
            && after.sessions.Keys == db.sessions.Keys + {a.sessionId}
            && after.sessions[id] == s.(revokedAt := Some(a.now), replacedBy := Some(a.sessionId))
            && after.sessions[a.sessionId] == Session(s.userId, a.jti, Digest(out.token), s.familyId, a.expiresAt, None, None)
            && forall x :: x in db.sessions && x != id ==> after.sessions[x] == db.sessions[x]
  {
    RefreshEffect(db, a.token, a.decodedAt, a.now, a.sessionId, a.jti, a.expiresAt);
  }

  /** A registration or a login that succeeds adds one active session of a new family for its own
      account, and changes no other session. */
  lemma SignInAddsOneSession(db: Db, a: Action)
    requires Enabled(db, a) && (a.Register? || a.Login?) && Step(db, a).1.Issued?
    ensures var (after, out) := Step(db, a);
            && after.sessions.Keys == db.sessions.Keys + {a.sessionId}
            && after.sessions[a.sessionId] ==
               Session(out.token.subject, a.jti, Digest(out.token), a.familyId, a.expiresAt, None, None)
            && (forall x :: x in db.sessions ==> after.sessions[x] == db.sessions[x])
            && out.token.subject in after.users && after.users[out.token.subject].email == a.email
            && after.users[out.token.subject].active
            && (a.Register? ==>
                  && out.token.subject == a.userId
                  && after.users == db.users[a.userId := Account(a.email, a.username, true)])
            && (a.Login? ==> after.users == db.users && a.passwordMatches)
  {
    if a.Login? {
      assert TheOnly(ByEmail(db.users, a.email)) in ByEmail(db.users, a.email);
    }
  }

  /** A registration or a login that fails changes nothing. */
  lemma RefusedSignInChangesNothing(db: Db, a: Action)
    requires (a.Register? || a.Login?) && !Step(db, a).1.Issued?
    ensures Step(db, a).0 == db && Step(db, a).1.Failed?
  {
  }

  /** A token that was just issued belongs to an active account and can be rotated at once. */
  lemma IssuedTokenIsUsable(
      states: seq<Db>, run: seq<Action>, k: nat, decodedAt: int, now: int, newId: nat, jti: nat, expiresAt: int)
    requires IsRun(states, run) && k < |run| && Step(states[k], run[k]).1.Issued?
    requires decodedAt <= now < Step(states[k], run[k]).1.token.expiresAt
    ensures var token := Step(states[k], run[k]).1.token;
            RefreshStep(states[k + 1], token, decodedAt, now, newId, jti, expiresAt).1.Issued?
  {
    hide RefreshStep, RegisterStep, LoginStep, HasChain, WasIssued;
    var a := run[k];
    var token := Step(states[k], a).1.token;
    assert Next(states[k], a, states[k + 1]);
    IssuedTokensAreStored(states[k], a);
    RefreshOfIssuedToken(states, run, k + 1, token, decodedAt, now, newId, jti, expiresAt);
    ReachableInv(states, run, k + 1);
    IssuedTokenMatches(states[k + 1], token);
    if a.RefreshTokens? {
      RotationIsExact(states[k], a, a.token);
      RotatingAccountIsActive(states[k], a);
    } else {
      SignInAddsOneSession(states[k], a);
    }
  }

  lemma RotatingAccountIsActive(db: Db, a: Action)
    requires a.RefreshTokens? && Step(db, a).1.Issued?
    ensures var user := Step(db, a).1.token.subject;
            user in db.users && db.users[user].active && Step(db, a).1.token.sessionId == Some(a.sessionId)
  {
  }

  /** Exactly how a logout ends, for any token. */
  lemma LogoutEndsIn(db: Db, token: Token, decodedAt: int, now: int)
    ensures var (after, out) := LogoutStep(db, token, decodedAt, now);
            && (out == Failed(InvalidToken) <==>
                  || !token.signed
                  || (token.expiresAt > decodedAt
                      && (|| token.kind == Access
                          || (token.sessionId.Some? && token.sessionId.value in db.sessions
                              && db.sessions[token.sessionId.value].tokenHash != Digest(token)))))
            && (out == Failed(TokenExpired) <==> token.signed && token.expiresAt <= decodedAt)
            && (out == Failed(IncompleteClaims) <==>
                  token.signed && token.expiresAt > decodedAt && token.kind == Refresh && token.sessionId.None?)
            && (out.Done? <==>
                  && token.signed && token.expiresAt > decodedAt && token.kind == Refresh && token.sessionId.Some?
                  && (token.sessionId.value in db.sessions ==>
                        db.sessions[token.sessionId.value].tokenHash == Digest(token)))
            && (out.Done? ==>
                  && out.revoked <= 1
                  && (out.revoked == 1 <==>
                        token.sessionId.value in db.sessions && db.sessions[token.sessionId.value].revokedAt.None?))
            && (out != Done(1) ==> after == db)
            && (out == Done(1) ==> after == db.(sessions := db.sessions[token.sessionId.value :=
                                      db.sessions[token.sessionId.value].(revokedAt := Some(now))]))
  {
    if token.sessionId.Some? && token.sessionId.value in db.sessions {
      var id := token.sessionId.value;
      assert db.sessions[id := db.sessions[id]] == db.sessions;
    }
  }

  // ---------------------------------------------------------------- accounts

  /** What one operation does to the accounts that exist: only `SetActive` changes one, and only
      whether it is active. */
  lemma StepKeepsAccounts(db: Db, a: Action, user: nat)
    requires Enabled(db, a) && user in db.users
    ensures user in Step(db, a).0.users
    ensures Step(db, a).0.users[user] ==
            if a.SetActive? && a.userId == user then db.users[user].(active := a.active) else db.users[user]
  {
    if !Step(db, a).1.Issued? {
      QuietEffect(db, a);
    } else if a.RefreshTokens? {
      RefreshEffect(db, a.token, a.decodedAt, a.now, a.sessionId, a.jti, a.expiresAt);
    }
  }

  lemma {:induction false} AccountStays(states: seq<Db>, run: seq<Action>, i: nat, j: nat, user: nat)
    requires IsRun(states, run) && i <= j <= |run| && user in states[i].users
    ensures user in states[j].users
    ensures states[j].users[user].email == states[i].users[user].email
    ensures states[j].users[user].username == states[i].users[user].username
    decreases j - i
  {
    if i < j {
      AccountStays(states, run, i, j - 1, user);
      assert Next(states[j - 1], run[j - 1], states[j]);
      StepKeepsAccounts(states[j - 1], run[j - 1], user);
    }
  }

  lemma OneHolder(users: map<nat, Account>, email: string, username: string)
    requires AccountsUnique(users)
    ensures |ByEmail(users, email)| <= 1 && |ByUsername(users, username)| <= 1
  {
    AtMostOne(ByEmail(users, email));
    AtMostOne(ByUsername(users, username));
  }

  /** In every reachable state a lookup finds at most one account. */
  lemma AccountsAreUnique(states: seq<Db>, run: seq<Action>, k: nat, email: string, username: string)
    requires IsRun(states, run) && k <= |run|
    ensures |ByEmail(states[k].users, email)| <= 1 && |ByUsername(states[k].users, username)| <= 1
  {
    ReachableInv(states, run, k);
    OneHolder(states[k].users, email, username);
  }

  /** The action registers this account. */
  ghost predicate Registers(db: Db, a: Action, user: nat) {
    a.Register? && a.userId == user && Step(db, a).1.Issued?
  }

  /** Once an account is registered, its address and its name are taken for the rest of the run. */
  lemma NamesStayTaken(states: seq<Db>, run: seq<Action>, i: nat, k: nat, user: nat)
    requires IsRun(states, run) && i < k < |run| && Registers(states[i], run[i], user) && run[k].Register?
    requires run[k].email == run[i].email || run[k].username == run[i].username
    ensures Step(states[k], run[k]).1 ==
            if !run[k].wellFormed then Failed(InvalidRegistration)
            else if |ByEmail(states[k].users, run[k].email)| == 1 then Failed(EmailExists)
            else Failed(UsernameExists)
  {
    RegisteredStays(states, run, i, k, user);
    AccountsAreUnique(states, run, k, run[k].email, run[k].username);
    if run[k].email == run[i].email {
      assert user in ByEmail(states[k].users, run[k].email);
    } else {
      assert user in ByUsername(states[k].users, run[k].username);
    }
  }

  lemma RegisteredStays(states: seq<Db>, run: seq<Action>, i: nat, k: nat, user: nat)
    requires IsRun(states, run) && i < k <= |run| && Registers(states[i], run[i], user)
    ensures user in states[k].users
    ensures states[k].users[user].email == run[i].email && states[k].users[user].username == run[i].username
  {
    assert Next(states[i], run[i], states[i + 1]);
    AccountStays(states, run, i + 1, k, user);
  }

  /** Exactly when a registration succeeds: when its texts are well formed and no account has its
      address or its name. */
  lemma RegistersIff(states: seq<Db>, run: seq<Action>, k: nat)
    requires IsRun(states, run) && k < |run| && run[k].Register?
    ensures Step(states[k], run[k]).1.Issued? <==>
              && run[k].wellFormed
              && (forall u :: u in states[k].users ==>
                    states[k].users[u].email != run[k].email && states[k].users[u].username != run[k].username)
  {
    var users, a := states[k].users, run[k];
    AccountsAreUnique(states, run, k, a.email, a.username);
    forall u | u in users
      ensures users[u].email == a.email <==> u in ByEmail(users, a.email)
      ensures users[u].username == a.username <==> u in ByUsername(users, a.username)
    {
    }
  }

  /** A login with an address that no account has is refused like one with a wrong password. */
  lemma LoginOfUnknown(db: Db, a: Action)
    requires a.Login? && forall u :: u in db.users ==> db.users[u].email != a.email
    ensures Step(db, a) == (db, Failed(InvalidCredentials))
  {
    assert ByEmail(db.users, a.email) == {};
  }

  /** Exactly how a login with the address of a registered account ends, at any later time. */
  lemma LoginOfRegistered(states: seq<Db>, run: seq<Action>, i: nat, k: nat, user: nat)
    requires IsRun(states, run) && i < k < |run| && Registers(states[i], run[i], user) && run[k].Login?
    requires run[k].email == run[i].email
    ensures user in states[k].users
    ensures var a := run[k];
            Step(states[k], a).1 ==
            if !a.passwordMatches then Failed(InvalidCredentials)
            else if !states[k].users[user].active then Failed(InactiveUser)
            else Issued(RefreshTokenFor(user, a.sessionId, a.familyId, a.jti, a.expiresAt))
  {
    RegisteredStays(states, run, i, k, user);
    AccountsAreUnique(states, run, k, run[k].email, "");
    assert user in ByEmail(states[k].users, run[k].email);
    OnlyOne(ByEmail(states[k].users, run[k].email), user);
  }

  // ---------------------------------------------------------------- the service

  /** `AuthService` over the session table of one database. */
  class AuthService {
    var sessions: map<nat, Session>
    var users: map<nat, Account>

    ghost function View(): Db
      reads this
    {
      Db(sessions, users)
    }

    constructor ()
      ensures View() == EMPTY
    {
      sessions, users := map[], map[];
    }

    /** `_create_session` */
    method CreateSession(userId: nat, sessionId: nat, familyId: nat, jti: nat, expiresAt: int)
      returns (token: Token)
      modifies this
      ensures (View(), Issued(token)) ==
              CreateSessionStep(old(View()), userId, sessionId, familyId, jti, expiresAt)
    {
      token := RefreshTokenFor(userId, sessionId, familyId, jti, expiresAt);
      sessions := sessions[sessionId := Session(userId, jti, Digest(token), familyId, expiresAt, None, None)];
    }

    /** `register` */
    method Register(
        wellFormed: bool, email: string, username: string, userId: nat,
        sessionId: nat, familyId: nat, jti: nat, expiresAt: int)
      returns (r: Outcome)
      modifies this
      ensures (View(), r) == RegisterStep(old(View()), wellFormed, email, username, userId,
                                          sessionId, familyId, jti, expiresAt)
    {
      if !wellFormed {
        return Failed(InvalidRegistration);
      }
      var holder := OneOrNone(ByEmail(users, email));
      if holder.Err? {
        return Failed(MultipleRows);
      }
      if holder.value.Some? {
        return Failed(EmailExists);
      }
      holder := OneOrNone(ByUsername(users, username));
      if holder.Err? {
        return Failed(MultipleRows);
      }
      if holder.value.Some? {
        return Failed(UsernameExists);
      }
      users := users[userId := Account(email, username, true)];
      var token := CreateSession(userId, sessionId, familyId, jti, expiresAt);
      return Issued(token);
    }

    /** `login` */
    method Login(
        email: string, passwordMatches: bool,
        sessionId: nat, familyId: nat, jti: nat, expiresAt: int)
      returns (r: Outcome)
      modifies this
      ensures (View(), r) == LoginStep(old(View()), email, passwordMatches, sessionId, familyId, jti, expiresAt)
    {
      var found := OneOrNone(ByEmail(users, email));
      if found.Err? {
        return Failed(MultipleRows);
      }
      if found.value.None? || !passwordMatches {
        return Failed(InvalidCredentials);
      }
      var user := found.value.value;
      assert user in ByEmail(users, email);
      if !users[user].active {
        return Failed(InactiveUser);
      }
      var token := CreateSession(user, sessionId, familyId, jti, expiresAt);
      return Issued(token);
    }

    /** The repository's `revoke_family`: how many rows the update touched. */
    method RevokeFamily(familyId: nat, now: int) returns (count: nat)
      modifies this
      ensures View() == old(View()).(sessions := FamilyRevoked(old(sessions), familyId, now))
      ensures count == |set id | id in old(sessions) && old(sessions)[id].familyId == familyId
                                  && old(sessions)[id].revokedAt.None?|
    {
      var hit := set id | id in sessions && sessions[id].familyId == familyId && sessions[id].revokedAt.None?;
      sessions := map id | id in sessions ::
        if id in hit then sessions[id].(revokedAt := Some(now)) else sessions[id];
      count := |hit|;
    }

    /** The repository's `revoke_all_for_user` */
    method RevokeAllForUser(userId: nat, now: int) returns (count: nat)
      modifies this
      ensures View() == old(View()).(sessions := UserRevoked(old(sessions), userId, now))
      ensures count == |ActiveOf(old(sessions), userId)|
    {
      var hit := ActiveOf(sessions, userId);
      sessions := map id | id in sessions ::
        if id in hit then sessions[id].(revokedAt := Some(now)) else sessions[id];
      count := |hit|;
    }

    /** `refresh_tokens` */
    method RefreshTokens(token: Token, decodedAt: int, now: int, newId: nat, jti: nat, expiresAt: int)
      returns (r: Outcome)
      requires newId !in sessions
      modifies this
      ensures (View(), r) == RefreshStep(old(View()), token, decodedAt, now, newId, jti, expiresAt)
    {
      var claims := Decode(token, decodedAt);
      if claims.Err? {
        return Failed(claims.error);
      }
      if token.sessionId.None? || token.familyId.None? {
        return Failed(IncompleteClaims);
      }
      var id := token.sessionId.value;
      if id !in sessions {
        return Failed(SessionNotFound);
      }
      var session := sessions[id];
      if session.revokedAt.Some? {
        if session.replacedBy.Some? {
          var _ := RevokeFamily(session.familyId, now);
          return Failed(ReuseDetected);
        }
        return Failed(TokenRevoked);
      }
      if session.expiresAt <= now {
        return Failed(TokenExpired);
      }
      if || session.userId != token.subject
         || session.tokenJti != token.jti
         || Some(session.familyId) != token.familyId
         || Digest(token) != session.tokenHash
      {
        var _ := RevokeFamily(session.familyId, now);
        return Failed(ValidationFailed);
      }
      if session.userId !in users {
        return Failed(UserNotFound);
      }
      if !users[session.userId].active {
        return Failed(InactiveUser);
      }
      var newToken := RefreshTokenFor(session.userId, newId, session.familyId, jti, expiresAt);
      var replacement := Session(session.userId, jti, Digest(newToken), session.familyId, expiresAt, None, None);
      sessions := sessions[newId := replacement];
      sessions := sessions[id := sessions[id].(revokedAt := Some(now))];
      sessions := sessions[id := sessions[id].(replacedBy := Some(newId))];
      assert sessions == Rotated(old(sessions), id, newId, jti, expiresAt, now);
      return Issued(newToken);
    }

    /** `logout` */
    method Logout(token: Token, decodedAt: int, now: int) returns (r: Outcome)
      modifies this
      ensures (View(), r) == LogoutStep(old(View()), token, decodedAt, now)
    {
      var claims := Decode(token, decodedAt);
      if claims.Err? {
        return Failed(claims.error);
      }
      if token.sessionId.None? {
        return Failed(IncompleteClaims);
      }
      var id := token.sessionId.value;
      if id !in sessions {
        return Done(0);
      }
      if Digest(token) != sessions[id].tokenHash {
        return Failed(InvalidToken);
      }
      if sessions[id].revokedAt.None? {
        sessions := sessions[id := sessions[id].(revokedAt := Some(now))];
        return Done(1);
      }
      assert sessions[id := sessions[id]] == sessions;
      return Done(0);
    }

    /** `logout_all` */
    method LogoutAll(userId: nat, now: int) returns (count: nat)
      modifies this
      ensures (View(), Done(count)) == Step(old(View()), Action.LogoutAll(userId, now))
    {
      count := RevokeAllForUser(userId, now);
    }
  }
}
