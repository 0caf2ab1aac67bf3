/**
 * Sign-in sessions: refresh tokens, their rotation, and password resets.
 * Token hashes are taken to be injective, so a table whose token_hash column
 * is unique is keyed here by what was hashed. Generated ids come in with the
 * request, and an insert that repeats a primary key fails.
 */
module Auth {
  import opened Common
  import opened Lists

  /** A JWT with its claims; `genuine` says that its signature verifies. */
  datatype Token = Token(sub: Id, jti: Id, isRefresh: bool, expiresAt: int, genuine: bool)

  datatype RefreshRow = RefreshRow(id: Id, userId: Id, expiresAt: int, revoked: bool)

  datatype ResetRow = ResetRow(userId: Id, expiresAt: int, used: bool)

  datatype Sessions = Sessions(
    emails: map<string, Id>, // unique email to user
    passwords: map<Id, string>, // user to password hash
    refresh: map<Token, RefreshRow>,
    resets: map<Id, ResetRow>) // keyed by the opaque secret

  datatype Request =
    | Register(userId: Id, email: string, password: string, jti: Id, ttl: int)
    | Login(email: string, password: string, jti: Id, ttl: int)
    | Refresh(token: Token, jti: Id, ttl: int)
    | Logout(token: Token)
    | ForgotPassword(email: string, secret: Id, ttl: int)
    | ResetPassword(secret: Id, password: string)

  datatype Reply = Issued(token: Token) | Accepted | Done | EmailTaken | Unauthorized | BadToken | KeyTaken

  // ---------- The repository's lookups and updates ----------

  function SignRefresh(userId: Id, jti: Id, expiresAt: int): Token {
    Token(userId, jti, true, expiresAt, true)
  }

  /** findActiveRefreshToken: by hash, not revoked, not expired. */
  predicate IsActive(s: Sessions, t: Token, now: int) {
    t in s.refresh && !s.refresh[t].revoked && s.refresh[t].expiresAt > now
  }

  predicate IsActiveReset(s: Sessions, secret: Id, now: int) {
    secret in s.resets && !s.resets[secret].used && s.resets[secret].expiresAt > now
  }

  /** The primary key of a new row is free, and so is its hash. */
  predicate CanInsert(s: Sessions, t: Token) {
    forall u :: u in s.refresh ==> s.refresh[u].id != t.jti && u != t
  }

  function Inserted(s: Sessions, t: Token): Sessions {
    s.(refresh := s.refresh[t := RefreshRow(t.jti, t.sub, t.expiresAt, false)])
  }

  /** UPDATE ... SET revoked_at WHERE id. */
  function RevokedById(s: Sessions, id: Id): Sessions {
    s.(refresh := map t | t in s.refresh :: if s.refresh[t].id == id then s.refresh[t].(revoked := true)
        else s.refresh[t])
  }

  function RevokedByUser(s: Sessions, user: Id): Sessions {
    s.(refresh := map t | t in s.refresh :: if s.refresh[t].userId == user then s.refresh[t].(revoked := true)
        else s.refresh[t])
  }

  // ---------- One request ----------

  function Issue(s: Sessions, userId: Id, jti: Id, expiresAt: int): (Sessions, Reply) {
    var t := SignRefresh(userId, jti, expiresAt);
    if CanInsert(s, t) then (Inserted(s, t), Issued(t)) else (s, KeyTaken)
  }

  function HandleRefresh(s: Sessions, t: Token, jti: Id, ttl: int, now: int): (Sessions, Reply) {
    if !t.genuine || t.expiresAt <= now || !t.isRefresh then (s, Unauthorized)
    else if !IsActive(s, t, now) || s.refresh[t].id != t.jti then (s, Unauthorized)
    else if t.sub !in s.passwords then (s, Unauthorized)
    else
      var next := SignRefresh(t.sub, jti, now + ttl);
      if CanInsert(s, next) then (Inserted(RevokedById(s, s.refresh[t].id), next), Issued(next)) else (s, KeyTaken)
  }

  function HandleReset(s: Sessions, secret: Id, password: string, now: int): (Sessions, Reply) {
    if !IsActiveReset(s, secret, now) then (s, BadToken)
    else
      var user := s.resets[secret].userId;
      (RevokedByUser(s, user).(resets := s.resets[secret := s.resets[secret].(used := true)],
                               passwords := s.passwords[user := password]), Done)
  }

  function Handle(s: Sessions, q: Request, now: int): (Sessions, Reply) {
    match q
    case Register(userId, email, password, jti, ttl) =>
      if email in s.emails then (s, EmailTaken)
      else if userId in s.passwords then (s, KeyTaken)
      else Issue(s.(emails := s.emails[email := userId], passwords := s.passwords[userId := password]), userId, jti,
          now + ttl)
    case Login(email, password, jti, ttl) =>
      if email in s.emails && s.emails[email] in s.passwords && s.passwords[s.emails[email]] == password
      then Issue(s, s.emails[email], jti, now + ttl)
      else (s, Unauthorized)
    case Refresh(t, jti, ttl) => HandleRefresh(s, t, jti, ttl, now)
    case Logout(t) => (if IsActive(s, t, now) then RevokedById(s, s.refresh[t].id) else s, Done)
    case ForgotPassword(email, secret, ttl) =>
      if email !in s.emails then (s, Accepted)
      else if secret in s.resets then (s, KeyTaken)
      else (s.(resets := s.resets[secret := ResetRow(s.emails[email], now + ttl, false)]), Accepted)
    case ResetPassword(secret, password) => HandleReset(s, secret, password, now)
  }

  // ---------- Runs ----------

  datatype Call = Call(request: Request, now: int)

  /** The tables after the first i calls. */
  function At(s: Sessions, calls: seq<Call>, i: nat): Sessions
    requires i <= |calls|
  {
    if i == 0 then s else Handle(At(s, calls, i - 1), calls[i - 1].request, calls[i - 1].now).0
  }

  function ReplyTo(s: Sessions, calls: seq<Call>, i: nat): Reply
    requires i < |calls|
  {
    Handle(At(s, calls, i), calls[i].request, calls[i].now).1
  }

  /** Primary keys are unique, and each row is that of the token signed with its id for its user. */
  predicate Valid(s: Sessions) {
    && (forall t :: t in s.refresh
          ==> s.refresh[t].id == t.jti && s.refresh[t].userId == t.sub && s.refresh[t].expiresAt == t.expiresAt)
    && (forall t, u :: t in s.refresh && u in s.refresh && s.refresh[t].id == s.refresh[u].id ==> t == u)
  }

  lemma InsertKeepsValid(s: Sessions, t: Token)
    requires Valid(s) && CanInsert(s, t)
    ensures Valid(Inserted(s, t))
  {
  }

  lemma RevokingKeepsValid(s: Sessions, t: Sessions)
    requires Valid(s) && t.refresh.Keys == s.refresh.Keys
    requires forall u :: u in s.refresh ==> t.refresh[u] == s.refresh[u].(revoked := t.refresh[u].revoked)
    ensures Valid(t)
  {
  }

  lemma RefreshKeepsValid(s: Sessions, t: Token, jti: Id, ttl: int, now: int)
    requires Valid(s)
    ensures Valid(HandleRefresh(s, t, jti, ttl, now).0)
  {
    if HandleRefresh(s, t, jti, ttl, now).1.Issued? {
      var revoked := RevokedById(s, s.refresh[t].id);
      RevokingKeepsValid(s, revoked);
      InsertKeepsValid(revoked, SignRefresh(t.sub, jti, now + ttl));
    }
  }

  lemma StepKeepsValid(s: Sessions, q: Request, now: int)
    requires Valid(s)
    ensures Valid(Handle(s, q, now).0)
  {
    match q
    case Refresh(t, jti, ttl) => RefreshKeepsValid(s, t, jti, ttl, now);
    case Logout(t) => RevokingKeepsValid(s, Handle(s, q, now).0);
    case ResetPassword(_, _) => RevokingKeepsValid(s, Handle(s, q, now).0);
    case _ =>
  }

  lemma {:induction false} EveryRunIsValid(s: Sessions, calls: seq<Call>, i: nat)
    requires Valid(s) && i <= |calls|
    ensures Valid(At(s, calls, i))
  {
    if i > 0 {
      EveryRunIsValid(s, calls, i - 1);
      StepKeepsValid(At(s, calls, i - 1), calls[i - 1].request, calls[i - 1].now);
    }
  }

  /** A token whose row is revoked. */
  predicate Dead(s: Sessions, t: Token) {
    t in s.refresh && s.refresh[t].revoked
  }

  lemma DeadStays(s: Sessions, q: Request, now: int, t: Token)
    requires Dead(s, t)
    ensures Dead(Handle(s, q, now).0, t)
    ensures q.Refresh? && q.token == t ==> Handle(s, q, now).1 == Unauthorized
  {
  }

  lemma {:induction false} DeadFrom(s: Sessions, calls: seq<Call>, t: Token, i: nat, j: nat)
    requires i <= j <= |calls| && Dead(At(s, calls, i), t)
    ensures Dead(At(s, calls, j), t)
    decreases j - i
  {
    if i < j {
      DeadFrom(s, calls, t, i, j - 1);
      DeadStays(At(s, calls, j - 1), calls[j - 1].request, calls[j - 1].now, t);
    }
  }

  /** If call i leaves a token dead, every later refresh with it is refused. */
  lemma LaterCallsRefuse(s: Sessions, calls: seq<Call>, t: Token, i: nat, j: nat)
    requires i < j < |calls| && Dead(At(s, calls, i + 1), t)
    requires calls[j].request.Refresh? && calls[j].request.token == t
    ensures ReplyTo(s, calls, j) == Unauthorized
  {
    DeadFrom(s, calls, t, i + 1, j);
    DeadStays(At(s, calls, j), calls[j].request, calls[j].now, t);
  }

  lemma RefreshKills(s: Sessions, t: Token, jti: Id, ttl: int, now: int)
    requires Valid(s) && HandleRefresh(s, t, jti, ttl, now).1.Issued?
    ensures Dead(HandleRefresh(s, t, jti, ttl, now).0, t)
  {
  }

  /** In every run no refresh token is accepted twice. */
  lemma NeverAcceptedTwice(s: Sessions, calls: seq<Call>, i: nat, j: nat)
    requires Valid(s) && i < j < |calls|
    requires calls[i].request.Refresh? && calls[j].request.Refresh? && calls[i].request.token == calls[j].request.token
    requires ReplyTo(s, calls, i).Issued?
    ensures ReplyTo(s, calls, j) == Unauthorized
  {
    var q := calls[i].request;
    EveryRunIsValid(s, calls, i);
    RefreshKills(At(s, calls, i), q.token, q.jti, q.ttl, calls[i].now);
    LaterCallsRefuse(s, calls, q.token, i, j);
  }

  // ---------- Exactly which tokens are accepted ----------

  /** A token whose row is there and not revoked. */
  predicate Alive(s: Sessions, t: Token) {
    t in s.refresh && !s.refresh[t].revoked
  }

  /**
   * The requests that end a token: its successful refresh, its logout before it
   * expires, a password reset of its user.
   */
  predicate Ends(s: Sessions, q: Request, now: int, t: Token) {
    || (q.Refresh? && q.token == t && Handle(s, q, now).1.Issued?)
    || (q.Logout? && q.token == t && now < t.expiresAt)
    || (q.ResetPassword? && Handle(s, q, now).1.Done? && s.resets[q.secret].userId == t.sub)
  }

  predicate Issues(s: Sessions, q: Request, now: int, t: Token) {
    Handle(s, q, now).1 == Issued(t)
  }

  lemma RefreshAlive(s: Sessions, t: Token, jti: Id, ttl: int, now: int, u: Token)
    requires Valid(s)
    ensures var q := Refresh(t, jti, ttl);
            Alive(Handle(s, q, now).0, u) <==> (Alive(s, u) && !Ends(s, q, now, u)) || Issues(s, q, now, u)
  {
    if HandleRefresh(s, t, jti, ttl, now).1.Issued? && u in s.refresh {
      assert u != t ==> s.refresh[u].id != s.refresh[t].id;
    }
  }

  /**
   * One request: a token is alive after it exactly when it was alive and the
   * request does not end it, or the request issues it.
   */
  lemma AliveAfter(s: Sessions, q: Request, now: int, t: Token)
    requires Valid(s)
    ensures Alive(Handle(s, q, now).0, t) <==> (Alive(s, t) && !Ends(s, q, now, t)) || Issues(s, q, now, t)
  {
    match q
    case Refresh(r, jti, ttl) => RefreshAlive(s, r, jti, ttl, now, t);
    case Logout(l) =>
      if IsActive(s, l, now) && t in s.refresh {
        assert t != l ==> s.refresh[t].id != s.refresh[l].id;
      }
    case _ =>
  }

  predicate AliveAt(s: Sessions, calls: seq<Call>, i: int, t: Token) {
    0 <= i <= |calls| && Alive(At(s, calls, i), t)
  }

  predicate EndsAt(s: Sessions, calls: seq<Call>, k: int, t: Token) {
    0 <= k < |calls| && Ends(At(s, calls, k), calls[k].request, calls[k].now, t)
  }

  predicate IssuedAt(s: Sessions, calls: seq<Call>, k: int, t: Token) {
    0 <= k < |calls| && ReplyTo(s, calls, k) == Issued(t)
  }

  lemma AliveStep(s: Sessions, calls: seq<Call>, k: nat, t: Token)
    requires Valid(s) && k < |calls|
    ensures AliveAt(s, calls, k + 1, t)
         <==> (AliveAt(s, calls, k, t) && !EndsAt(s, calls, k, t)) || IssuedAt(s, calls, k, t)
  {
    EveryRunIsValid(s, calls, k);
    AliveAfter(At(s, calls, k), calls[k].request, calls[k].now, t);
  }

  function EndedIn(s: Sessions, calls: seq<Call>, t: Token): int -> bool {
    (k: int) => EndsAt(s, calls, k, t)
  }

  function Living(s: Sessions, calls: seq<Call>, t: Token): int -> bool {
    (i: int) => AliveAt(s, calls, i, t)
  }

  function IssuedIn(s: Sessions, calls: seq<Call>, t: Token): int -> bool {
    (k: int) => IssuedAt(s, calls, k, t)
  }

  lemma AliveTurns(s: Sessions, calls: seq<Call>, t: Token, i: nat)
    requires Valid(s) && i <= |calls|
    ensures forall k :: 0 <= k < i ==> Turns(Living(s, calls, t), EndedIn(s, calls, t), IssuedIn(s, calls, t), k)
  {
    forall k | 0 <= k < i ensures Turns(Living(s, calls, t), EndedIn(s, calls, t), IssuedIn(s, calls, t), k) {
      AliveStep(s, calls, k, t);
    }
  }

  /**
   * In every run, a token is alive exactly when it was alive at the start or
   * issued since, and no call ended it afterwards.
   */
  lemma AliveExactlyWhen(s: Sessions, calls: seq<Call>, t: Token, i: nat)
    requires Valid(s) && i <= |calls|
    ensures AliveAt(s, calls, i, t) <==>
            || (AliveAt(s, calls, 0, t) && Unended(EndedIn(s, calls, t), 0, i))
            || exists k :: 0 <= k < i && IssuedAt(s, calls, k, t) && Unended(EndedIn(s, calls, t), k + 1, i)
  {
    AliveTurns(s, calls, t, i);
    HoldsSince(Living(s, calls, t), EndedIn(s, calls, t), IssuedIn(s, calls, t), i);
    assert forall k :: IssuedIn(s, calls, t)(k) == IssuedAt(s, calls, k, t);
  }

  /**
   * A refresh in a run gets past every check exactly when its token is genuine,
   * a refresh token, not expired, of an existing user, and alive; past the
   * checks it fails only when a generated id repeats.
   */
  lemma RefusedExactlyWhen(s: Sessions, calls: seq<Call>, i: nat)
    requires Valid(s) && i < |calls| && calls[i].request.Refresh?
    ensures var t, before := calls[i].request.token, At(s, calls, i);
            ReplyTo(s, calls, i) != Unauthorized <==>
              t.genuine && t.isRefresh && calls[i].now < t.expiresAt && t.sub in before.passwords && Alive(before, t)
  {
    EveryRunIsValid(s, calls, i);
  }

  // ---------- Password resets ----------

  /** A reset kills every token of the user that the table holds. */
  lemma ResetKills(s: Sessions, secret: Id, password: string, now: int, t: Token)
    requires Valid(s) && HandleReset(s, secret, password, now).1 == Done
    requires t in s.refresh && t.sub == s.resets[secret].userId
    ensures Dead(HandleReset(s, secret, password, now).0, t)
  {
  }

  lemma StoredStays(s: Sessions, q: Request, now: int, t: Token)
    requires t in s.refresh
    ensures t in Handle(s, q, now).0.refresh
  {
  }

  predicate StoredAt(s: Sessions, calls: seq<Call>, i: int, t: Token) {
    0 <= i <= |calls| && t in At(s, calls, i).refresh
  }

  lemma StoredNext(s: Sessions, calls: seq<Call>, k: nat, t: Token)
    requires k < |calls| && StoredAt(s, calls, k, t)
    ensures StoredAt(s, calls, k + 1, t)
  {
    StoredStays(At(s, calls, k), calls[k].request, calls[k].now, t);
  }

  lemma StoredFrom(s: Sessions, calls: seq<Call>, k: nat, i: nat, t: Token)
    requires k <= i <= |calls| && StoredAt(s, calls, k, t)
    ensures StoredAt(s, calls, i, t)
  {
    var stored := (j: int) => StoredAt(s, calls, j, t);
    forall j | k <= j < i ensures Keeps(stored, j) {
      if stored(j) {
        StoredNext(s, calls, j, t);
      }
    }
    Kept(stored, k, i);
  }

  /** Every token a run issued is in the table from then on. */
  lemma IssuedTokensAreStored(s: Sessions, calls: seq<Call>, k: nat, i: nat)
    requires k < i <= |calls| && ReplyTo(s, calls, k).Issued?
    ensures ReplyTo(s, calls, k).token in At(s, calls, i).refresh
  {
    IssuedIsStored(At(s, calls, k), calls[k].request, calls[k].now);
    StoredFrom(s, calls, k + 1, i, ReplyTo(s, calls, k).token);
  }

  lemma IssuedIsStored(s: Sessions, q: Request, now: int)
    requires Handle(s, q, now).1.Issued?
    ensures Handle(s, q, now).1.token in Handle(s, q, now).0.refresh
  {
  }

  /**
   * After a password reset (call i), no refresh token that an earlier call k
   * issued to that user is ever accepted again.
   */
  lemma {:induction false} ResetEndsEarlierSessions(s: Sessions, calls: seq<Call>, k: nat, i: nat, j: nat)
    requires Valid(s) && k < i < j < |calls|
    requires ReplyTo(s, calls, k).Issued?
    requires calls[i].request.ResetPassword? && ReplyTo(s, calls, i) == Done
    requires ReplyTo(s, calls, k).token.sub == At(s, calls, i).resets[calls[i].request.secret].userId
    requires calls[j].request.Refresh? && calls[j].request.token == ReplyTo(s, calls, k).token
    ensures ReplyTo(s, calls, j) == Unauthorized
  {
    var t, q := ReplyTo(s, calls, k).token, calls[i].request;
    IssuedTokensAreStored(s, calls, k, i);
    EveryRunIsValid(s, calls, i);
    ResetKills(At(s, calls, i), q.secret, q.password, calls[i].now, t);
    LaterCallsRefuse(s, calls, t, i, j);
  }

  predicate Used(s: Sessions, secret: Id) {
    secret in s.resets && s.resets[secret].used
  }

  lemma UsedStaysOnce(s: Sessions, q: Request, now: int, secret: Id)
    requires Used(s, secret)
    ensures Used(Handle(s, q, now).0, secret)
    ensures q.ResetPassword? && q.secret == secret ==> Handle(s, q, now).1 == BadToken
  {
  }

  lemma ResetUses(s: Sessions, q: Request, now: int)
    requires q.ResetPassword? && Handle(s, q, now).1 == Done
    ensures Used(Handle(s, q, now).0, q.secret)
  {
  }

  lemma {:induction false} UsedStays(s: Sessions, calls: seq<Call>, secret: Id, i: nat, j: nat)
    requires i <= j <= |calls| && Used(At(s, calls, i), secret)
    ensures Used(At(s, calls, j), secret)
    decreases j - i
  {
    if i < j {
      UsedStays(s, calls, secret, i, j - 1);
      UsedStaysOnce(At(s, calls, j - 1), calls[j - 1].request, calls[j - 1].now, secret);
    }
  }

  /** A reset secret works at most once. */
  lemma ResetWorksOnce(s: Sessions, calls: seq<Call>, i: nat, j: nat)
    requires i < j < |calls| && calls[i].request.ResetPassword? && calls[j].request.ResetPassword?
    requires calls[i].request.secret == calls[j].request.secret && ReplyTo(s, calls, i) == Done
    ensures ReplyTo(s, calls, j) == BadToken
  {
    var secret := calls[i].request.secret;
    ResetUses(At(s, calls, i), calls[i].request, calls[i].now);
    UsedStays(s, calls, secret, i + 1, j);
    UsedStaysOnce(At(s, calls, j), calls[j].request, calls[j].now, secret);
  }

  // ---------- Rotation ----------

  /** The user's refresh tokens that are not revoked. */
  function Unrevoked(s: Sessions, user: Id): set<Token> {
    set t | t in s.refresh && s.refresh[t].userId == user && !s.refresh[t].revoked
  }

  lemma SwapOne<T>(a: set<T>, x: T, y: T)
    requires x in a && y !in a
    ensures |a - {x} + {y}| == |a|
  {
    assert |a - {x}| == |a| - 1;
  }

  /** A successful refresh swaps one token for another: every user keeps as many unrevoked tokens. */
  lemma RotationSwaps(s: Sessions, t: Token, jti: Id, ttl: int, now: int, user: Id)
    requires Valid(s) && HandleRefresh(s, t, jti, ttl, now).1.Issued?
    ensures var after := HandleRefresh(s, t, jti, ttl, now); var next := after.1.token;
            && next.sub == t.sub && next != t
            && Unrevoked(after.0, user) == (if user == t.sub then Unrevoked(s, user) - {t} + {next}
                else Unrevoked(s, user))
            && |Unrevoked(after.0, user)| == |Unrevoked(s, user)|
            && t in Unrevoked(s, t.sub)
  {
    var after := HandleRefresh(s, t, jti, ttl, now);
    var next := after.1.token;
    var expected := if user == t.sub then Unrevoked(s, user) - {t} + {next} else Unrevoked(s, user);
    assert next !in s.refresh;
    assert forall u :: u in s.refresh && u != t ==> s.refresh[u].id != s.refresh[t].id;
    assert Unrevoked(after.0, user) == expected;
    if user == t.sub {
      SwapOne(Unrevoked(s, user), t, next);
    }
  }

  /** In every run a successful refresh keeps every user's number of unrevoked tokens. */
  lemma RefreshKeepsCount(s: Sessions, calls: seq<Call>, i: nat, user: Id)
    requires Valid(s) && i < |calls| && calls[i].request.Refresh? && ReplyTo(s, calls, i).Issued?
    ensures |Unrevoked(At(s, calls, i + 1), user)| == |Unrevoked(At(s, calls, i), user)|
    ensures ReplyTo(s, calls, i).token in Unrevoked(At(s, calls, i + 1), calls[i].request.token.sub)
    ensures calls[i].request.token in Unrevoked(At(s, calls, i), calls[i].request.token.sub)
    ensures calls[i].request.token !in Unrevoked(At(s, calls, i + 1), calls[i].request.token.sub)
  {
    var q := calls[i].request;
    EveryRunIsValid(s, calls, i);
    RotationSwaps(At(s, calls, i), q.token, q.jti, q.ttl, calls[i].now, user);
    RotationSwaps(At(s, calls, i), q.token, q.jti, q.ttl, calls[i].now, q.token.sub);
  }

  /** A token that was just issued is accepted once, as long as it has not expired and its user exists. */
  lemma IssuedTokenIsAccepted(s: Sessions, userId: Id, jti: Id, expiresAt: int, nextJti: Id, ttl: int, now: int)
    requires Issue(s, userId, jti, expiresAt).1.Issued? && now < expiresAt && userId in s.passwords
    requires CanInsert(Issue(s, userId, jti, expiresAt).0, SignRefresh(userId, nextJti, now + ttl))
    ensures var issued := Issue(s, userId, jti, expiresAt);
            HandleRefresh(issued.0, issued.1.token, nextJti, ttl, now).1 ==
                Issued(SignRefresh(userId, nextJti, now + ttl))
  {
    var issued := Issue(s, userId, jti, expiresAt);
    assert IsActive(issued.0, issued.1.token, now) && issued.0.refresh[issued.1.token].id == jti;
  }

  // ---------- The repository and the service ----------

  class AuthRepository {
    var emails: map<string, Id>
    var passwords: map<Id, string>
    var refresh: map<Token, RefreshRow>
    var resets: map<Id, ResetRow>

    constructor ()
      ensures State() == Sessions(map[], map[], map[], map[]) && Valid(State())
    {
      emails, passwords, refresh, resets := map[], map[], map[], map[];
    }

    function State(): Sessions
      reads this
    {
      Sessions(emails, passwords, refresh, resets)
    }

    method FindActiveRefreshToken(t: Token, now: int) returns (row: Option<RefreshRow>)
      ensures row == if IsActive(State(), t, now) then Some(refresh[t]) else None
    {
      row := if t in refresh && !refresh[t].revoked && refresh[t].expiresAt > now then Some(refresh[t]) else None;
    }

    method CreateRefreshToken(t: Token) returns (ok: bool)
      modifies this`refresh
      ensures ok <==> CanInsert(old(State()), t)
      ensures State() == if ok then Inserted(old(State()), t) else old(State())
    {
      ok := forall u :: u in refresh ==> refresh[u].id != t.jti && u != t;
      if ok {
        refresh := refresh[t := RefreshRow(t.jti, t.sub, t.expiresAt, false)];
      }
    }

    method RevokeRefreshToken(id: Id)
      modifies this`refresh
      ensures State() == RevokedById(old(State()), id)
      ensures forall t, now {:trigger IsActive(State(), t, now)} ::
        IsActive(State(), t, now) <==> old(IsActive(State(), t, now)) && refresh[t].id != id
    {
      refresh := map t | t in refresh :: if refresh[t].id == id then refresh[t].(revoked := true) else refresh[t];
    }

    /** Revokes the old row and creates the new one in one transaction: both happen or neither. */
    method RotateRefreshToken(oldId: Id, t: Token) returns (ok: bool)
      modifies this`refresh
      ensures ok <==> CanInsert(old(State()), t)
      ensures State() == if ok then Inserted(RevokedById(old(State()), oldId), t) else old(State())
    {
      var saved := refresh; // for the rollback
      RevokeRefreshToken(oldId);
      ghost var revoked := State();
      assert CanInsert(revoked, t) <==> CanInsert(old(State()), t) by {
        assert forall u :: u in revoked.refresh <==> u in saved;
        assert forall u :: u in saved ==> revoked.refresh[u].id == saved[u].id;
      }
      ok := CreateRefreshToken(t);
      if !ok {
        refresh := saved;
      }
    }

    /** Three updates in one transaction. */
    method UsePasswordResetToken(secret: Id, userId: Id, password: string)
      requires secret in resets
      modifies this`resets, this`passwords, this`refresh
      ensures State() == RevokedByUser(old(State()), userId)
                           .(resets := old(resets)[secret := old(resets)[secret].(used := true)],
                             passwords := old(passwords)[userId := password])
      ensures forall t, now {:trigger IsActive(State(), t, now)} ::
        IsActive(State(), t, now) <==> old(IsActive(State(), t, now)) && refresh[t].userId != userId
      ensures forall now :: !IsActiveReset(State(), secret, now)
    {
      resets := resets[secret := resets[secret].(used := true)];
      passwords := passwords[userId := password];
      refresh := map t | t in refresh :: if refresh[t].userId == userId then refresh[t].(revoked := true)
          else refresh[t];
    }
  }

  class AuthService {
    const repository: AuthRepository

    constructor (repository: AuthRepository)
      ensures this.repository == repository
    {
      this.repository := repository;
    }

    method IssueTokens(userId: Id, jti: Id, expiresAt: int) returns (reply: Reply)
      modifies repository`refresh
      ensures (repository.State(), reply) == Issue(old(repository.State()), userId, jti, expiresAt)
    {
      var t := SignRefresh(userId, jti, expiresAt);
      var ok := repository.CreateRefreshToken(t);
      reply := if ok then Issued(t) else KeyTaken;
    }

    method DoRegister(userId: Id, email: string, password: string, jti: Id, ttl: int, now: int) returns (reply: Reply)
      modifies repository`emails, repository`passwords, repository`refresh
      ensures (repository.State(), reply) ==
          Handle(old(repository.State()), Register(userId, email, password, jti, ttl), now)
    {
      if email in repository.emails {
        return EmailTaken;
      }
      if userId in repository.passwords {
        return KeyTaken;
      }
      repository.emails := repository.emails[email := userId];
      repository.passwords := repository.passwords[userId := password];
      reply := IssueTokens(userId, jti, now + ttl);
    }

    method DoLogin(email: string, password: string, jti: Id, ttl: int, now: int) returns (reply: Reply)
      modifies repository`refresh
      ensures (repository.State(), reply) == Handle(old(repository.State()), Login(email, password, jti, ttl), now)
    {
      if email !in repository.emails || repository.emails[email] !in repository.passwords {
        return Unauthorized;
      }
      var user := repository.emails[email];
      if repository.passwords[user] != password {
        return Unauthorized;
      }
      reply := IssueTokens(user, jti, now + ttl);
    }

    method DoRefresh(token: Token, jti: Id, ttl: int, now: int) returns (reply: Reply)
      modifies repository`refresh
      ensures (repository.State(), reply) == HandleRefresh(old(repository.State()), token, jti, ttl, now)
    {
      if !token.genuine || token.expiresAt <= now {
        return Unauthorized;
      }
      if !token.isRefresh {
        return Unauthorized;
      }
      var stored := repository.FindActiveRefreshToken(token, now);
      if stored.None? || stored.value.id != token.jti {
        return Unauthorized;
      }
      if token.sub !in repository.passwords {
        return Unauthorized;
      }
      var next := SignRefresh(token.sub, jti, now + ttl);
      var ok := repository.RotateRefreshToken(stored.value.id, next);
      reply := if ok then Issued(next) else KeyTaken;
    }

    method DoLogout(token: Token, now: int) returns (reply: Reply)
      modifies repository`refresh
      ensures (repository.State(), reply) == Handle(old(repository.State()), Logout(token), now)
    {
      var stored := repository.FindActiveRefreshToken(token, now);
      if stored.Some? {
        repository.RevokeRefreshToken(stored.value.id);
      }
      reply := Done;
    }

    method DoForgotPassword(email: string, secret: Id, ttl: int, now: int) returns (reply: Reply)
      modifies repository`resets
      ensures (repository.State(), reply) == Handle(old(repository.State()), ForgotPassword(email, secret, ttl), now)
    {
      if email !in repository.emails {
        return Accepted;
      }
      if secret in repository.resets {
        return KeyTaken;
      }
      repository.resets := repository.resets[secret := ResetRow(repository.emails[email], now + ttl, false)];
      reply := Accepted;
    }

    method DoResetPassword(secret: Id, password: string, now: int) returns (reply: Reply)
      modifies repository`resets, repository`passwords, repository`refresh
      ensures (repository.State(), reply) == HandleReset(old(repository.State()), secret, password, now)
    {
      if secret !in repository.resets || repository.resets[secret].used || repository.resets[secret].expiresAt <= now {
        return BadToken;
      }
      repository.UsePasswordResetToken(secret, repository.resets[secret].userId, password);
      reply := Done;
    }
  }
}
