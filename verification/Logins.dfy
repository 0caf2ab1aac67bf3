/**
 * Who can sign in: what the user, password and reset tables hold after any run
 * of calls from empty tables, told by the calls and their answers alone.
 */
module Logins {
  import opened Common
  import opened Lists
  import opened Auth

  function Start(): Sessions {
    Sessions(map[], map[], map[], map[])
  }

  // ---------- Told by the calls ----------

  /** Call k registers a user: no earlier registration has its email or its user id. */
  predicate Registers(calls: seq<Call>, k: int)
    decreases k
  {
    && 0 <= k < |calls| && calls[k].request.Register?
    && forall j :: 0 <= j < k && Registers(calls, j) ==>
      calls[j].request.email != calls[k].request.email && calls[j].request.userId != calls[k].request.userId
  }

  predicate RegistersAs(calls: seq<Call>, k: int, email: string, user: Id) {
    Registers(calls, k) && calls[k].request.email == email && calls[k].request.userId == user
  }

  /** The email was registered by that user in the first i calls. */
  predicate Owns(calls: seq<Call>, i: int, email: string, user: Id) {
    exists k :: 0 <= k < i && RegistersAs(calls, k, email, user)
  }

  /** Call f gives out a reset secret: it is accepted, and its email is that of the user. */
  predicate GivesOut(calls: seq<Call>, f: int, secret: Id, user: Id) {
    && 0 <= f < |calls| && calls[f].request.ForgotPassword? && calls[f].request.secret == secret
    && ReplyTo(Start(), calls, f) == Accepted && Owns(calls, f, calls[f].request.email, user)
  }

  predicate Redeems(calls: seq<Call>, n: int, secret: Id) {
    && 0 <= n < |calls| && calls[n].request.ResetPassword? && calls[n].request.secret == secret
    && ReplyTo(Start(), calls, n) == Done
  }

  /** Call n sets the user's password: their registration, or a successful reset with a secret of theirs. */
  predicate Sets(calls: seq<Call>, n: int, user: Id) {
    || (Registers(calls, n) && calls[n].request.userId == user)
    || (0 <= n < |calls| && calls[n].request.ResetPassword? && Redeems(calls, n, calls[n].request.secret) &&
        exists f :: 0 <= f < n && GivesOut(calls, f, calls[n].request.secret, user))
  }

  function Setting(calls: seq<Call>, user: Id): int -> bool {
    (n: int) => Sets(calls, n, user)
  }

  predicate SetsTo(calls: seq<Call>, n: int, user: Id, password: string) {
    && Sets(calls, n, user) && 0 <= n < |calls|
    && (calls[n].request.Register? || calls[n].request.ResetPassword?) && calls[n].request.password == password
  }

  /** The last of the first i calls that set the user's password set it to this one. */
  predicate LastSetTo(calls: seq<Call>, i: int, user: Id, password: string) {
    exists n :: 0 <= n < i && SetsTo(calls, n, user, password) && Unended(Setting(calls, user), n + 1, i)
  }

  // ---------- What one call does to each table ----------

  predicate Enters(s: Sessions, q: Request) {
    q.Register? && q.email !in s.emails && q.userId !in s.passwords
  }

  lemma UsersAfter(s: Sessions, q: Request, now: int)
    ensures var t := Handle(s, q, now).0;
            && t.emails == (if Enters(s, q) then s.emails[q.email := q.userId] else s.emails)
            && t.passwords ==
               if Enters(s, q) then s.passwords[q.userId := q.password]
               else if q.ResetPassword? && Handle(s, q, now).1 == Done
               then s.passwords[s.resets[q.secret].userId := q.password]
               else s.passwords
  {
  }

  lemma ResetsAfter(s: Sessions, q: Request, now: int)
    ensures Handle(s, q, now).0.resets ==
            if q.ForgotPassword? && Handle(s, q, now).1 == Accepted && q.email in s.emails
            then s.resets[q.secret := ResetRow(s.emails[q.email], now + q.ttl, false)]
            else if q.ResetPassword? && Handle(s, q, now).1 == Done
            then s.resets[q.secret := s.resets[q.secret].(used := true)]
            else s.resets
    ensures q.ForgotPassword? && Handle(s, q, now).1 == Accepted && q.email in s.emails ==> q.secret !in s.resets
  {
  }

  /** Emails and resets are of users. */
  predicate KeysResolve(s: Sessions) {
    && (forall email :: email in s.emails ==> s.emails[email] in s.passwords)
    && (forall secret :: secret in s.resets ==> s.resets[secret].userId in s.passwords)
  }

  lemma StepResolves(s: Sessions, q: Request, now: int)
    requires KeysResolve(s)
    ensures KeysResolve(Handle(s, q, now).0)
  {
    UsersAfter(s, q, now);
    ResetsAfter(s, q, now);
  }

  lemma {:induction false} RunResolves(calls: seq<Call>, i: nat)
    requires i <= |calls|
    ensures KeysResolve(At(Start(), calls, i))
  {
    if i > 0 {
      RunResolves(calls, i - 1);
      StepResolves(At(Start(), calls, i - 1), calls[i - 1].request, calls[i - 1].now);
    }
  }

  // ---------- The tables after a run ----------

  lemma {:induction false} RegistersExactly(calls: seq<Call>, k: nat)
    requires k < |calls|
    ensures Registers(calls, k) <==> Enters(At(Start(), calls, k), calls[k].request)
    decreases k, 1
  {
    if calls[k].request.Register? {
      var email, user := calls[k].request.email, calls[k].request.userId;
      EmailKnown(calls, k, email);
      UserKnown(calls, k, user);
      forall j | 0 <= j < k && Registers(calls, j)
        ensures calls[j].request.email == email ==> RegistersEmail(calls, j, email)
        ensures calls[j].request.userId == user ==> RegistersUser(calls, j, user)
      {
      }
    }
  }

  lemma EmailStep(calls: seq<Call>, k: nat, email: string)
    requires k < |calls|
    ensures var s, t, q := At(Start(), calls, k), At(Start(), calls, k + 1), calls[k].request;
            Lookup(t.emails, email) ==
              if Enters(s, q) && q.email == email then Some(q.userId) else Lookup(s.emails, email)
  {
    UsersAfter(At(Start(), calls, k), calls[k].request, calls[k].now);
  }

  lemma PasswordStep(calls: seq<Call>, k: nat, user: Id)
    requires k < |calls|
    ensures var s, t, q := At(Start(), calls, k), At(Start(), calls, k + 1), calls[k].request;
            Lookup(t.passwords, user) ==
              if Enters(s, q) && q.userId == user then Some(q.password)
              else if q.ResetPassword? && ReplyTo(Start(), calls, k) == Done && s.resets[q.secret].userId == user
              then Some(q.password)
              else Lookup(s.passwords, user)
  {
    UsersAfter(At(Start(), calls, k), calls[k].request, calls[k].now);
  }

  predicate HasEmail(calls: seq<Call>, i: int, email: string) {
    0 <= i <= |calls| && email in At(Start(), calls, i).emails
  }

  predicate HasUser(calls: seq<Call>, i: int, user: Id) {
    0 <= i <= |calls| && user in At(Start(), calls, i).passwords
  }

  predicate RegistersEmail(calls: seq<Call>, k: int, email: string) {
    Registers(calls, k) && calls[k].request.email == email
  }

  predicate RegistersUser(calls: seq<Call>, k: int, user: Id) {
    Registers(calls, k) && calls[k].request.userId == user
  }

  lemma {:induction false} EmailKnown(calls: seq<Call>, i: nat, email: string)
    requires i <= |calls|
    ensures HasEmail(calls, i, email) <==> exists k :: 0 <= k < i && RegistersEmail(calls, k, email)
    decreases i, 0
  {
    var holds, starts := (k: int) => HasEmail(calls, k, email), (k: int) => RegistersEmail(calls, k, email);
    forall k | 0 <= k < i ensures Adds(holds, starts, k) {
      RegistersExactly(calls, k);
      EmailStep(calls, k, email);
    }
    HoldsOnceStarted(holds, starts, i);
    assert forall k :: starts(k) == RegistersEmail(calls, k, email);
  }

  lemma {:induction false} UserKnown(calls: seq<Call>, i: nat, user: Id)
    requires i <= |calls|
    ensures HasUser(calls, i, user) <==> exists k :: 0 <= k < i && RegistersUser(calls, k, user)
    decreases i, 0
  {
    var holds, starts := (k: int) => HasUser(calls, k, user), (k: int) => RegistersUser(calls, k, user);
    forall k | 0 <= k < i ensures Adds(holds, starts, k) {
      RegistersExactly(calls, k);
      RunResolves(calls, k);
      PasswordStep(calls, k, user);
    }
    HoldsOnceStarted(holds, starts, i);
    assert forall k :: starts(k) == RegistersUser(calls, k, user);
  }

  predicate EmailIs(calls: seq<Call>, i: int, email: string, user: Id) {
    0 <= i <= |calls| && Lookup(At(Start(), calls, i).emails, email) == Some(user)
  }

  /** In every run the user of an email is the one who registered it. */
  lemma EmailsExactly(calls: seq<Call>, i: nat, email: string, user: Id)
    requires i <= |calls|
    ensures EmailIs(calls, i, email, user) <==> Owns(calls, i, email, user)
  {
    var holds, starts := (k: int) => EmailIs(calls, k, email, user), (k: int) => RegistersAs(calls, k, email, user);
    forall k | 0 <= k < i ensures Adds(holds, starts, k) {
      RegistersExactly(calls, k);
      EmailStep(calls, k, email);
    }
    HoldsOnceStarted(holds, starts, i);
    assert forall k :: starts(k) == RegistersAs(calls, k, email, user);
  }

  predicate SecretIs(calls: seq<Call>, i: int, secret: Id, user: Id) {
    0 <= i <= |calls| && secret in At(Start(), calls, i).resets && At(Start(), calls, i).resets[secret].userId == user
  }

  lemma SecretStep(calls: seq<Call>, k: nat, secret: Id, user: Id)
    requires k < |calls|
    ensures SecretIs(calls, k + 1, secret, user) <==>
            SecretIs(calls, k, secret, user) || GivesOut(calls, k, secret, user)
  {
    ResetsAfter(At(Start(), calls, k), calls[k].request, calls[k].now);
    if calls[k].request.ForgotPassword? {
      EmailsExactly(calls, k, calls[k].request.email, user);
    }
  }

  /** In every run the user of a reset secret is the one it was given out for. */
  lemma SecretsExactly(calls: seq<Call>, i: nat, secret: Id, user: Id)
    requires i <= |calls|
    ensures SecretIs(calls, i, secret, user) <==> exists f :: 0 <= f < i && GivesOut(calls, f, secret, user)
  {
    var holds, starts := (k: int) => SecretIs(calls, k, secret, user), (k: int) => GivesOut(calls, k, secret, user);
    forall k | 0 <= k < i ensures Adds(holds, starts, k) {
      SecretStep(calls, k, secret, user);
    }
    HoldsOnceStarted(holds, starts, i);
    assert forall k :: starts(k) == GivesOut(calls, k, secret, user);
  }

  lemma DoneHasSecret(calls: seq<Call>, n: nat)
    requires n < |calls| && calls[n].request.ResetPassword?
    ensures var secret, s := calls[n].request.secret, At(Start(), calls, n);
            ReplyTo(Start(), calls, n) == Done <==> IsActiveReset(s, secret, calls[n].now)
  {
  }

  lemma SetsExactly(calls: seq<Call>, n: nat, user: Id)
    requires n < |calls|
    ensures var s, q := At(Start(), calls, n), calls[n].request;
            Sets(calls, n, user) <==>
              || (Enters(s, q) && q.userId == user)
              || (q.ResetPassword? && ReplyTo(Start(), calls, n) == Done && s.resets[q.secret].userId == user)
  {
    RegistersExactly(calls, n);
    if calls[n].request.ResetPassword? {
      DoneHasSecret(calls, n);
      SecretsExactly(calls, n, calls[n].request.secret, user);
    }
  }

  predicate PasswordIs(calls: seq<Call>, i: int, user: Id, password: string) {
    0 <= i <= |calls| && Lookup(At(Start(), calls, i).passwords, user) == Some(password)
  }

  /** In every run a user's password is the one last set by their registration or a reset with a secret of theirs. */
  lemma PasswordsExactly(calls: seq<Call>, i: nat, user: Id, password: string)
    requires i <= |calls|
    ensures PasswordIs(calls, i, user, password) <==> LastSetTo(calls, i, user, password)
  {
    var holds := (k: int) => PasswordIs(calls, k, user, password);
    var starts := (n: int) => SetsTo(calls, n, user, password);
    forall k | 0 <= k < i ensures Turns(holds, Setting(calls, user), starts, k) {
      SetsExactly(calls, k, user);
      PasswordStep(calls, k, user);
    }
    HoldsSince(holds, Setting(calls, user), starts, i);
    assert forall n :: starts(n) == SetsTo(calls, n, user, password);
  }

  // ---------- Signing in ----------

  /**
   * A login is let in exactly when its email was registered and its password
   * is the one last set for that user. Its token is a refresh token of that
   * user which ends when asked; it fails only when the generated id repeats.
   */
  lemma LoginExactlyWhen(calls: seq<Call>, i: nat)
    requires i < |calls| && calls[i].request.Login?
    ensures var q, reply := calls[i].request, ReplyTo(Start(), calls, i);
            && (reply != Unauthorized <==>
                  exists user :: Owns(calls, i, q.email, user) && LastSetTo(calls, i, user, q.password))
            && (reply.Issued? ==> Owns(calls, i, q.email, reply.token.sub))
            && (reply.Issued? ==> reply.token == Token(reply.token.sub, q.jti, true, calls[i].now + q.ttl, true))
            && (reply.Issued? || reply == Unauthorized || reply == KeyTaken)
  {
    var q, s := calls[i].request, At(Start(), calls, i);
    if q.email in s.emails {
      EmailsExactly(calls, i, q.email, s.emails[q.email]);
      PasswordsExactly(calls, i, s.emails[q.email], q.password);
    }
    if user :| Owns(calls, i, q.email, user) && LastSetTo(calls, i, user, q.password) {
      EmailsExactly(calls, i, q.email, user);
      PasswordsExactly(calls, i, user, q.password);
    }
  }

  /** A registration is turned away exactly when its email was registered; its token is of the new user. */
  lemma RegisterExactlyWhen(calls: seq<Call>, i: nat)
    requires i < |calls| && calls[i].request.Register?
    ensures var q, reply := calls[i].request, ReplyTo(Start(), calls, i);
            && (reply == EmailTaken <==> exists user :: Owns(calls, i, q.email, user))
            && (reply.Issued? ==> Registers(calls, i))
            && (reply.Issued? ==> reply.token == Token(q.userId, q.jti, true, calls[i].now + q.ttl, true))
  {
    var q, s := calls[i].request, At(Start(), calls, i);
    RegistersExactly(calls, i);
    if q.email in s.emails {
      EmailsExactly(calls, i, q.email, s.emails[q.email]);
    }
    if user :| Owns(calls, i, q.email, user) {
      EmailsExactly(calls, i, q.email, user);
    }
  }

  // ---------- Password resets ----------

  predicate RedeemedBetween(calls: seq<Call>, f: int, i: int, secret: Id) {
    exists n :: f < n < i && Redeems(calls, n, secret)
  }

  lemma RedeemedStep(calls: seq<Call>, f: int, i: int, secret: Id)
    requires f < i - 1
    ensures RedeemedBetween(calls, f, i, secret) <==>
            RedeemedBetween(calls, f, i - 1, secret) || Redeems(calls, i - 1, secret)
  {
  }

  predicate SecretRow(calls: seq<Call>, i: int, secret: Id, row: ResetRow) {
    0 <= i <= |calls| && Lookup(At(Start(), calls, i).resets, secret) == Some(row)
  }

  /** The row of a secret after one more call: used once the call redeems it. */
  lemma SecretNext(calls: seq<Call>, k: nat, secret: Id, user: Id, end: int, used: bool)
    requires k < |calls| && SecretRow(calls, k, secret, ResetRow(user, end, used))
    ensures SecretRow(calls, k + 1, secret, ResetRow(user, end, used || Redeems(calls, k, secret)))
  {
    ResetsAfter(At(Start(), calls, k), calls[k].request, calls[k].now);
  }

  lemma SecretGivenOut(calls: seq<Call>, f: nat, secret: Id, user: Id)
    requires f < |calls| && GivesOut(calls, f, secret, user)
    ensures SecretRow(calls, f + 1, secret, ResetRow(user, calls[f].now + calls[f].request.ttl, false))
  {
    ResetsAfter(At(Start(), calls, f), calls[f].request, calls[f].now);
    EmailsExactly(calls, f, calls[f].request.email, user);
  }

  lemma {:induction false} SecretFrom(calls: seq<Call>, f: nat, i: nat, secret: Id, user: Id, end: int)
    requires f < i <= |calls| && SecretRow(calls, f + 1, secret, ResetRow(user, end, false))
    ensures SecretRow(calls, i, secret, ResetRow(user, end, RedeemedBetween(calls, f, i, secret)))
    decreases i
  {
    if f < i - 1 {
      SecretFrom(calls, f, i - 1, secret, user, end);
      SecretNext(calls, i - 1, secret, user, end, RedeemedBetween(calls, f, i - 1, secret));
      RedeemedStep(calls, f, i, secret);
    } else {
      assert !RedeemedBetween(calls, f, i, secret);
    }
  }

  /** A secret given out by call f belongs to its user, ends when asked, and is used once it was redeemed. */
  lemma SecretAfter(calls: seq<Call>, f: nat, i: nat, secret: Id, user: Id)
    requires f < i <= |calls| && GivesOut(calls, f, secret, user)
    ensures SecretRow(calls, i, secret,
                ResetRow(user, calls[f].now + calls[f].request.ttl, RedeemedBetween(calls, f, i, secret)))
  {
    SecretGivenOut(calls, f, secret, user);
    SecretFrom(calls, f, i, secret, user, calls[f].now + calls[f].request.ttl);
  }

  /** A secret given out by call f has not ended by call i, and no call in between redeemed it. */
  predicate StillGood(calls: seq<Call>, f: int, i: int, secret: Id) {
    && 0 <= f < i < |calls| && calls[f].request.ForgotPassword?
    && calls[i].now < calls[f].now + calls[f].request.ttl
    && !RedeemedBetween(calls, f, i, secret)
  }

  /**
   * A reset works exactly when its secret was given out by an earlier call, has
   * not ended, and was not redeemed since.
   */
  lemma ResetExactlyWhen(calls: seq<Call>, i: nat)
    requires i < |calls| && calls[i].request.ResetPassword?
    ensures var secret := calls[i].request.secret;
            ReplyTo(Start(), calls, i) == Done <==>
              exists f, user :: 0 <= f < i && GivesOut(calls, f, secret, user) && StillGood(calls, f, i, secret)
  {
    var secret, s := calls[i].request.secret, At(Start(), calls, i);
    if secret in s.resets {
      SecretsExactly(calls, i, secret, s.resets[secret].userId);
      var f :| 0 <= f < i && GivesOut(calls, f, secret, s.resets[secret].userId);
      SecretAfter(calls, f, i, secret, s.resets[secret].userId);
    }
    DoneHasSecret(calls, i);
    if f, user :| 0 <= f < i && GivesOut(calls, f, secret, user) && StillGood(calls, f, i, secret) {
      SecretAfter(calls, f, i, secret, user);
    }
  }
}
