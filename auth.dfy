/**
 * The two-factor sign-in flow of `backend/routes/auth.js`. A user's state is the
 * stored secret, the enabled flag and the verification stamp; the browser's
 * state is its pending-challenge and session cookies. Register and login start
 * a challenge (`setup` while no secret is enabled, `verify` otherwise), verify
 * ends it with a session, regenerate replaces an unconfirmed secret, cancel and
 * logout clear cookies. Token signing, OTP checking and bcrypt are abstract.
 */
module Auth {
  import opened Wrappers
  import opened Crypto
  import opened Users
  import opened Cookies
  import opened TwoFactor

  /** The default lifetimes of `backend/utils/tokens.js`, in minutes. */
  const SessionTtlMinutes := 15
  const PendingTtlMinutes := 5

  /** The payload of a signed token: `sub`, `email`, the optional `intent`, and its lifetime. */
  datatype Claims = Claims(sub: int, email: string, intent: Option<string>, ttlMinutes: int)

  /**
   * The libraries the routes call, kept abstract: `sign` and `verify` are the JWT
   * pair (`verify` answers `None` for a bad signature or an expired token),
   * `codeIsValid(code, secret)` is the OTP check, `keyuri(label, secret)` builds the
   * `otpauth://` URI for the configured issuer, and `passwordMatches(password, hash)`
   * is bcrypt's comparison.
   */
  datatype Services = Services(
    crypto: Primitives,
    sign: Claims -> string,
    verify: string -> Option<Claims>,
    codeIsValid: (string, string) -> bool,
    keyuri: (string, string) -> string,
    passwordMatches: (string, string) -> bool)

  /** `createSessionToken`. */
  function SessionToken(s: Services, id: int, email: string): string {
    s.sign(Claims(id, email, None, SessionTtlMinutes))
  }

  /** `createPendingTwoFactorToken` with the intent the routes pass. */
  function PendingToken(s: Services, id: int, email: string, intent: string): string {
    s.sign(Claims(id, email, Some(intent), PendingTtlMinutes))
  }

  /** `buildOtpAuthUrl`: labelled with the email, or `user` when there is none. */
  function OtpAuthUrl(s: Services, secret: string, name: string): string {
    s.keyuri(if name == "" then "user" else name, secret)
  }

  /** The in-memory user object a handler works on: the columns it reads. */
  datatype Loaded = Loaded(id: int, username: string, email: string, createdAt: int,
                           twoFactorEnabled: bool, twoFactorSecret: Option<string>)

  function FromRow(u: UserRow): Loaded {
    Loaded(u.id, u.username, u.email, u.createdAt, u.twoFactorEnabled, u.twoFactorSecret)
  }

  /** `toPublicUser`: identity columns and the enabled flag, never a secret or hash. */
  function ToPublicUser(u: Loaded): (p: PublicUser)
    ensures p.id == u.id && p.email == u.email && p.twoFactorEnabled == u.twoFactorEnabled
  {
    PublicUser(u.id, u.username, u.email, u.createdAt, u.twoFactorEnabled)
  }

  /** The secret in the clear and its `otpauth://` URI. */
  datatype SecretBundle = SecretBundle(secret: string, otpauthUrl: string)

  /** What a `setup` challenge shows: the URI for a QR code and the secret grouped for typing. */
  datatype SetupDetails = SetupDetails(otpauthUrl: Option<string>, manualCode: string)

  datatype TwoFactorInfo = TwoFactorInfo(status: string, expiresInMinutes: int, setup: Option<SetupDetails>)

  /** `twoFactorResponse`: setup details only for a `setup` challenge with a secret to show. */
  function TwoFactorResponse(status: string, otpauthUrl: Option<string>, secret: Option<string>): (r: TwoFactorInfo)
    ensures r.status == status && r.expiresInMinutes == PendingTtlMinutes
    ensures r.setup.Some? <==> status == "setup" && Truthy(secret)
    ensures r.setup.Some? ==> r.setup.value.manualCode == FormatSecretForDisplay(secret.value)
    ensures r.setup.Some? ==> (r.setup.value.otpauthUrl.Some? <==> Truthy(otpauthUrl))
  {
    if status == "setup" && Truthy(secret) then
      TwoFactorInfo(status, PendingTtlMinutes,
                    Some(SetupDetails(if Truthy(otpauthUrl) then otpauthUrl else None, FormatSecretForDisplay(secret.value))))
    else TwoFactorInfo(status, PendingTtlMinutes, None)
  }

  /** A route's answer: status, message (the error for a 4xx) and the JSON fields it carries. */
  datatype AuthReply = AuthReply(code: int, message: string, user: Option<PublicUser>, twoFactor: Option<TwoFactorInfo>)

  function Error(code: int, message: string): AuthReply {
    AuthReply(code, message, None, None)
  }

  const BadCredentials := "Invalid email or password"
  const NoChallenge := "No pending two-factor challenge"
  const BadCode := "Invalid or expired OTP code"
  const SetupOnly := "Two-factor regeneration is only available during setup"

  /**
   * `resolvePendingUser`: the user named by the `sub` of a valid pending token; a
   * missing or empty cookie, a token that does not verify and an unknown user all
   * give `None`. The token's intent is not looked at.
   */
  function ResolvePendingUser(store: UserStore, s: Services, env: Env, cookies: map<string, string>): (r: Option<SensitiveUser>)
    reads store
    ensures var name := PendingCookieName(env);
      r.Some? <==> name in cookies && cookies[name] != "" && s.verify(cookies[name]).Some?
                   && store.FindByIdWithSensitive(s.verify(cookies[name]).value.sub).Some?
    ensures r.Some? ==> r == store.FindByIdWithSensitive(s.verify(cookies[PendingCookieName(env)]).value.sub)
  {
    var name := PendingCookieName(env);
    if name !in cookies || cookies[name] == "" then None
    else
      match s.verify(cookies[name])
      case None => None
      case Some(claims) => store.FindByIdWithSensitive(claims.sub)
  }

  /** Two pending tokens naming the same user resolve alike, whatever intent they carry. */
  lemma ResolveIgnoresIntent(store: UserStore, s: Services, env: Env, cookies: map<string, string>, token: string)
    requires PendingCookieName(env) in cookies && cookies[PendingCookieName(env)] != "" && token != ""
    requires s.verify(cookies[PendingCookieName(env)]).Some? && s.verify(token).Some?
    requires s.verify(token).value.sub == s.verify(cookies[PendingCookieName(env)]).value.sub
    ensures ResolvePendingUser(store, s, env, cookies[PendingCookieName(env) := token]) == ResolvePendingUser(store, s, env, cookies)
  {
  }

  /** `issuePendingCookie`. */
  method IssuePendingCookie(res: Response, env: Env, s: Services, id: int, email: string, intent: string)
    modifies res
    ensures res.headers == old(res.headers) + [SetCookie(PendingCookieName(env), PendingToken(s, id, email, intent),
                                                         BuildCookieOptions(env, PendingTtlMinutes))]
  {
    SetPendingCookie(res, env, PendingToken(s, id, email, intent), PendingTtlMinutes);
  }

  /** `issueSession`. */
  method IssueSession(res: Response, env: Env, s: Services, id: int, email: string)
    modifies res
    ensures res.headers == old(res.headers) + [SetCookie(SessionCookieName(env), SessionToken(s, id, email),
                                                         BuildCookieOptions(env, SessionTtlMinutes))]
  {
    SetSessionCookie(res, env, SessionToken(s, id, email), SessionTtlMinutes);
  }

  /**
   * `ensureTwoFactorSecret`: a user who already has a secret keeps it and is shown it
   * decrypted; otherwise `freshSecret` (what `generateSecret` drew) is stored encrypted,
   * which also switches two-factor off, and the in-memory user is updated to match.
   */
  method EnsureTwoFactorSecret(store: UserStore, s: Services, user: Loaded, freshSecret: string, iv: nat)
    returns (bundle: SecretBundle, updated: Loaded)
    requires store.Valid()
    modifies store`users
    ensures store.Valid()
    ensures bundle.otpauthUrl == OtpAuthUrl(s, bundle.secret, user.email)
    ensures Truthy(user.twoFactorSecret) ==>
      && store.users == old(store.users) && updated == user
      && DecryptText(s.crypto, user.twoFactorSecret.value) == Some(bundle.secret)
    ensures !Truthy(user.twoFactorSecret) ==>
      var encrypted := EncryptText(s.crypto, iv, freshSecret);
      && bundle.secret == freshSecret
      && UpdatedWhere(old(store.users), store.users, user.id, (u: UserRow) => WithSecret(u, encrypted))
      && updated == user.(twoFactorEnabled := false, twoFactorSecret := Some(encrypted))
  {
    if Truthy(user.twoFactorSecret) {
      var plain := s.crypto.decrypt(user.twoFactorSecret.value);
      return SecretBundle(plain, OtpAuthUrl(s, plain, user.email)), user;
    }
    var encrypted := EncryptText(s.crypto, iv, freshSecret);
    store.UpdateTwoFactorSecret(user.id, encrypted);
    updated := user.(twoFactorEnabled := false, twoFactorSecret := Some(encrypted));
    bundle := SecretBundle(freshSecret, OtpAuthUrl(s, freshSecret, user.email));
  }

  /**
   * What starting a `setup` challenge leaves: the secret kept (shown decrypted) or a
   * fresh one stored, a `setup` pending cookie, the user with two-factor on only if
   * a secret was already in place, and the setup details showing that secret.
   */
  predicate SetupStarted(users: seq<UserRow>, users': seq<UserRow>, headers: seq<CookieHeader>, headers': seq<CookieHeader>,
                         env: Env, s: Services, user: Loaded, freshSecret: string, iv: nat, shown: PublicUser, info: TwoFactorInfo)
  {
    var secret := if Truthy(user.twoFactorSecret) then s.crypto.decrypt(user.twoFactorSecret.value) else freshSecret;
    && (Truthy(user.twoFactorSecret) ==> users' == users)
    && (!Truthy(user.twoFactorSecret) ==>
          UpdatedWhere(users, users', user.id, (u: UserRow) => WithSecret(u, EncryptText(s.crypto, iv, freshSecret))))
    && headers' == headers + [SetCookie(PendingCookieName(env), PendingToken(s, user.id, user.email, "setup"),
                                        BuildCookieOptions(env, PendingTtlMinutes))]
    && shown == PublicUser(user.id, user.username, user.email, user.createdAt, user.twoFactorEnabled && Truthy(user.twoFactorSecret))
    && info == TwoFactorResponse("setup", Some(OtpAuthUrl(s, secret, user.email)), Some(secret))
  }

  /** `ensureTwoFactorSecret` followed by `issuePendingCookie(res, user, 'setup')`, as register and login do. */
  method StartSetup(store: UserStore, res: Response, env: Env, s: Services, user: Loaded, freshSecret: string, iv: nat)
    returns (shown: PublicUser, info: TwoFactorInfo)
    requires store.Valid()
    modifies store`users, res
    ensures store.Valid()
    ensures SetupStarted(old(store.users), store.users, old(res.headers), res.headers, env, s, user, freshSecret, iv, shown, info)
  {
    var bundle, updated := EnsureTwoFactorSecret(store, s, user, freshSecret, iv);
    IssuePendingCookie(res, env, s, updated.id, updated.email, "setup");
    shown := ToPublicUser(updated);
    info := TwoFactorResponse("setup", Some(bundle.otpauthUrl), Some(bundle.secret));
  }

  /** The row `User.create` appends, once its fresh secret is stored. */
  function Enrolled(id: int, username: string, email: string, passwordHash: string, now: int, encrypted: string): UserRow {
    UserRow(id, username, email, passwordHash, now, false, Some(encrypted), None)
  }

  /** The setup challenge for a user just appended to the table: only that row changes. */
  method FinishRegistration(store: UserStore, res: Response, env: Env, s: Services, row: UserRow, freshSecret: string, iv: nat)
    returns (shown: PublicUser, info: TwoFactorInfo)
    requires store.Valid()
    requires store.users != [] && store.users[|store.users| - 1] == row
    requires !row.twoFactorEnabled && row.twoFactorSecret.None?
    modifies store`users, res
    ensures store.Valid()
    ensures store.users == old(store.users)[..|old(store.users)| - 1] + [WithSecret(row, EncryptText(s.crypto, iv, freshSecret))]
    ensures SetupStarted(old(store.users), store.users, old(res.headers), res.headers, env, s,
                         Loaded(row.id, row.username, row.email, row.createdAt, false, None), freshSecret, iv, shown, info)
  {
    ghost var before := store.users;
    assert forall i :: 0 <= i < |before| - 1 ==> before[i].id != row.id;
    shown, info := StartSetup(store, res, env, s, Loaded(row.id, row.username, row.email, row.createdAt, false, None), freshSecret, iv);
    NewRowUpdated(before, store.users, row.id, EncryptText(s.crypto, iv, freshSecret));
  }

  /**
   * `POST /register`: clears any session; an email already registered answers 400.
   * Otherwise the user is created with a fresh encrypted secret, two-factor off, a
   * `setup` pending cookie is issued and the secret is shown for setup. A username
   * already taken makes the insert fail, which the error handler turns into a 500.
   */
  method Register(store: UserStore, res: Response, env: Env, s: Services, username: string, email: string,
                  passwordHash: string, now: int, freshSecret: string, iv: nat)
    returns (r: AuthReply)
    requires store.Valid()
    modifies store, res
    ensures store.Valid()
    ensures r == Error(400, "Email already registered") <==> old(store.FindByEmail(email)).Some?
    ensures r.code == 500 <==> old(store.FindByEmail(email)).None? && old(store.Taken(username, email))
    ensures store.nextId == old(store.nextId) + (if r.code == 400 then 0 else 1)
    ensures r.code != 201 ==>
      && store.users == old(store.users)
      && res.headers == old(res.headers) + [ClearCookie(SessionCookieName(env), BaseCookieOptions(env))]
    ensures r.code == 201 ==>
      && store.users == old(store.users) + [Enrolled(old(store.nextId), username, email, passwordHash, now, EncryptText(s.crypto, iv, freshSecret))]
      && r.message == "Account created. Complete two-factor setup to finish signing in."
      && r.user.Some? && r.twoFactor.Some?
      && SetupStarted(old(store.users) + [UserRow(old(store.nextId), username, email, passwordHash, now, false, None, None)], store.users,
                      old(res.headers) + [ClearCookie(SessionCookieName(env), BaseCookieOptions(env))], res.headers,
                      env, s, Loaded(old(store.nextId), username, email, now, false, None), freshSecret, iv, r.user.value, r.twoFactor.value)
    ensures r.code == 400 || r.code == 500 || r.code == 201
  {
    ClearSessionCookie(res, env);
    var existing := store.FindByEmail(email);
    if existing.Some? {
      return Error(400, "Email already registered");
    }
    ghost var table, id := store.users, store.nextId;
    var created := store.Create(username, email, passwordHash, now);
    if created.None? {
      return Error(500, "");
    }
    var row := UserRow(created.value.id, username, email, passwordHash, now, false, None, None);
    assert row.id == id && store.users == table + [row];
    var shown, info := FinishRegistration(store, res, env, s, row, freshSecret, iv);
    assert store.nextId == id + 1;
    assert (table + [row])[..|table|] == table;
    return AuthReply(201, "Account created. Complete two-factor setup to finish signing in.", Some(shown), Some(info));
  }

  /** Updating the row just appended changes only that row. */
  lemma NewRowUpdated(before: seq<UserRow>, after: seq<UserRow>, id: int, encrypted: string)
    requires before != [] && before[|before| - 1].id == id
    requires forall i :: 0 <= i < |before| - 1 ==> before[i].id != id
    requires UpdatedWhere(before, after, id, (u: UserRow) => WithSecret(u, encrypted))
    ensures after == before[..|before| - 1] + [WithSecret(before[|before| - 1], encrypted)]
  {
  }

  /**
   * `POST /login`: clears any session. An unknown email and a wrong password both
   * answer 401 with the same message and issue no cookie. A user without an enabled
   * secret gets a `setup` challenge with the secret shown (an existing one reused);
   * a user with one gets a `verify` challenge that shows nothing secret.
   */
  method Login(store: UserStore, res: Response, env: Env, s: Services, email: string, password: string,
               freshSecret: string, iv: nat)
    returns (r: AuthReply)
    requires store.Valid()
    modifies store`users, res
    ensures store.Valid()
    ensures var user := old(store.FindByEmail(email));
      r == Error(401, BadCredentials) <==> user.None? || !s.passwordMatches(password, user.value.passwordHash)
    ensures r.code == 401 ==>
      && store.users == old(store.users)
      && res.headers == old(res.headers) + [ClearCookie(SessionCookieName(env), BaseCookieOptions(env))]
    ensures r.code != 401 ==>
      var user := old(store.FindByEmail(email)).value;
      && r.code == 200 && r.user.Some? && r.twoFactor.Some?
      && (!Truthy(user.twoFactorSecret) || !user.twoFactorEnabled ==>
            SetupStarted(old(store.users), store.users, old(res.headers) + [ClearCookie(SessionCookieName(env), BaseCookieOptions(env))],
                         res.headers, env, s, FromRow(user), freshSecret, iv, r.user.value, r.twoFactor.value))
      && (Truthy(user.twoFactorSecret) && user.twoFactorEnabled ==>
            && store.users == old(store.users)
            && res.headers == old(res.headers) + [ClearCookie(SessionCookieName(env), BaseCookieOptions(env)),
                                                  SetCookie(PendingCookieName(env), PendingToken(s, user.id, user.email, "login"),
                                                            BuildCookieOptions(env, PendingTtlMinutes))]
            && r.user == Some(PublicView(user))
            && r.twoFactor == Some(TwoFactorResponse("verify", None, None)))
  {
    ClearSessionCookie(res, env);
    var found := store.FindByEmail(email);
    if found.None? || !s.passwordMatches(password, found.value.passwordHash) {
      return Error(401, BadCredentials);
    }
    var user := FromRow(found.value);
    if !Truthy(user.twoFactorSecret) || !user.twoFactorEnabled {
      var shown, info := StartSetup(store, res, env, s, user, freshSecret, iv);
      return AuthReply(200, "Finish setting up two-factor authentication to sign in.", Some(shown), Some(info));
    }
    r := StartVerify(res, env, s, user);
  }

  /** The `verify` challenge of `POST /login` for a user whose two-factor is on: a `login` pending cookie, no secret shown. */
  method StartVerify(res: Response, env: Env, s: Services, user: Loaded) returns (r: AuthReply)
    modifies res
    ensures res.headers == old(res.headers) + [SetCookie(PendingCookieName(env), PendingToken(s, user.id, user.email, "login"),
                                                         BuildCookieOptions(env, PendingTtlMinutes))]
    ensures r == AuthReply(200, "Two-factor verification required", Some(ToPublicUser(user)), Some(TwoFactorResponse("verify", None, None)))
    ensures r.twoFactor.value.setup.None?
  {
    IssuePendingCookie(res, env, s, user.id, user.email, "login");
    return AuthReply(200, "Two-factor verification required", Some(ToPublicUser(user)), Some(TwoFactorResponse("verify", None, None)));
  }

  /** The state a good code leaves: two-factor on, the pending cookie swapped for a session, the user returned. */
  predicate Completed(users: seq<UserRow>, users': seq<UserRow>, headers: seq<CookieHeader>, headers': seq<CookieHeader>,
                      env: Env, s: Services, pending: SensitiveUser, now: int, r: AuthReply)
  {
    && r.code == 200
    && (pending.twoFactorEnabled ==> users' == users)
    && (!pending.twoFactorEnabled ==>
          UpdatedWhere(users, users', pending.id, (u: UserRow) => u.(twoFactorEnabled := true, twoFactorVerifiedAt := Some(now))))
    && headers' == headers + [ClearCookie(PendingCookieName(env), BaseCookieOptions(env)),
                              SetCookie(SessionCookieName(env), SessionToken(s, pending.id, pending.email),
                                        BuildCookieOptions(env, SessionTtlMinutes))]
    && r.user.Some? && r.user.value.id == pending.id && r.user.value.twoFactorEnabled
    && exists row :: row in users' && row.id == pending.id && r.user == Some(PublicView(row))
  }

  /** Two-factor switched on for the user if it was off, then the user read back by id. */
  method EnableAndReload(store: UserStore, user: SensitiveUser, now: int) returns (safeUser: Option<PublicUser>)
    requires store.Valid()
    requires exists u :: u in store.users && user == SensitiveView(u)
    modifies store`users
    ensures store.Valid()
    ensures user.twoFactorEnabled ==> store.users == old(store.users)
    ensures !user.twoFactorEnabled ==>
      UpdatedWhere(old(store.users), store.users, user.id, (u: UserRow) => u.(twoFactorEnabled := true, twoFactorVerifiedAt := Some(now)))
    ensures safeUser.Some? && safeUser.value.id == user.id && safeUser.value.twoFactorEnabled
    ensures exists row :: row in store.users && row.id == user.id && safeUser == Some(PublicView(row))
  {
    ghost var before := store.users;
    ghost var u :| u in before && user == SensitiveView(u);
    if !user.twoFactorEnabled {
      store.MarkTwoFactorVerified(user.id, now);
      FindAfterUpdate(before, store.users, user.id, (v: UserRow) => v.(twoFactorEnabled := true, twoFactorVerifiedAt := Some(now)), u);
    }
    safeUser := store.FindById(user.id);
    ghost var row := store.Find(user.id).value;
    assert safeUser == Some(PublicView(row));
    if user.twoFactorEnabled {
      OnlyRow(store.users, u, row);
    } else {
      MarkedRowEnabled(before, store.users, user.id, now, row);
    }
  }

  /** The tail of `POST /two-factor/verify` once the code has been accepted. */
  method CompleteChallenge(store: UserStore, res: Response, env: Env, s: Services, user: SensitiveUser, now: int)
    returns (r: AuthReply)
    requires store.Valid()
    requires exists u :: u in store.users && user == SensitiveView(u)
    modifies store`users, res
    ensures store.Valid()
    ensures Completed(old(store.users), store.users, old(res.headers), res.headers, env, s, user, now, r)
  {
    var safeUser := EnableAndReload(store, user, now);
    ClearPendingCookie(res, env);
    IssueSession(res, env, s, user.id, user.email);
    return AuthReply(200, "Two-factor authentication successful", safeUser, None);
  }

  /**
   * `POST /two-factor/verify`: without a resolvable pending user holding a secret,
   * 401; with a code the OTP check rejects, 400; either way nothing changes. A good
   * code enables two-factor if it was off, clears the pending cookie and issues a
   * session, whatever intent the pending token carried.
   */
  method Verify(store: UserStore, res: Response, env: Env, s: Services, cookies: map<string, string>, code: Option<string>, now: int)
    returns (r: AuthReply)
    requires store.Valid()
    modifies store`users, res
    ensures store.Valid()
    ensures var pending := old(ResolvePendingUser(store, s, env, cookies));
      && (r == Error(401, NoChallenge) <==> pending.None? || !Truthy(pending.value.twoFactorSecret))
      && (r == Error(400, BadCode) <==>
            && pending.Some? && Truthy(pending.value.twoFactorSecret)
            && !VerifyTwoFactorToken(s.codeIsValid, DecryptText(s.crypto, pending.value.twoFactorSecret.value), code))
    ensures r.code != 200 ==> store.users == old(store.users) && res.headers == old(res.headers)
    ensures r.code == 200 ==>
      Completed(old(store.users), store.users, old(res.headers), res.headers, env, s,
                old(ResolvePendingUser(store, s, env, cookies)).value, now, r)
  {
    var pending := ResolvePendingUser(store, s, env, cookies);
    if pending.None? || !Truthy(pending.value.twoFactorSecret) {
      return Error(401, NoChallenge);
    }
    var secret := DecryptText(s.crypto, pending.value.twoFactorSecret.value);
    if !VerifyTwoFactorToken(s.codeIsValid, secret, code) {
      return Error(400, BadCode);
    }
    r := CompleteChallenge(store, res, env, s, pending.value, now);
  }

  /** Ids being unique, two rows with the same id are the same row. */
  lemma OnlyRow(users: seq<UserRow>, u: UserRow, v: UserRow)
    requires forall i, j :: 0 <= i < j < |users| ==> users[i].id != users[j].id
    requires u in users && v in users && u.id == v.id
    ensures u == v
  {
    var i :| 0 <= i < |users| && users[i] == u;
    var j :| 0 <= j < |users| && users[j] == v;
    assert !(i < j) && !(j < i);
  }

  /** After `markTwoFactorVerified`, every row with that id has two-factor on. */
  lemma MarkedRowEnabled(before: seq<UserRow>, after: seq<UserRow>, id: int, now: int, v: UserRow)
    requires UpdatedWhere(before, after, id, (u: UserRow) => u.(twoFactorEnabled := true, twoFactorVerifiedAt := Some(now)))
    requires v in after && v.id == id
    ensures v.twoFactorEnabled
  {
    var j :| 0 <= j < |after| && after[j] == v;
  }

  /**
   * `POST /two-factor/regenerate`: refused with 400 unless a pending user is resolved
   * whose two-factor is still off; then a fresh secret replaces the stored one, a new
   * `setup` pending cookie is issued and the new secret is shown.
   */
  method Regenerate(store: UserStore, res: Response, env: Env, s: Services, cookies: map<string, string>,
                    freshSecret: string, iv: nat)
    returns (r: AuthReply)
    requires store.Valid()
    modifies store`users, res
    ensures store.Valid()
    ensures var pending := old(ResolvePendingUser(store, s, env, cookies));
      r == Error(400, SetupOnly) <==> pending.None? || pending.value.twoFactorEnabled
    ensures r.code == 400 ==> store.users == old(store.users) && res.headers == old(res.headers)
    ensures r.code != 400 ==>
      Regenerated(old(store.users), store.users, old(res.headers), res.headers, env, s,
                  old(ResolvePendingUser(store, s, env, cookies)).value, freshSecret, iv, r)
  {
    var pending := ResolvePendingUser(store, s, env, cookies);
    if pending.None? || pending.value.twoFactorEnabled {
      return Error(400, SetupOnly);
    }
    r := ReplaceSecret(store, res, env, s, pending.value, freshSecret, iv);
  }

  /** What regenerating leaves: the fresh secret stored, a new `setup` pending cookie, the fresh secret shown. */
  predicate Regenerated(users: seq<UserRow>, users': seq<UserRow>, headers: seq<CookieHeader>, headers': seq<CookieHeader>,
                        env: Env, s: Services, pending: SensitiveUser, freshSecret: string, iv: nat, r: AuthReply)
  {
    && r.code == 200
    && UpdatedWhere(users, users', pending.id, (u: UserRow) => WithSecret(u, EncryptText(s.crypto, iv, freshSecret)))
    && headers' == headers + [SetCookie(PendingCookieName(env), PendingToken(s, pending.id, pending.email, "setup"),
                                        BuildCookieOptions(env, PendingTtlMinutes))]
    && r.twoFactor == Some(TwoFactorResponse("setup", Some(OtpAuthUrl(s, freshSecret, pending.email)), Some(freshSecret)))
  }

  /** The tail of `POST /two-factor/regenerate` for a user still in setup. */
  method ReplaceSecret(store: UserStore, res: Response, env: Env, s: Services, user: SensitiveUser, freshSecret: string, iv: nat)
    returns (r: AuthReply)
    requires store.Valid()
    modifies store`users, res
    ensures store.Valid()
    ensures Regenerated(old(store.users), store.users, old(res.headers), res.headers, env, s, user, freshSecret, iv, r)
  {
    var url := OtpAuthUrl(s, freshSecret, user.email);
    store.UpdateTwoFactorSecret(user.id, EncryptText(s.crypto, iv, freshSecret));
    IssuePendingCookie(res, env, s, user.id, user.email, "setup");
    return AuthReply(200, "Generated a new secret. Configure your authenticator app again.", None,
                     Some(TwoFactorResponse("setup", Some(url), Some(freshSecret))));
  }

  /** `POST /two-factor/cancel`: always clears the pending cookie. */
  method Cancel(res: Response, env: Env) returns (r: AuthReply)
    modifies res
    ensures r.code == 200
    ensures res.headers == old(res.headers) + [ClearCookie(PendingCookieName(env), BaseCookieOptions(env))]
  {
    ClearPendingCookie(res, env);
    return AuthReply(200, "Two-factor challenge canceled", None, None);
  }

  /**
   * `POST /logout`, the handler behind `authenticateToken`: it runs only for a request
   * that `Middleware.AuthenticateAsWritten` let through; without a verified token the
   * gate answers 401 and no cookie is cleared. The handler clears the session cookie,
   * then the pending one.
   */
  method Logout(res: Response, env: Env) returns (r: AuthReply)
    modifies res
    ensures r.code == 200
    ensures res.headers == old(res.headers) + [ClearCookie(SessionCookieName(env), BaseCookieOptions(env)),
                                               ClearCookie(PendingCookieName(env), BaseCookieOptions(env))]
  {
    ClearSessionCookie(res, env);
    ClearPendingCookie(res, env);
    return AuthReply(200, "Logged out", None, None);
  }

  /**
   * The secret shown during setup is the one verify checks against: decrypting the
   * stored secret gives it back, so a code is accepted exactly when the OTP check
   * accepts it for the secret the user was shown.
   */
  lemma StoredSecretChecksShownSecret(s: Services, iv: nat, freshSecret: string, code: Option<string>)
    requires Sound(s.crypto)
    ensures VerifyTwoFactorToken(s.codeIsValid, DecryptText(s.crypto, EncryptText(s.crypto, iv, freshSecret)), code)
        <==> freshSecret != "" && code.Some? && code.value != "" && s.codeIsValid(code.value, freshSecret)
  {
    DecryptEncryptText(s.crypto, iv, freshSecret);
  }

  /** After a successful verify the browser holds the session token and no pending token. */
  lemma VerifySignsIn(env: Env, cookies: map<string, string>, headers: seq<CookieHeader>, token: string, options: CookieOptions)
    requires SessionCookieName(env) != PendingCookieName(env)
    ensures var jar := Jar(cookies, headers + [ClearCookie(PendingCookieName(env), BaseCookieOptions(env)),
                                               SetCookie(SessionCookieName(env), token, options)]);
      && SessionCookieName(env) in jar && jar[SessionCookieName(env)] == token
      && PendingCookieName(env) !in jar
  {
    var clear := ClearCookie(PendingCookieName(env), BaseCookieOptions(env));
    JarStep(cookies, headers, clear);
    JarStep(cookies, headers + [clear], SetCookie(SessionCookieName(env), token, options));
    assert headers + [clear, SetCookie(SessionCookieName(env), token, options)]
        == (headers + [clear]) + [SetCookie(SessionCookieName(env), token, options)];
  }
}
