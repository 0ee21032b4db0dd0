/**
 * The request gates of `backend/middleware/`: the external payments API key
 * check and the session check in front of the authenticated routes. Each gate
 * either lets the request through to the next handler or answers it.
 */
module Middleware {
  import opened Wrappers
  import opened Text
  import opened Cookies
  import opened Auth

  /** `split(' ')`: the fields between single spaces, empty fields included. */
  function SplitSpace(s: string): (parts: seq<string>)
    ensures |parts| >= 1
    ensures forall i :: 0 <= i < |parts| ==> ' ' !in parts[i]
    decreases |s|
  {
    if s == [] then [""]
    else if s[0] == ' ' then [""] + SplitSpace(s[1..])
    else
      var rest := SplitSpace(s[1..]);
      [[s[0]] + rest[0]] + rest[1..]
  }

  /** Joining the fields with single spaces gives the string back. */
  lemma {:induction false} JoinSplitSpace(s: string)
    ensures Join(SplitSpace(s), " ") == s
    decreases |s|
  {
    if s != [] {
      JoinSplitSpace(s[1..]);
      var rest := SplitSpace(s[1..]);
      if s[0] == ' ' {
        assert SplitSpace(s) == [""] + rest;
        assert ([""] + rest)[1..] == rest;
      } else {
        var parts := SplitSpace(s);
        assert parts[0] == [s[0]] + rest[0];
        if |rest| == 1 {
          assert parts == [[s[0]] + rest[0]];
        } else {
          assert parts[1..] == rest[1..];
          assert Join(parts, " ") == [s[0]] + rest[0] + " " + Join(rest[1..], " ");
        }
      }
    }
  }

  lemma {:induction false} SplitSpaceFree(s: string)
    requires ' ' !in s
    ensures SplitSpace(s) == [s]
    decreases |s|
  {
    if s != [] {
      SplitSpaceFree(s[1..]);
      assert [s[0]] + s[1..] == s;
    }
  }

  /** A field with no space before the first space splits off on its own. */
  lemma {:induction false} SplitSpaceField(a: string, b: string)
    requires ' ' !in a
    ensures SplitSpace(a + " " + b) == [a] + SplitSpace(b)
    decreases |a|
  {
    if a == [] {
      assert ([] + " " + b)[1..] == b;
    } else {
      SplitSpaceField(a[1..], b);
      assert (a + " " + b)[1..] == a[1..] + " " + b;
      assert [a[0]] + a[1..] == a;
    }
  }

  /** `authHeader && authHeader.split(' ')[1]`: the second field of a non-empty header, if it has one. */
  function BearerToken(authorization: Option<string>): (token: Option<string>)
    ensures token.Some? ==> Truthy(authorization) && ' ' !in token.value
    ensures token.Some? <==> Truthy(authorization) && |SplitSpace(authorization.value)| >= 2
  {
    if !Truthy(authorization) then None
    else
      var parts := SplitSpace(authorization.value);
      if |parts| >= 2 then Some(parts[1]) else None
  }

  /** A `Bearer <token>` header yields the token, whatever the scheme word is. */
  lemma BearerTokenOfHeader(scheme: string, token: string)
    requires ' ' !in scheme && ' ' !in token
    ensures BearerToken(Some(scheme + " " + token)) == Some(token)
  {
    SplitSpaceField(scheme, token);
    SplitSpaceFree(token);
  }

  /** The token `authenticateToken` checks: the session cookie if non-empty, otherwise the header's. */
  function SelectToken(env: Env, cookies: map<string, string>, authorization: Option<string>): (token: Option<string>)
    ensures token.Some? ==> token.value != ""
    ensures var name := SessionCookieName(env);
      name in cookies && cookies[name] != "" ==> token == Some(cookies[name])
    ensures var name := SessionCookieName(env);
      !(name in cookies && cookies[name] != "") ==>
        token == (if Truthy(BearerToken(authorization)) then BearerToken(authorization) else None)
  {
    var name := SessionCookieName(env);
    if name in cookies && cookies[name] != "" then Some(cookies[name])
    else
      var fromHeader := BearerToken(authorization);
      if Truthy(fromHeader) then fromHeader else None
  }

  /** `req.user`: `payload.sub || payload.id`, and the email. The tokens of this backend carry no `id`. */
  datatype RequestUser = RequestUser(id: Option<int>, email: string)

  datatype AuthOutcome = Authenticated(user: RequestUser) | Rejected(code: int, error: string)

  const TokenRequired := "Access token required"
  const TokenInvalid := "Invalid or expired token"

  function RequestUserOf(claims: Claims): RequestUser {
    RequestUser(if claims.sub != 0 then Some(claims.sub) else None, claims.email)
  }

  /**
   * `authenticateToken` as written: any token that verifies lets the request through,
   * the pending-challenge tokens that login issues before the second factor included.
   */
  function AuthenticateAsWritten(s: Services, env: Env, cookies: map<string, string>, authorization: Option<string>): (r: AuthOutcome)
    ensures var token := SelectToken(env, cookies, authorization);
      && (r == Rejected(401, TokenRequired) <==> token.None?)
      && (r == Rejected(401, TokenInvalid) <==> token.Some? && s.verify(token.value).None?)
      && (r.Authenticated? <==> token.Some? && s.verify(token.value).Some?)
      && (r.Authenticated? ==> r.user == RequestUserOf(s.verify(token.value).value))
  {
    match SelectToken(env, cookies, authorization)
    case None => Rejected(401, TokenRequired)
    case Some(token) =>
      match s.verify(token)
      case None => Rejected(401, TokenInvalid)
      case Some(claims) => Authenticated(RequestUserOf(claims))
  }

  /**
   * A password alone is enough as written: the pending token a successful password
   * check hands out, sent back as `Authorization: Bearer <token>`, authenticates.
   */
  lemma PendingTokenAuthenticatesAsWritten(s: Services, env: Env, id: int, email: string)
    requires id >= 1
    requires var token := PendingToken(s, id, email, "login");
      token != "" && ' ' !in token && s.verify(token) == Some(Claims(id, email, Some("login"), PendingTtlMinutes))
    ensures AuthenticateAsWritten(s, env, map[], Some("Bearer " + PendingToken(s, id, email, "login")))
         == Authenticated(RequestUser(Some(id), email))
  {
    var token := PendingToken(s, id, email, "login");
    BearerTokenOfHeader("Bearer", token);
    assert "Bearer" + " " + token == "Bearer " + token;
    assert SelectToken(env, map[], Some("Bearer " + token)) == Some(token);
  }

  /**
   * `authenticateToken` as intended: as written, except that a token carrying an
   * `intent` (a pending two-factor challenge) is refused like an invalid one.
   */
  function Authenticate(s: Services, env: Env, cookies: map<string, string>, authorization: Option<string>): (r: AuthOutcome)
    ensures var token := SelectToken(env, cookies, authorization);
      && (r == Rejected(401, TokenRequired) <==> token.None?)
      && (r == Rejected(401, TokenInvalid) <==>
            token.Some? && (s.verify(token.value).None? || s.verify(token.value).value.intent.Some?))
      && (r.Authenticated? ==> r.user == RequestUserOf(s.verify(token.value).value))
  {
    match SelectToken(env, cookies, authorization)
    case None => Rejected(401, TokenRequired)
    case Some(token) =>
      match s.verify(token)
      case None => Rejected(401, TokenInvalid)
      case Some(claims) =>
        if claims.intent.Some? then Rejected(401, TokenInvalid) else Authenticated(RequestUserOf(claims))
  }

  /** Only a verified token without an intent authenticates; every pending token is refused. */
  lemma PendingTokenRefused(s: Services, env: Env, cookies: map<string, string>, authorization: Option<string>, id: int, email: string, intent: string)
    requires SelectToken(env, cookies, authorization) == Some(PendingToken(s, id, email, intent))
    requires s.verify(PendingToken(s, id, email, intent)) == Some(Claims(id, email, Some(intent), PendingTtlMinutes))
    ensures Authenticate(s, env, cookies, authorization) == Rejected(401, TokenInvalid)
  {
  }

  /** The session cookie issued after a successful verify authenticates as that user. */
  lemma SessionCookieAuthenticates(s: Services, env: Env, cookies: map<string, string>, authorization: Option<string>, id: int, email: string)
    requires id >= 1
    requires SessionToken(s, id, email) != ""
    requires s.verify(SessionToken(s, id, email)) == Some(Claims(id, email, None, SessionTtlMinutes))
    ensures Authenticate(s, env, cookies[SessionCookieName(env) := SessionToken(s, id, email)], authorization)
         == Authenticated(RequestUser(Some(id), email))
  {
  }

  datatype KeyOutcome = Proceed | Refuse(code: int, error: string)

  /** `x-external-api-key || x-api-key`: the second header only when the first is missing or empty. */
  function IncomingKey(externalApiKey: Option<string>, apiKey: Option<string>): Option<string> {
    if Truthy(externalApiKey) then externalApiKey else apiKey
  }

  /**
   * `requireExternalApiKey`: 503 while no key is configured; otherwise the request
   * proceeds exactly when the incoming key equals the configured one, and 401 otherwise.
   */
  function RequireExternalApiKey(configuredKey: Option<string>, externalApiKey: Option<string>, apiKey: Option<string>): (r: KeyOutcome)
    ensures r == Refuse(503, "External payments API key is not configured") <==> !Truthy(configuredKey)
    ensures r == Proceed <==> Truthy(configuredKey) && IncomingKey(externalApiKey, apiKey) == configuredKey
    ensures r == Refuse(401, "Invalid API key") <==> Truthy(configuredKey) && IncomingKey(externalApiKey, apiKey) != configuredKey
  {
    if !Truthy(configuredKey) then Refuse(503, "External payments API key is not configured")
    else
      var incoming := IncomingKey(externalApiKey, apiKey);
      if !Truthy(incoming) || incoming.value != configuredKey.value then Refuse(401, "Invalid API key")
      else Proceed
  }

  /** A wrong `x-external-api-key` is not rescued by a right `x-api-key`. */
  lemma ExternalHeaderTakesPrecedence(configuredKey: string, wrongKey: string)
    requires configuredKey != "" && wrongKey != "" && wrongKey != configuredKey
    ensures RequireExternalApiKey(Some(configuredKey), Some(wrongKey), Some(configuredKey)) == Refuse(401, "Invalid API key")
  {
  }
}
