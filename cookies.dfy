/**
 * The session and pending-challenge cookies of `backend/utils/cookies.js`:
 * their names and `secure` flag from the environment, the options every cookie
 * carries, and the `Set-Cookie` instructions the set and clear helpers add to
 * a response. `Jar` is what a browser holds after applying them.
 */
module Cookies {
  import opened Wrappers

  /** The environment variables the module reads; `None` is an unset variable. */
  datatype Env = Env(
    sessionCookieName: Option<string>,
    pendingCookieName: Option<string>,
    cookieSecure: Option<string>,
    nodeEnv: Option<string>)

  /** `value || fallback` for an environment string. */
  function OrDefault(value: Option<string>, fallback: string): (r: string)
    ensures value.Some? && value.value != "" ==> r == value.value
    ensures value.None? || value.value == "" ==> r == fallback
  {
    if value.Some? && value.value != "" then value.value else fallback
  }

  /** The session cookie's name, `banking_session` unless configured; the pending cookie's default differs from it. */
  function SessionCookieName(env: Env): string {
    OrDefault(env.sessionCookieName, "banking_session")
  }

  function PendingCookieName(env: Env): string {
    OrDefault(env.pendingCookieName, "banking_pending_2fa")
  }

  /** `secureCookie`: `COOKIE_SECURE` decides when it is `true` or `false`; otherwise production does. */
  function SecureCookie(env: Env): (secure: bool)
    ensures env.cookieSecure == Some("true") ==> secure
    ensures env.cookieSecure == Some("false") ==> !secure
    ensures env.cookieSecure != Some("true") && env.cookieSecure != Some("false") ==> (secure <==> env.nodeEnv == Some("production"))
  {
    var isProduction := env.nodeEnv == Some("production");
    env.cookieSecure == Some("true") || (env.cookieSecure != Some("false") && isProduction)
  }

  /** The options of a cookie; `maxAge` in milliseconds, `None` when absent. */
  datatype CookieOptions = CookieOptions(httpOnly: bool, sameSite: string, secure: bool, path: string, maxAge: Option<int>)

  /** `baseCookieOptions`. */
  function BaseCookieOptions(env: Env): CookieOptions {
    CookieOptions(true, "strict", SecureCookie(env), "/", None)
  }

  /** `buildCookieOptions`: the base options, scripts barred and same-site only, living `maxAgeMinutes` minutes. */
  function BuildCookieOptions(env: Env, maxAgeMinutes: int): (o: CookieOptions)
    ensures o.httpOnly && o.sameSite == "strict" && o.path == "/" && o.secure == SecureCookie(env)
    ensures o.maxAge == Some(maxAgeMinutes * 60000)
    ensures o.(maxAge := None) == BaseCookieOptions(env)
  {
    BaseCookieOptions(env).(maxAge := Some(maxAgeMinutes * 60 * 1000))
  }

  /** One `Set-Cookie` instruction: `res.cookie` or `res.clearCookie`. */
  datatype CookieHeader =
    | SetCookie(name: string, value: string, options: CookieOptions)
    | ClearCookie(name: string, options: CookieOptions)
  {
    function Name(): string {
      match this
      case SetCookie(name, _, _) => name
      case ClearCookie(name, _) => name
    }
  }

  /** The cookie instructions of one response, in the order they were issued. */
  class Response {
    var headers: seq<CookieHeader>

    constructor ()
      ensures headers == []
    {
      headers := [];
    }
  }

  /** `setSessionCookie`. */
  method SetSessionCookie(res: Response, env: Env, token: string, maxAgeMinutes: int)
    modifies res
    ensures res.headers == old(res.headers) + [SetCookie(SessionCookieName(env), token, BuildCookieOptions(env, maxAgeMinutes))]
  {
    res.headers := res.headers + [SetCookie(SessionCookieName(env), token, BuildCookieOptions(env, maxAgeMinutes))];
  }

  /** `clearSessionCookie`: cleared with the base options, without a lifetime. */
  method ClearSessionCookie(res: Response, env: Env)
    modifies res
    ensures res.headers == old(res.headers) + [ClearCookie(SessionCookieName(env), BaseCookieOptions(env))]
  {
    res.headers := res.headers + [ClearCookie(SessionCookieName(env), BaseCookieOptions(env))];
  }

  /** `setPendingTwoFactorCookie`. */
  method SetPendingCookie(res: Response, env: Env, token: string, maxAgeMinutes: int)
    modifies res
    ensures res.headers == old(res.headers) + [SetCookie(PendingCookieName(env), token, BuildCookieOptions(env, maxAgeMinutes))]
  {
    res.headers := res.headers + [SetCookie(PendingCookieName(env), token, BuildCookieOptions(env, maxAgeMinutes))];
  }

  /** `clearPendingTwoFactorCookie`. */
  method ClearPendingCookie(res: Response, env: Env)
    modifies res
    ensures res.headers == old(res.headers) + [ClearCookie(PendingCookieName(env), BaseCookieOptions(env))]
  {
    res.headers := res.headers + [ClearCookie(PendingCookieName(env), BaseCookieOptions(env))];
  }

  /** The browser's cookies after it applies the instructions in order. */
  function Jar(cookies: map<string, string>, headers: seq<CookieHeader>): map<string, string>
    decreases |headers|
  {
    if headers == [] then cookies
    else
      var before := Jar(cookies, headers[..|headers| - 1]);
      match headers[|headers| - 1]
      case SetCookie(name, value, _) => before[name := value]
      case ClearCookie(name, _) => before - {name}
  }

  /** An instruction changes the cookie it names and no other. */
  lemma JarStep(cookies: map<string, string>, headers: seq<CookieHeader>, h: CookieHeader)
    ensures var before, after := Jar(cookies, headers), Jar(cookies, headers + [h]);
      && (h.SetCookie? ==> h.name in after && after[h.name] == h.value)
      && (h.ClearCookie? ==> h.name !in after)
      && forall n :: n != h.Name() ==> (n in after <==> n in before) && (n in after ==> after[n] == before[n])
  {
    assert (headers + [h])[..|headers|] == headers;
  }
}
