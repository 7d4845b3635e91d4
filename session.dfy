/**
 * The session cookie lifecycle on the server: creating a session signs a
 * payload that expires a day later and stores it in the `session` cookie;
 * deleting it removes that cookie; checking it reads the cookie back and
 * verifies the token. The clock is the `now` parameter (milliseconds).
 */
module Session {
  import opened Wrappers
  import opened Strings
  import opened Token

  const CookieName: string := "session"

  /** 24 hours in milliseconds. */
  const SessionDurationMs: int := 24 * 60 * 60 * 1000

  /** The payload `createSession` signs: a fixed role and the expiry instant. */
  datatype SessionPayload = SessionPayload(role: string, exp: int)

  datatype SameSite = Lax | Strict | NoRestriction

  datatype CookieOptions = CookieOptions(httpOnly: bool, secure: bool, sameSite: SameSite, path: string, maxAge: int)

  datatype Cookie = Cookie(value: string, options: CookieOptions)

  /**
   * The attributes of the session cookie: script-inaccessible, same-site
   * lax, site-wide, secure only in production, and living as long as the
   * token (its lifetime in seconds).
   */
  function SessionCookieOptions(production: bool): (o: CookieOptions)
    ensures o.httpOnly && o.sameSite == Lax && o.path == "/"
    ensures o.maxAge == 86400 && o.maxAge * 1000 == SessionDurationMs
    ensures o.secure <==> production
  {
    CookieOptions(true, production, Lax, "/", SessionDurationMs / 1000)
  }

  /** The token `createSession` issues at time `now`. */
  function SessionToken(p: Primitives<SessionPayload>, secret: string, now: int): string
  {
    Sign(p, secret, SessionPayload("admin", now + SessionDurationMs))
  }

  /** `verifySession` over a cookie map: a non-empty `session` cookie holding a token that verifies. */
  predicate SessionValid(cookies: map<string, Cookie>, p: Primitives<SessionPayload>, secret: string, now: int)
  {
    && CookieName in cookies
    && cookies[CookieName].value != []
    && Verify(p, secret, cookies[CookieName].value, now).Some?
  }

  /** The request's cookie store. */
  class CookieJar {
    var cookies: map<string, Cookie>

    constructor(initial: map<string, Cookie>)
      ensures cookies == initial
    {
      cookies := initial;
    }

    /** `createSession`: sign a payload expiring a day from now and set it as the session cookie. */
    method CreateSession(p: Primitives<SessionPayload>, secret: string, now: int, production: bool)
      modifies this
      ensures cookies == old(cookies)[CookieName := Cookie(SessionToken(p, secret, now), SessionCookieOptions(production))]
    {
      var payload := SessionPayload("admin", now + SessionDurationMs);
      var token := Sign(p, secret, payload);
      cookies := cookies[CookieName := Cookie(token, SessionCookieOptions(production))];
    }

    /** `deleteSession`: remove the session cookie, leaving every other cookie as it was. */
    method DeleteSession()
      modifies this
      ensures cookies == old(cookies) - {CookieName}
    {
      cookies := cookies - {CookieName};
    }

    /** `verifySession`: false without a (non-empty) cookie, else whether its token verifies. */
    method VerifySession(p: Primitives<SessionPayload>, secret: string, now: int) returns (ok: bool)
      ensures ok == SessionValid(cookies, p, secret, now)
    {
      if CookieName !in cookies || cookies[CookieName].value == [] {
        return false;
      }
      var token := cookies[CookieName].value;
      ok := Verify(p, secret, token, now).Some?;
    }
  }

  /** The issued token is never empty: it always contains the separating dot. */
  lemma SessionTokenNonEmpty(p: Primitives<SessionPayload>, secret: string, now: int)
    requires Sound(p)
    ensures SessionToken(p, secret, now) != []
  {
    SignShape(p, secret, SessionPayload("admin", now + SessionDurationMs));
  }

  /**
   * Right after `createSession` at time `created`, the session checks as
   * valid at time `now` exactly when `now <= created + SessionDurationMs`,
   * whatever other cookies are present.
   */
  lemma ValidAfterCreate(cookies: map<string, Cookie>, p: Primitives<SessionPayload>, secret: string,
                         created: int, production: bool, now: int)
    requires Sound(p)
    requires forall x :: p.expOf(x) == Some(x.exp)
    ensures SessionValid(cookies[CookieName := Cookie(SessionToken(p, secret, created), SessionCookieOptions(production))],
                         p, secret, now)
            <==> now <= created + SessionDurationMs
  {
    var x := SessionPayload("admin", created + SessionDurationMs);
    SessionTokenNonEmpty(p, secret, created);
    VerifySign(p, secret, x, now);
  }

  /** After `deleteSession` the session never checks as valid, and the other cookies are untouched. */
  lemma InvalidAfterDelete(cookies: map<string, Cookie>, p: Primitives<SessionPayload>, secret: string, now: int)
    ensures !SessionValid(cookies - {CookieName}, p, secret, now)
    ensures forall k :: k in cookies && k != CookieName ==> k in cookies - {CookieName} && (cookies - {CookieName})[k] == cookies[k]
  {
  }
}
