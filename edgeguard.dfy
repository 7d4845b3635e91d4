/**
 * The request guard in front of the data-entry pages: it re-verifies the
 * session token with its own base64 helpers and either lets the request
 * through, redirects to the login page, or redirects and clears the
 * session cookie.
 */
module EdgeGuard {
  import opened Wrappers
  import opened Strings
  import opened Token
  import Session

  /** `bufferToBase64Url`: bytes to a binary string, standard base64, then made URL-safe. */
  method BufferToBase64Url<P>(p: Primitives<P>, bytes: seq<Byte>) returns (s: string)
    ensures s == EncodeBytes(p, bytes)
  {
    var binary := "";
    for i := 0 to |bytes|
      invariant |binary| == i
      invariant forall j :: 0 <= j < i ==> binary[j] as int == bytes[j]
    {
      binary := binary + [bytes[i] as char];
    }
    assert binary == Latin1(bytes);
    var b64 := p.btoa(binary);
    s := StripPadding(ReplaceChar(ReplaceChar(b64, '+', '-'), '/', '_'));
  }

  /** The URL-safe encoding of any byte buffer has no `'+'`, no `'/'` and no trailing `'='`. */
  lemma BufferToBase64UrlAlphabet<P(!new)>(p: Primitives<P>, bytes: seq<Byte>)
    requires Sound(p)
    ensures '+' !in EncodeBytes(p, bytes) && '/' !in EncodeBytes(p, bytes)
    ensures EncodeBytes(p, bytes) == [] || EncodeBytes(p, bytes)[|EncodeBytes(p, bytes)| - 1] != '='
  {
    EncodeBytesUrlSafe(p, bytes);
  }

  /** How many `'='` a URL-safe text of length `n` needs. */
  function PadLength(n: nat): (k: nat)
    ensures k < 4 && (n + k) % 4 == 0
  {
    (4 - n % 4) % 4
  }

  /** No shorter padding reaches a multiple of four. */
  lemma PadLengthLeast(n: nat, j: nat)
    requires j < PadLength(n)
    ensures (n + j) % 4 != 0
  {
  }

  /**
   * `base64UrlToBase64`: map `'-'` to `'+'` and `'_'` to `'/'`, leave
   * every other character alone, then append `'='` until the length is a
   * multiple of four.
   */
  method Base64UrlToBase64(str: string) returns (result: string)
    ensures |result| % 4 == 0
    ensures |result| == |str| + PadLength(|str|)
    ensures forall i :: 0 <= i < |str| ==>
      result[i] == (if str[i] == '-' then '+' else if str[i] == '_' then '/' else str[i])
    ensures forall i :: |str| <= i < |result| ==> result[i] == '='
    ensures result == ToStandardBase64(str)
  {
    result := ReplaceChar(ReplaceChar(str, '-', '+'), '_', '/');
    ghost var mapped := result;
    while |result| % 4 != 0
      invariant |str| <= |result| <= |str| + PadLength(|str|)
      invariant result[..|str|] == mapped
      invariant forall i :: |str| <= i < |result| ==> result[i] == '='
      decreases |str| + PadLength(|str|) - |result|
    {
      result := result + "=";
    }
    if |result| < |str| + PadLength(|str|) {
      PadLengthLeast(|str|, |result| - |str|);
    }
    assert result == mapped + result[|str|..];
    assert result[|str|..] == seq(PadLength(|str|), _ => '=');
  }

  /** `verifyToken`: two segments, matching signature, decodable payload, not expired. */
  method VerifyToken<P>(p: Primitives<P>, secret: string, token: string, now: int) returns (ok: bool)
    ensures ok == TokenAccepted(p, secret, token, now)
  {
    var parts := Split(token, '.');
    if |parts| != 2 {
      return false;
    }
    var payloadStr, signature := parts[0], parts[1];
    var signatureBuffer := p.hmac(secret, payloadStr);
    var expectedSignature := BufferToBase64Url(p, signatureBuffer);
    if signature != expectedSignature {
      return false;
    }
    var standard := Base64UrlToBase64(payloadStr);
    var text := p.atob(standard);
    if text.None? {
      return false;
    }
    var payload := p.parse(text.value);
    if payload.None? {
      return false;
    }
    ok := !Expired(p.expOf(payload.value), now);
  }

  /** What the guard does with a request. */
  datatype Decision = Next | RedirectToLogin | RedirectToLoginClearingCookie

  /** The matcher `/entry/:path*`: the entry page (with or without a trailing slash) and everything below it. */
  predicate Guarded(path: string)
  {
    path == "/entry" || (|path| >= 7 && path[..7] == "/entry/")
  }

  /** The guard's decision on a guarded request, as a function of its session cookie. */
  function Decide<P>(p: Primitives<P>, secret: string, token: Option<string>, now: int): Decision
  {
    if token.None? || token.value == [] then RedirectToLogin
    else if !TokenAccepted(p, secret, token.value, now) then RedirectToLoginClearingCookie
    else Next
  }

  /** `proxy`: requests outside the matcher pass; guarded ones are decided on their session cookie. */
  method Proxy<P>(p: Primitives<P>, secret: string, path: string, cookies: map<string, string>, now: int)
    returns (d: Decision)
    ensures d == if !Guarded(path) then Next
                 else Decide(p, secret, if Session.CookieName in cookies then Some(cookies[Session.CookieName]) else None, now)
  {
    if !Guarded(path) {
      return Next;
    }
    var token := if Session.CookieName in cookies then cookies[Session.CookieName] else "";
    if token == [] {
      return RedirectToLogin;
    }
    var isValid := VerifyToken(p, secret, token, now);
    if !isValid {
      return RedirectToLoginClearingCookie;
    }
    return Next;
  }

  /**
   * The three outcomes: no cookie redirects without clearing anything; a
   * present token the guard rejects redirects and clears the cookie; an
   * accepted token passes.
   */
  lemma DecideOutcomes<P(!new)>(p: Primitives<P>, secret: string, token: Option<string>, now: int)
    ensures Decide(p, secret, token, now) == RedirectToLogin <==> token.None? || token.value == []
    ensures Decide(p, secret, token, now) == RedirectToLoginClearingCookie
            <==> token.Some? && token.value != [] && !TokenAccepted(p, secret, token.value, now)
    ensures Decide(p, secret, token, now) == Next <==> token.Some? && TokenAccepted(p, secret, token.value, now)
  {
    if token.Some? && TokenAccepted(p, secret, token.value, now) {
      var parts := Split(token.value, '.');
      assert |parts| == 2;
      assert token.value != [];
    }
  }

  /**
   * A session cookie issued at `created` lets guarded requests through up
   * to and including `created + SessionDurationMs`, and after that the
   * guard clears it.
   */
  lemma GuardHonoursSession(p: Primitives<Session.SessionPayload>, secret: string, created: int, now: int)
    requires Sound(p)
    requires forall x :: p.expOf(x) == Some(x.exp)
    ensures Decide(p, secret, Some(Session.SessionToken(p, secret, created)), now)
            == if now <= created + Session.SessionDurationMs then Next else RedirectToLoginClearingCookie
  {
    var x := Session.SessionPayload("admin", created + Session.SessionDurationMs);
    Session.SessionTokenNonEmpty(p, secret, created);
    EdgeAgreesOnSigned(p, secret, x, now);
    VerifySign(p, secret, x, now);
  }

  /** A forged second segment is caught: the guard clears the cookie. */
  lemma GuardRejectsForgedSignature<P(!new)>(p: Primitives<P>, secret: string, segment: string, sig: string, now: int)
    requires '.' !in segment && '.' !in sig
    requires sig != Signature(p, secret, segment)
    ensures Decide(p, secret, Some(segment + "." + sig), now) == RedirectToLoginClearingCookie
  {
    VerifyRejectsBadSignature(p, secret, segment, sig, now);
  }
}
