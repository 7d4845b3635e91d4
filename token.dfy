/**
 * The session token codec: a token is the URL-safe base64 (section 5 of
 * RFC 4648, unpadded) of the payload's JSON text, a dot, and the URL-safe
 * base64 of the HMAC-SHA256 (RFC 2104) of that first segment under the
 * server secret. Verification rejects, in this order: a token that does not
 * split into exactly two segments, a signature mismatch, an undecodable or
 * unparsable payload, and an expired payload.
 *
 * The cryptographic and text primitives are parameters: HMAC, the standard
 * padded base64 encoder and decoder, the lenient URL-safe decoder, and JSON
 * text conversion. `Sound` states the laws they are relied on to satisfy.
 */
module Token {
  import opened Wrappers
  import opened Strings

  type Byte = b: int | 0 <= b < 256

  /** The secret when the environment does not supply one. */
  const DefaultSecret: string := "default-dev-secret-change-in-production"

  /** `SESSION_SECRET || default`: an unset or empty variable falls back to the default. */
  function SessionSecret(env: Option<string>): (secret: string)
    ensures secret != []
    ensures env.Some? && env.value != [] ==> secret == env.value
    ensures env.None? || env.value == [] ==> secret == DefaultSecret
  {
    if env.Some? && env.value != [] then env.value else DefaultSecret
  }

  /**
   * The foreign primitives, over a payload type `P`:
   * `hmac(key, message)` is HMAC-SHA256 of the UTF-8 text;
   * `btoa`/`atob` are the standard padded base64 encoder and decoder on
   * binary strings (one character per byte), `atob` yielding `None` where it throws;
   * `decodeBase64Url` is the lenient URL-safe decoder followed by UTF-8 decoding;
   * `stringify`/`parse` are JSON text conversion, `parse` yielding `None`
   * where parsing throws or the result has no readable fields;
   * `expOf` reads the payload's `exp` as a number, `None` when comparing with it is always false.
   */
  datatype Primitives<!P> = Primitives(
    hmac: (string, string) -> seq<Byte>,
    btoa: string -> string,
    atob: string -> Option<string>,
    decodeBase64Url: string -> string,
    stringify: P -> string,
    parse: string -> Option<P>,
    expOf: P -> Option<int>)

  predicate IsLatin1(s: string)
  {
    forall i :: 0 <= i < |s| ==> s[i] as int < 256
  }

  predicate IsAscii(s: string)
  {
    forall i :: 0 <= i < |s| ==> s[i] as int < 128
  }

  /** A byte buffer as a binary string, one character per byte (`String.fromCharCode`). */
  function Latin1(bytes: seq<Byte>): (s: string)
    ensures |s| == |bytes| && IsLatin1(s)
    ensures forall i :: 0 <= i < |bytes| ==> s[i] as int == bytes[i]
  {
    seq(|bytes|, i requires 0 <= i < |bytes| => bytes[i] as char)
  }

  /** A character of the standard base64 alphabet (section 4 of RFC 4648). */
  predicate IsBase64Char(c: char)
  {
    ('A' <= c <= 'Z') || ('a' <= c <= 'z') || ('0' <= c <= '9') || c == '+' || c == '/'
  }

  /** A character of the URL-safe base64 alphabet (section 5 of RFC 4648). */
  predicate IsBase64UrlChar(c: char)
  {
    ('A' <= c <= 'Z') || ('a' <= c <= 'z') || ('0' <= c <= '9') || c == '-' || c == '_'
  }

  /** `s.replace(/=+$/, "")`: every trailing `'='` removed. */
  function StripPadding(s: string): (r: string)
    ensures |r| <= |s| && r == s[..|r|]
    ensures r == [] || r[|r| - 1] != '='
    ensures forall i :: |r| <= i < |s| ==> s[i] == '='
  {
    if s != [] && s[|s| - 1] == '=' then StripPadding(s[..|s| - 1]) else s
  }

  /**
   * A well-formed standard base64 text: a multiple of four characters, at
   * most two of them trailing padding, the rest from the alphabet.
   */
  predicate IsPaddedBase64(s: string)
  {
    var body := StripPadding(s);
    && |s| % 4 == 0
    && |s| - |body| <= 2
    && forall i :: 0 <= i < |body| ==> IsBase64Char(body[i])
  }

  /** The laws the primitives are relied on to satisfy. */
  ghost predicate Sound<P(!new)>(p: Primitives<P>)
  {
    && (forall s :: IsLatin1(s) ==> IsPaddedBase64(p.btoa(s)))
    && (forall s :: IsLatin1(s) ==> p.atob(p.btoa(s)) == Some(s))
    && (forall s :: IsAscii(s) ==> p.decodeBase64Url(Base64Url(p.btoa(s))) == s)
    && (forall x :: IsAscii(p.stringify(x)) && p.parse(p.stringify(x)) == Some(x))
  }

  /** Standard base64 made URL-safe: `'+'` to `'-'`, `'/'` to `'_'`, trailing padding removed. */
  function Base64Url(s: string): string
  {
    StripPadding(ReplaceChar(ReplaceChar(s, '+', '-'), '/', '_'))
  }

  /** URL-safe base64 back to standard: `'-'` to `'+'`, `'_'` to `'/'`, padded to a multiple of four with `'='`. */
  function ToStandardBase64(s: string): string
  {
    ReplaceChar(ReplaceChar(s, '-', '+'), '_', '/') + seq((4 - |s| % 4) % 4, _ => '=')
  }

  /** `digest("base64url")` / `bufferToBase64Url`: the URL-safe base64 of a byte buffer. */
  function EncodeBytes<P>(p: Primitives<P>, bytes: seq<Byte>): string
  {
    Base64Url(p.btoa(Latin1(bytes)))
  }

  /** The first segment of a token: the URL-safe base64 of the payload's JSON text. */
  function PayloadSegment<P>(p: Primitives<P>, x: P): string
  {
    Base64Url(p.btoa(p.stringify(x)))
  }

  /** The second segment: the URL-safe base64 of the HMAC of the first segment. */
  function Signature<P>(p: Primitives<P>, secret: string, segment: string): string
  {
    EncodeBytes(p, p.hmac(secret, segment))
  }

  /** `sign`: payload segment, a dot, signature segment. */
  function Sign<P>(p: Primitives<P>, secret: string, x: P): string
  {
    var segment := PayloadSegment(p, x);
    segment + "." + Signature(p, secret, segment)
  }

  /** `now > payload.exp`; a missing or non-numeric `exp` never compares greater. */
  predicate Expired(exp: Option<int>, now: int)
  {
    exp.Some? && now > exp.value
  }

  /** `verify`: the payload of a well-formed, correctly signed, unexpired token, else `None`. */
  function Verify<P>(p: Primitives<P>, secret: string, token: string, now: int): Option<P>
  {
    var parts := Split(token, '.');
    if |parts| != 2 then None
    else if parts[1] != Signature(p, secret, parts[0]) then None
    else match p.parse(p.decodeBase64Url(parts[0]))
      case None => None
      case Some(x) => if Expired(p.expOf(x), now) then None else Some(x)
  }

  /**
   * The edge guard's `verifyToken`: the same checks in the same order, but
   * the payload is decoded with `atob` after restoring standard base64,
   * and the answer is only whether the token is acceptable.
   */
  predicate TokenAccepted<P>(p: Primitives<P>, secret: string, token: string, now: int)
  {
    var parts := Split(token, '.');
    && |parts| == 2
    && parts[1] == Signature(p, secret, parts[0])
    && match p.atob(ToStandardBase64(parts[0]))
       case None => false
       case Some(text) =>
         match p.parse(text)
         case None => false
         case Some(x) => !Expired(p.expOf(x), now)
  }

  // ---------------------------------------------------------------------
  // Properties of the URL-safe alphabet
  // ---------------------------------------------------------------------

  lemma {:induction false} StripPaddingSamePositions(s: string, t: string)
    requires |s| == |t|
    requires forall i :: 0 <= i < |s| ==> (s[i] == '=' <==> t[i] == '=')
    ensures |StripPadding(s)| == |StripPadding(t)|
  {
    if s != [] && s[|s| - 1] == '=' {
      StripPaddingSamePositions(s[..|s| - 1], t[..|t| - 1]);
    }
  }

  /** Positions of a well-formed text's URL-safe form correspond one to one to its unpadded body. */
  lemma Base64UrlBody(s: string)
    requires IsPaddedBase64(s)
    ensures var body := StripPadding(s);
      && |Base64Url(s)| == |body|
      && forall i :: 0 <= i < |body| ==>
           Base64Url(s)[i] == (if body[i] == '+' then '-' else if body[i] == '/' then '_' else body[i])
  {
    var u := ReplaceChar(ReplaceChar(s, '+', '-'), '/', '_');
    StripPaddingSamePositions(s, u);
  }

  /** Restoring standard base64 maps each character back and appends the missing padding. */
  lemma ToStandardBase64Shape(r: string)
    ensures var back := ToStandardBase64(r);
      && |back| == |r| + (4 - |r| % 4) % 4
      && (forall i :: 0 <= i < |r| ==>
            back[i] == (if r[i] == '-' then '+' else if r[i] == '_' then '/' else r[i]))
      && (forall i :: |r| <= i < |back| ==> back[i] == '=')
  {
  }

  /** A text of `n` characters needing `k <= 2` padding characters to reach a multiple of four gets exactly `k`. */
  lemma PaddingLength(n: nat, k: nat)
    requires k <= 2 && (n + k) % 4 == 0
    ensures (4 - n % 4) % 4 == k
  {
    if k == 0 {
      assert n % 4 == 0;
    } else if k == 1 {
      assert n % 4 == 3;
    } else {
      assert n % 4 == 2;
    }
  }

  /**
   * The URL-safe form of a well-formed standard base64 text consists of
   * URL-safe alphabet characters only (so no `'+'`, `'/'`, `'='` or `'.'`),
   * and restoring it gives back the standard text.
   */
  lemma Base64UrlRoundTrip(s: string)
    requires IsPaddedBase64(s)
    ensures forall i :: 0 <= i < |Base64Url(s)| ==> IsBase64UrlChar(Base64Url(s)[i])
    ensures ToStandardBase64(Base64Url(s)) == s
  {
    var body := StripPadding(s);
    var r := Base64Url(s);
    Base64UrlBody(s);
    ToStandardBase64Shape(r);
    var k := |s| - |body|;
    var back := ToStandardBase64(r);
    PaddingLength(|r|, k);
    forall i | 0 <= i < |r| ensures IsBase64UrlChar(r[i]) && back[i] == s[i] {
      assert IsBase64Char(body[i]);
      assert s[i] == body[i];
    }
    forall i | |r| <= i < |s| ensures back[i] == s[i] {
    }
  }

  /** URL-safe text contains no `'.'`, so it never splits at a dot. */
  lemma UrlSafeHasNoDot(s: string)
    requires forall i :: 0 <= i < |s| ==> IsBase64UrlChar(s[i])
    ensures '.' !in s
  {
  }

  lemma EncodeBytesUrlSafe<P(!new)>(p: Primitives<P>, bytes: seq<Byte>)
    requires Sound(p)
    ensures forall i :: 0 <= i < |EncodeBytes(p, bytes)| ==> IsBase64UrlChar(EncodeBytes(p, bytes)[i])
  {
    Base64UrlRoundTrip(p.btoa(Latin1(bytes)));
  }

  lemma PayloadSegmentUrlSafe<P(!new)>(p: Primitives<P>, x: P)
    requires Sound(p)
    ensures forall i :: 0 <= i < |PayloadSegment(p, x)| ==> IsBase64UrlChar(PayloadSegment(p, x)[i])
  {
    var json := p.stringify(x);
    assert IsLatin1(json);
    Base64UrlRoundTrip(p.btoa(json));
  }

  // ---------------------------------------------------------------------
  // Properties of sign and verify
  // ---------------------------------------------------------------------

  /** A signed token has exactly one dot, and splits back into its two segments. */
  lemma SignShape<P(!new)>(p: Primitives<P>, secret: string, x: P)
    requires Sound(p)
    ensures Count(Sign(p, secret, x), '.') == 1
    ensures Split(Sign(p, secret, x), '.') == [PayloadSegment(p, x), Signature(p, secret, PayloadSegment(p, x))]
  {
    var seg := PayloadSegment(p, x);
    var sig := Signature(p, secret, seg);
    PayloadSegmentUrlSafe(p, x);
    EncodeBytesUrlSafe(p, p.hmac(secret, seg));
    UrlSafeHasNoDot(seg);
    UrlSafeHasNoDot(sig);
    assert Join([seg, sig], '.') == seg + "." + sig;
    SplitJoin([seg, sig], '.');
    SplitCount(Sign(p, secret, x), '.');
  }

  /**
   * Verifying a freshly signed token gives its payload back exactly when
   * it has not expired; `now == exp` is still valid.
   */
  lemma VerifySign<P(!new)>(p: Primitives<P>, secret: string, x: P, now: int)
    requires Sound(p)
    ensures Verify(p, secret, Sign(p, secret, x), now) == if Expired(p.expOf(x), now) then None else Some(x)
  {
    SignShape(p, secret, x);
    var json := p.stringify(x);
    assert p.decodeBase64Url(PayloadSegment(p, x)) == json;
  }

  /** A token that does not have exactly one dot is rejected. */
  lemma VerifyRejectsSegmentCount<P(!new)>(p: Primitives<P>, secret: string, token: string, now: int)
    requires Count(token, '.') != 1
    ensures Verify(p, secret, token, now) == None
    ensures !TokenAccepted(p, secret, token, now)
  {
    SplitCount(token, '.');
  }

  /** A two-segment token whose second segment is not the signature of its first is rejected, whatever its payload. */
  lemma VerifyRejectsBadSignature<P(!new)>(p: Primitives<P>, secret: string, segment: string, sig: string, now: int)
    requires '.' !in segment && '.' !in sig
    requires sig != Signature(p, secret, segment)
    ensures Verify(p, secret, segment + "." + sig, now) == None
    ensures !TokenAccepted(p, secret, segment + "." + sig, now)
  {
    assert Join([segment, sig], '.') == segment + "." + sig;
    SplitJoin([segment, sig], '.');
  }

  /** A correctly signed token whose payload is expired is rejected: a valid signature does not override expiry. */
  lemma VerifyRejectsExpired<P(!new)>(p: Primitives<P>, secret: string, x: P, now: int)
    requires Sound(p)
    requires p.expOf(x).Some? && now > p.expOf(x).value
    ensures Verify(p, secret, Sign(p, secret, x), now) == None
    ensures !TokenAccepted(p, secret, Sign(p, secret, x), now)
  {
    VerifySign(p, secret, x, now);
    EdgeAgreesOnSigned(p, secret, x, now);
  }

  /** Every payload `verify` returns came through all four checks. */
  lemma VerifyAccepts<P(!new)>(p: Primitives<P>, secret: string, token: string, now: int, x: P)
    requires Verify(p, secret, token, now) == Some(x)
    ensures Count(token, '.') == 1
    ensures Split(token, '.')[1] == Signature(p, secret, Split(token, '.')[0])
    ensures p.parse(p.decodeBase64Url(Split(token, '.')[0])) == Some(x)
    ensures !Expired(p.expOf(x), now)
  {
    SplitCount(token, '.');
  }

  /** On tokens the server signed, the edge guard accepts exactly when `verify` does. */
  lemma EdgeAgreesOnSigned<P(!new)>(p: Primitives<P>, secret: string, x: P, now: int)
    requires Sound(p)
    ensures TokenAccepted(p, secret, Sign(p, secret, x), now) <==> Verify(p, secret, Sign(p, secret, x), now).Some?
  {
    SignShape(p, secret, x);
    VerifySign(p, secret, x, now);
    var json := p.stringify(x);
    assert IsLatin1(json);
    Base64UrlRoundTrip(p.btoa(json));
    assert p.atob(p.btoa(json)) == Some(json);
  }
}
