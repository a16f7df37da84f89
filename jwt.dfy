/** The token service the server delegates to `jsonwebtoken`:
    `jwt.sign({ _id }, secret, { expiresIn: "1h" })` and
    `jwt.verify(token, secret)`, following JSON Web Tokens (RFC 7519).

    A token is the compact form `header.payload.signature`. The header is
    the fixed HS256 header; the payload carries the user's `_id`, the issue
    time `iat` and the expiry `exp` (section 4.1.4 of RFC 7519), in seconds;
    the signature is a digest of the secret and `header.payload`. The base64url/JSON
    encoding of the payload is replaced by the plain text `sub-iat-exp`. */
module Jwt {
  import opened Text
  import Digest

  predicate IsLowerHex(c: char) {
    '0' <= c <= '9' || 'a' <= c <= 'f'
  }

  predicate IsObjectId(s: string) {
    |s| == 24 && forall i :: 0 <= i < |s| ==> IsLowerHex(s[i])
  }

  /** A MongoDB `_id` as it appears in JSON: 24 lower-case hex digits. */
  type ObjectId = s: string | IsObjectId(s) witness "000000000000000000000000"

  /** base64url of {"alg":"HS256","typ":"JWT"}. */
  const Header: string := "eyJhbGciOiJIUzI1NiIsInR5cCI6IkpXVCJ9"

  /** `expiresIn: "1h"`, in seconds. */
  const ExpiresIn: nat := 3600

  /** The claims of a token. `sub` is the private `_id` claim the server
      signs and the middleware reads back, not the registered `sub` claim of
      section 4.1.2 of RFC 7519, which the server never sets. */
  datatype Claims = Claims(sub: ObjectId, iat: nat, exp: nat)

  datatype Verification = Verified(sub: ObjectId) | InvalidToken | ExpiredToken

  function EncodeClaims(c: Claims): string {
    Join([c.sub, Dec(c.iat), Dec(c.exp)], '-')
  }

  function DecodeClaims(p: string): Option<Claims> {
    var f := Split(p, '-');
    if |f| == 3 && IsObjectId(f[0]) && ParseNat(f[1]).Some? && ParseNat(f[2]).Some? then
      Some(Claims(f[0], ParseNat(f[1]).value, ParseNat(f[2]).value))
    else None
  }

  /** Decoding an encoded payload gives back its claims. */
  lemma EncodeDecode(c: Claims)
    ensures DecodeClaims(EncodeClaims(c)) == Some(c)
  {
    var f := [c.sub, Dec(c.iat), Dec(c.exp)];
    forall i | 0 <= i < 3 ensures '-' !in f[i] {
      if i == 0 { NoHexSeparator(c.sub, '-'); }
    }
    SplitJoin(f, '-');
    ParseDec(c.iat);
    ParseDec(c.exp);
  }

  lemma NoHexSeparator(s: ObjectId, d: char)
    requires !IsLowerHex(d)
    ensures d !in s
  {
  }

  lemma NoDigitSeparator(s: string, d: char)
    requires AllDigits(s) && !IsDigit(d)
    ensures d !in s
  {
  }

  /** The signature segment: the digest of the secret and the signing input. */
  function Signature(secret: string, input: string): (s: string)
    ensures |s| >= 1 && AllDigits(s)
  {
    Dec(Digest.Fingerprint(secret + "." + input))
  }

  /** The three segments of the token `jwt.sign` issues for `sub` at `now`. */
  function Segments(sub: ObjectId, secret: string, now: nat): seq<string> {
    var payload := EncodeClaims(Claims(sub, now, now + ExpiresIn));
    [Header, payload, Signature(secret, Header + "." + payload)]
  }

  /** No segment holds the segment separator or a space. */
  lemma SegmentsClean(sub: ObjectId, secret: string, now: nat)
    ensures forall i :: 0 <= i < 3 ==> '.' !in Segments(sub, secret, now)[i]
    ensures forall i :: 0 <= i < 3 ==> ' ' !in Segments(sub, secret, now)[i]
  {
    var seg := Segments(sub, secret, now);
    HeaderClean();
    PayloadClean(Claims(sub, now, now + ExpiresIn));
    NoDigitSeparator(seg[2], '.');
    NoDigitSeparator(seg[2], ' ');
  }

  lemma HeaderClean()
    ensures '.' !in Header && ' ' !in Header
  {
  }

  /** The payload holds neither the segment separator nor a space. */
  lemma PayloadClean(c: Claims)
    ensures '.' !in EncodeClaims(c) && ' ' !in EncodeClaims(c)
  {
    var f := [c.sub, Dec(c.iat), Dec(c.exp)];
    NoHexSeparator(c.sub, '.');
    NoHexSeparator(c.sub, ' ');
    NoDigitSeparator(f[1], '.');
    NoDigitSeparator(f[1], ' ');
    NoDigitSeparator(f[2], '.');
    NoDigitSeparator(f[2], ' ');
    JoinExcludes(f, '-', '.');
    JoinExcludes(f, '-', ' ');
  }

  /** `jwt.sign({ _id: sub }, secret, { expiresIn: "1h" })` at time `now`:
      three dot-separated segments, and no space, so the token survives being
      sent as the second word of an `Authorization` header. */
  function Sign(sub: ObjectId, secret: string, now: nat): (token: string)
    ensures Split(token, '.') == Segments(sub, secret, now)
    ensures ' ' !in token
  {
    var seg := Segments(sub, secret, now);
    SegmentsClean(sub, secret, now);
    SplitJoin(seg, '.');
    JoinExcludes(seg, '.', ' ');
    Join(seg, '.')
  }

  /** `jwt.verify(token, secret)` at time `now`: a malformed token or one whose
      signature does not match is invalid; a well-signed token is expired
      from the second `exp` on, and otherwise yields its subject. */
  function Verify(token: string, secret: string, now: nat): (v: Verification)
    ensures v != InvalidToken ==>
      && |Split(token, '.')| == 3
      && var p := Split(token, '.')[1];
      && token == Join([Header, p, Signature(secret, Header + "." + p)], '.')
      && DecodeClaims(p).Some?
      && (v == ExpiredToken <==> now >= DecodeClaims(p).value.exp)
      && (v.Verified? ==> v.sub == DecodeClaims(p).value.sub)
  {
    var parts := Split(token, '.');
    JoinSplit(token, '.');
    if |parts| != 3 || parts[0] != Header then InvalidToken
    else
      assert token == Join([parts[0], parts[1], parts[2]], '.') by {
        assert parts == [parts[0], parts[1], parts[2]];
      }
      match DecodeClaims(parts[1])
      case None => InvalidToken
      case Some(c) =>
        if parts[2] != Signature(secret, parts[0] + "." + parts[1]) then InvalidToken
        else if now >= c.exp then ExpiredToken
        else Verified(c.sub)
  }

  /** Conversely, the header, any well-formed payload and the secret's
      signature over both make a token that is not invalid: it verifies,
      or is expired. */
  lemma WellSignedVerifies(p: string, secret: string, now: nat)
    requires DecodeClaims(p).Some?
    ensures var v := Verify(Join([Header, p, Signature(secret, Header + "." + p)], '.'), secret, now);
      && v != InvalidToken
      && (v == ExpiredToken <==> now >= DecodeClaims(p).value.exp)
  {
    var f := Split(p, '-');
    JoinSplit(p, '-');
    NoHexSeparator(f[0], '.');
    NoDigitSeparator(f[1], '.');
    NoDigitSeparator(f[2], '.');
    assert forall i :: 0 <= i < |f| ==> '.' !in f[i] by {
      assert f == [f[0], f[1], f[2]];
    }
    JoinExcludes(f, '-', '.');
    var seg := [Header, p, Signature(secret, Header + "." + p)];
    HeaderClean();
    NoDigitSeparator(seg[2], '.');
    SplitJoin(seg, '.');
  }

  /** A token issued at `iat` verifies under the same secret to its subject
      for the hour that follows, and is expired from `iat + 3600` on. */
  lemma SignThenVerify(sub: ObjectId, secret: string, iat: nat, now: nat)
    ensures Verify(Sign(sub, secret, iat), secret, now)
         == if now < iat + ExpiresIn then Verified(sub) else ExpiredToken
  {
    var seg := Segments(sub, secret, iat);
    EncodeDecode(Claims(sub, iat, iat + ExpiresIn));
    assert Split(Sign(sub, secret, iat), '.') == seg;
  }
}
