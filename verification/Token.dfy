/**
 Service tokens: unpadded base64url segments joined by dots (RFC 4648 section 5, RFC 7515
 section 7.1), and the `Bearer` header that carries them.
 */
module Token {
  import opened Prelude

  type Byte = x: int | 0 <= x < 256

  type Sextet = x: int | 0 <= x < 64

  function EncodeSextet(v: Sextet): (c: char)
    ensures c != '=' && c != '.' && c != ' '
    ensures DecodeChar(c) == Some(v)
  {
    if v < 26 then ('A' as int + v) as char
    else if v < 52 then ('a' as int + (v - 26)) as char
    else if v < 62 then ('0' as int + (v - 52)) as char
    else if v == 62 then '-' else '_'
  }

  /** Table 2 of RFC 4648, the URL and file name safe alphabet: its ends, and each run in order. */
  lemma SextetsFollowTheTable(v: Sextet)
    ensures EncodeSextet(0) == 'A' && EncodeSextet(25) == 'Z' && EncodeSextet(26) == 'a' && EncodeSextet(51) == 'z'
    ensures EncodeSextet(52) == '0' && EncodeSextet(61) == '9' && EncodeSextet(62) == '-' && EncodeSextet(63) == '_'
    ensures v !in {25, 51, 61, 62, 63} ==> EncodeSextet(v + 1) as int == EncodeSextet(v) as int + 1
  {
  }

  function DecodeChar(c: char): Option<Sextet> {
    if 'A' <= c <= 'Z' then Some(c as int - 'A' as int)
    else if 'a' <= c <= 'z' then Some(c as int - 'a' as int + 26)
    else if '0' <= c <= '9' then Some(c as int - '0' as int + 52)
    else if c == '-' then Some(62)
    else if c == '_' then Some(63)
    else None
  }

  /** `base64.urlsafe_b64encode`, padding included. */
  function EncodePadded(data: seq<Byte>): string
    decreases |data|
  {
    if |data| == 0 then ""
    else if |data| == 1 then [EncodeSextet(data[0] / 4), EncodeSextet(data[0] % 4 * 16), '=', '=']
    else if |data| == 2 then
      [EncodeSextet(data[0] / 4), EncodeSextet(data[0] % 4 * 16 + data[1] / 16), EncodeSextet(data[1] % 16 * 4), '=']
    else
      [EncodeSextet(data[0] / 4), EncodeSextet(data[0] % 4 * 16 + data[1] / 16),
       EncodeSextet(data[1] % 16 * 4 + data[2] / 64), EncodeSextet(data[2] % 64)] + EncodePadded(data[3..])
  }

  /** `.rstrip("=")`. */
  function StripPadding(s: string): string {
    if s != "" && s[|s| - 1] == '=' then StripPadding(s[..|s| - 1]) else s
  }

  function B64Url(data: seq<Byte>): string {
    StripPadding(EncodePadded(data))
  }

  /** Decoding of a padded string: quads of four characters, the last perhaps padded. */
  function DecodePadded(s: string): Option<seq<Byte>>
    decreases |s|
  {
    if |s| == 0 then Some([])
    else if |s| < 4 then None
    else
      var a, b := DecodeChar(s[0]), DecodeChar(s[1]);
      if a.None? || b.None? then None
      else if |s| == 4 && s[3] == '=' then
        if s[2] == '=' then Some([a.value * 4 + b.value / 16])
        else
          var c := DecodeChar(s[2]);
          if c.None? then None else Some([a.value * 4 + b.value / 16, b.value % 16 * 16 + c.value / 4])
      else
        var c, d, rest := DecodeChar(s[2]), DecodeChar(s[3]), DecodePadded(s[4..]);
        if c.None? || d.None? || rest.None? then None
        else Some([a.value * 4 + b.value / 16, b.value % 16 * 16 + c.value / 4, c.value % 4 * 64 + d.value]
          + rest.value)
  }

  function Equals(n: nat): string { if n == 0 then "" else "=" + Equals(n - 1) }

  /** Decoding of an unpadded segment: pad to a multiple of four, then decode. */
  function Decode(s: string): Option<seq<Byte>> {
    DecodePadded(if |s| % 4 == 0 then s else s + Equals(4 - |s| % 4))
  }

  /** The bit regrouping of three bytes into four sextets and back. */
  lemma Regroup(a: Byte, b: Byte, c: Byte)
    ensures a / 4 * 4 + (a % 4 * 16 + b / 16) / 16 == a
    ensures (a % 4 * 16 + b / 16) % 16 * 16 + (b % 16 * 4 + c / 64) / 4 == b
    ensures (b % 16 * 4 + c / 64) % 4 * 64 + c % 64 == c
    ensures a / 4 < 64 && a % 4 * 16 + b / 16 < 64 && b % 16 * 4 + c / 64 < 64
  {
  }

  /** One quad of a padded string, by the sextets its characters stand for. */
  lemma DecodeQuad(s: string, a: Sextet, b: Sextet, c: Sextet, d: Sextet)
    requires |s| >= 4 && s[3] != '='
    requires DecodeChar(s[0]) == Some(a) && DecodeChar(s[1]) == Some(b) && DecodeChar(s[2]) == Some(c)
      && DecodeChar(s[3]) == Some(d)
    ensures DecodePadded(s) ==
      var r := DecodePadded(s[4..]);
      if r.None? then None else Some([a * 4 + b / 16, b % 16 * 16 + c / 4, c % 4 * 64 + d] + r.value)
  {
  }

  /** A last quad with one or two padding characters. */
  lemma DecodeThree(s: string, a: Sextet, b: Sextet, c: Sextet)
    requires |s| == 4 && s[3] == '=' && s[2] != '='
    requires DecodeChar(s[0]) == Some(a) && DecodeChar(s[1]) == Some(b) && DecodeChar(s[2]) == Some(c)
    ensures DecodePadded(s) == Some([a * 4 + b / 16, b % 16 * 16 + c / 4])
  {
  }

  lemma DecodeTwo(s: string, a: Sextet, b: Sextet)
    requires |s| == 4 && s[3] == '=' && s[2] == '='
    requires DecodeChar(s[0]) == Some(a) && DecodeChar(s[1]) == Some(b)
    ensures DecodePadded(s) == Some([a * 4 + b / 16])
  {
  }

  lemma OneByteRoundTrip(a: Byte)
    ensures DecodePadded(EncodePadded([a])) == Some([a])
  {
    Regroup(a, 0, 0);
    DecodeTwo(EncodePadded([a]), a / 4, a % 4 * 16);
  }

  lemma TwoBytesRoundTrip(a: Byte, b: Byte)
    ensures DecodePadded(EncodePadded([a, b])) == Some([a, b])
  {
    Regroup(a, b, 0);
    DecodeThree(EncodePadded([a, b]), a / 4, a % 4 * 16 + b / 16, b % 16 * 4);
  }

  lemma QuadRoundTrip(a: Byte, b: Byte, c: Byte, rest: seq<Byte>)
    requires DecodePadded(EncodePadded(rest)) == Some(rest)
    ensures DecodePadded(EncodePadded([a, b, c] + rest)) == Some([a, b, c] + rest)
  {
    var s := EncodePadded([a, b, c] + rest);
    Regroup(a, b, c);
    assert ([a, b, c] + rest)[3..] == rest && s[4..] == EncodePadded(rest);
    DecodeQuad(s, a / 4, a % 4 * 16 + b / 16, b % 16 * 4 + c / 64, c % 64);
  }

  lemma {:induction false} PaddedRoundTrip(data: seq<Byte>)
    ensures DecodePadded(EncodePadded(data)) == Some(data)
    decreases |data|
  {
    if |data| >= 3 {
      assert data == [data[0], data[1], data[2]] + data[3..];
      PaddedRoundTrip(data[3..]);
      QuadRoundTrip(data[0], data[1], data[2], data[3..]);
    } else if |data| == 2 {
      assert data == [data[0], data[1]];
      TwoBytesRoundTrip(data[0], data[1]);
    } else if |data| == 1 {
      assert data == [data[0]];
      OneByteRoundTrip(data[0]);
    }
  }

  predicate Plain(body: string) { forall i :: 0 <= i < |body| ==> body[i] != '=' && body[i] != '.' && body[i] != ' ' }

  lemma ShortPaddingShape(data: seq<Byte>) returns (body: string, k: nat)
    requires 1 <= |data| <= 2
    ensures EncodePadded(data) == body + Equals(k) && 1 <= k <= 2 && |body| == 4 - k && Plain(body)
  {
    assert Equals(1) == "=" + Equals(0) == "=";
    assert Equals(2) == "=" + Equals(1) == "==";
    k := 3 - |data|;
    body := EncodePadded(data)[..4 - k];
    assert EncodePadded(data) == body + Equals(k);
  }

  /** The padded form is the unpadded one and one or two '=' where the length asks for them;
      the unpadded one has neither padding, nor dots, nor spaces. */
  lemma {:induction false} PaddingShape(data: seq<Byte>) returns (body: string, k: nat)
    ensures EncodePadded(data) == body + Equals(k) && k <= 2
    ensures |body| % 4 == (if k == 0 then 0 else 4 - k)
    ensures Plain(body)
    decreases |data|
  {
    if |data| == 0 {
      body, k := "", 0;
    } else if |data| <= 2 {
      body, k := ShortPaddingShape(data);
    } else {
      var quad, rest := EncodePadded(data)[..4], "";
      rest, k := PaddingShape(data[3..]);
      body := quad + rest;
      QuadIsPlain(data);
      assert quad + (rest + Equals(k)) == body + Equals(k);
    }
  }

  lemma QuadIsPlain(data: seq<Byte>)
    requires |data| >= 3
    ensures |EncodePadded(data)| >= 4 && Plain(EncodePadded(data)[..4])
    ensures EncodePadded(data) == EncodePadded(data)[..4] + EncodePadded(data[3..])
  {
  }

  lemma {:induction false} StripRemovesPadding(body: string, k: nat)
    requires body == "" || body[|body| - 1] != '='
    ensures StripPadding(body + Equals(k)) == body
    decreases k
  {
    if k == 0 {
      assert body + "" == body;
    } else {
      EqualsEnd(k);
      assert (body + Equals(k))[..|body + Equals(k)| - 1] == body + Equals(k - 1);
      StripRemovesPadding(body, k - 1);
    }
  }

  lemma {:induction false} EqualsEnd(k: nat)
    requires k > 0
    ensures Equals(k) == Equals(k - 1) + "=" && |Equals(k)| == k
    decreases k
  {
    if k > 1 {
      EqualsEnd(k - 1);
    }
  }

  /** Unpadded segments decode back, and contain no dot and no space. */
  lemma SegmentRoundTrip(data: seq<Byte>)
    ensures Decode(B64Url(data)) == Some(data)
    ensures '.' !in B64Url(data) && ' ' !in B64Url(data)
  {
    var body, k := PaddingShape(data);
    StripRemovesPadding(body, k);
    PaddedRoundTrip(data);
    if k == 0 {
      assert body + "" == body;
    }
  }

  /** `s.split(".")`. */
  function SplitDots(s: string): seq<string> {
    SplitFrom(s, 0)
  }

  function SplitFrom(s: string, n: nat): seq<string>
    requires n <= |s|
    decreases |s|, |s| - n
  {
    if n == |s| then [s]
    else if s[n] == '.' then [s[..n]] + SplitFrom(s[n + 1..], 0)
    else SplitFrom(s, n + 1)
  }

  lemma {:induction false} SplitHead(a: string, rest: string, n: nat)
    requires '.' !in a && n <= |a|
    ensures SplitFrom(a + "." + rest, n) == [a] + SplitDots(rest)
    decreases |a| - n
  {
    var s := a + "." + rest;
    if n == |a| {
      assert s[n] == '.' && s[..n] == a && s[n + 1..] == rest;
    } else {
      assert s[n] == a[n];
      SplitHead(a, rest, n + 1);
    }
  }

  lemma {:induction false} SplitLast(a: string, n: nat)
    requires '.' !in a && n <= |a|
    ensures SplitFrom(a, n) == [a]
    decreases |a| - n
  {
    if n < |a| {
      SplitLast(a, n + 1);
    }
  }

  /** The signing input, and the whole token; `mac` is whatever keyed hash signs it. */
  function SigningInput(header: seq<Byte>, payload: seq<Byte>): string {
    B64Url(header) + "." + B64Url(payload)
  }

  function Join(header: seq<Byte>, payload: seq<Byte>, signature: seq<Byte>): string {
    SigningInput(header, payload) + "." + B64Url(signature)
  }

  function Mint(header: seq<Byte>, payload: seq<Byte>, mac: string -> seq<Byte>): string {
    Join(header, payload, mac(SigningInput(header, payload)))
  }

  lemma SplitThree(h: string, p: string, s: string)
    requires '.' !in h && '.' !in p && '.' !in s
    ensures SplitDots(h + "." + p + "." + s) == [h, p, s]
  {
    assert h + "." + p + "." + s == h + "." + (p + "." + s);
    SplitHead(h, p + "." + s, 0);
    SplitHead(p, s, 0);
    SplitLast(s, 0);
  }

  /** TOKEN ROUND TRIP, for arbitrary bytes: exactly three segments, each decoding back. */
  lemma TokenRoundTrip(header: seq<Byte>, payload: seq<Byte>, signature: seq<Byte>)
    ensures var parts := SplitDots(Join(header, payload, signature));
      && |parts| == 3
      && Decode(parts[0]) == Some(header) && Decode(parts[1]) == Some(payload) && Decode(parts[2]) == Some(signature)
      && parts[0] + "." + parts[1] == SigningInput(header, payload)
    ensures ' ' !in Join(header, payload, signature)
  {
    var h, p, s := B64Url(header), B64Url(payload), B64Url(signature);
    SegmentRoundTrip(header);
    SegmentRoundTrip(payload);
    SegmentRoundTrip(signature);
    SplitThree(h, p, s);
  }

  /** Equal tokens come from equal triples. */
  lemma TokenInjective(h1: seq<Byte>, p1: seq<Byte>, s1: seq<Byte>, h2: seq<Byte>, p2: seq<Byte>, s2: seq<Byte>)
    requires Join(h1, p1, s1) == Join(h2, p2, s2)
    ensures h1 == h2 && p1 == p2 && s1 == s2
  {
    TokenRoundTrip(h1, p1, s1);
    TokenRoundTrip(h2, p2, s2);
  }

  /** A verifier that splits at dots and recomputes the hash over the first two segments. */
  predicate Verifies(token: string, mac: string -> seq<Byte>) {
    var parts := SplitDots(token);
    |parts| == 3 && Decode(parts[2]) == Some(mac(parts[0] + "." + parts[1]))
  }

  /** What is minted verifies, whatever the hash. */
  lemma MintedVerifies(header: seq<Byte>, payload: seq<Byte>, mac: string -> seq<Byte>)
    ensures Verifies(Mint(header, payload, mac), mac)
  {
    TokenRoundTrip(header, payload, mac(SigningInput(header, payload)));
  }

  /** The claims of a service token, in seconds. */
  datatype Claims = Claims(issuer: string, audience: string, issuedAt: int, expires: int)

  /** How claims become bytes and are read back. */
  datatype Coding = Coding(encode: Claims -> seq<Byte>, decode: seq<Byte> -> Option<Claims>) {
    ghost predicate Valid() {
      forall c :: decode(encode(c)) == Some(c)
    }
  }

  function MintService(
    header: seq<Byte>, issuer: string, audience: string, now: int, ttl: int, mac: string -> seq<Byte>,
      k: Coding): string
  {
    Mint(header, k.encode(Claims(issuer, audience, now, now + ttl)), mac)
  }

  /** `verify_service_token` accepts: the signature holds, the audience is the verifier, and the token is
      neither from the future nor expired. */
  predicate Accepts(token: string, audience: string, now: real, mac: string -> seq<Byte>, k: Coding) {
    && Verifies(token, mac)
    && var payload := Decode(SplitDots(token)[1]);
       && payload.Some? && k.decode(payload.value).Some?
       && var claims := k.decode(payload.value).value;
          claims.audience == audience && claims.issuedAt as real <= now < claims.expires as real
  }

  /** ACCEPTED, exactly: a minted token is accepted by the audience it was minted for and by no
      other, from the instant it was minted until its lifetime is over by the verifier's clock. */
  lemma AcceptedExactly(
    header: seq<Byte>, issuer: string, audience: string, minted: int, ttl: int, mac: string -> seq<Byte>, k: Coding,
    verifier: string, now: real)
    requires k.Valid()
    ensures Accepts(MintService(header, issuer, audience, minted, ttl, mac, k), verifier, now, mac, k)
      <==> verifier == audience && minted as real <= now < (minted + ttl) as real
  {
    var claims := Claims(issuer, audience, minted, minted + ttl);
    MintedVerifies(header, k.encode(claims), mac);
    TokenRoundTrip(header, k.encode(claims), mac(SigningInput(header, k.encode(claims))));
    assert k.decode(k.encode(claims)) == Some(claims);
  }

  /** The vectors of section 10 of RFC 4648 for one, two and three bytes, without padding. */
  lemma KnownVectors()
    ensures B64Url([102]) == "Zg" && B64Url([102, 111]) == "Zm8" && B64Url([102, 111, 111]) == "Zm9v"
  {
    var one, two, three: seq<Byte> := [102], [102, 111], [102, 111, 111];
    assert EncodePadded(one) == "Zg" + Equals(2) by {
      assert Equals(2) == "=" + Equals(1) == "==";
    }
    assert EncodePadded(two) == "Zm8" + Equals(1) by {
      assert Equals(1) == "=" + Equals(0) == "=";
    }
    assert three[3..] == [];
    assert EncodePadded(three) == "Zm9v" + Equals(0);
    StripRemovesPadding("Zg", 2);
    StripRemovesPadding("Zm8", 1);
    StripRemovesPadding("Zm9v", 0);
  }

  // ---- The Bearer header ----

  function FirstSpace(s: string): (n: nat)
    ensures n <= |s| && (n < |s| ==> s[n] == ' ') && ' ' !in s[..n]
  {
    if s == "" || s[0] == ' ' then 0 else
      assert s[..1 + FirstSpace(s[1..])] == [s[0]] + s[1..][..FirstSpace(s[1..])];
      1 + FirstSpace(s[1..])
  }

  /** `header.partition(" ")` and the two checks on it; None is the 401. */
  function ParseAuthorization(header: string): Option<string> {
    var n := FirstSpace(header);
    var scheme, token := header[..n], if n < |header| then header[n + 1..] else "";
    if Lower(scheme) != "bearer" || token == "" then None else Some(token)
  }

  function BearerHeader(token: string): string { "Bearer " + token }

  lemma {:induction false} FirstSpaceAt(a: string, rest: string)
    requires ' ' !in a
    ensures FirstSpace(a + " " + rest) == |a|
    decreases |a|
  {
    var s := a + " " + rest;
    if a != "" {
      assert s[1..] == a[1..] + " " + rest;
      FirstSpaceAt(a[1..], rest);
    }
  }

  /** The header is a spelling of "bearer" in any case, one space, and the token. */
  predicate Carries(header: string, n: nat, token: string) {
    n < |header| && ' ' !in header[..n] && Lower(header[..n]) == "bearer" && header == header[..n] + " " + token
  }

  /** HEADER EXACTNESS: a header yields a token exactly when it carries it and it is not empty. */
  lemma AuthorizationExact(header: string, token: string)
    ensures ParseAuthorization(header) == Some(token) <==> token != "" && exists n: nat :: Carries(header, n, token)
  {
    var n := FirstSpace(header);
    if ParseAuthorization(header) == Some(token) {
      assert header == header[..n] + " " + header[n + 1..];
      assert Carries(header, n, token);
    }
    if m: nat :| Carries(header, m, token) {
      FirstSpaceAt(header[..m], token);
      assert header[m + 1..] == token;
    }
  }

  /** A header built from a minted token is parsed back to that token. */
  lemma BearerRoundTrip(header: seq<Byte>, payload: seq<Byte>, mac: string -> seq<Byte>)
    ensures ParseAuthorization(BearerHeader(Mint(header, payload, mac))) == Some(Mint(header, payload, mac))
  {
    var token := Mint(header, payload, mac);
    var h := BearerHeader(token);
    assert h[..6] == "Bearer" && h == "Bearer" + " " + token;
    FirstSpaceAt("Bearer", token);
    assert Lower("Bearer") == "bearer" by {
      LowerBearer();
    }
  }

  lemma LowerBearer()
    ensures Lower("Bearer") == "bearer"
  {
    assert "Bearer"[1..] == "earer" && "earer"[1..] == "arer" && "arer"[1..] == "rer" && "rer"[1..] == "er"
      && "er"[1..] == "r" && "r"[1..] == "";
    assert Lower("r") == "r";
    assert Lower("er") == "er";
    assert Lower("rer") == "rer";
    assert Lower("arer") == "arer";
    assert Lower("earer") == "earer";
  }
}
