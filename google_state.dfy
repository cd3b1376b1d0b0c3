/**
 * The helpers of the Google sign-in routes: unpadded base64url (section 5 of
 * RFC 4648), the signed `state` parameter that carries the nonce, the issue
 * time and the page to return to, and the check that the page to return to
 * belongs to the frontend. HMAC-SHA256 over the session secret, JSON, the
 * clock, the random nonce and URL parsing are parameters.
 */
module GoogleState {
  import opened Wrappers
  import Text

  type Byte = b: int | 0 <= b < 256

  // ---- base64url ----

  /** The character for a 6-bit value in the URL- and filename-safe alphabet. */
  function Char(v: int): (c: char)
    requires 0 <= v < 64
  {
    if v < 26 then ('A' as int + v) as char
    else if v < 52 then ('a' as int + (v - 26)) as char
    else if v < 62 then ('0' as int + (v - 52)) as char
    else if v == 62 then '-'
    else '_'
  }

  /** The 6-bit value of a character of the alphabet; `None` for any other character. */
  function Value(c: char): (r: Option<int>)
    ensures r.Some? ==> 0 <= r.value < 64 && Char(r.value) == c
  {
    if 'A' <= c <= 'Z' then Some(c as int - 'A' as int)
    else if 'a' <= c <= 'z' then Some(c as int - 'a' as int + 26)
    else if '0' <= c <= '9' then Some(c as int - '0' as int + 52)
    else if c == '-' then Some(62)
    else if c == '_' then Some(63)
    else None
  }

  lemma ValueOfChar(v: int)
    requires 0 <= v < 64
    ensures Value(Char(v)) == Some(v)
  {
  }

  predicate InAlphabet(s: string)
  {
    forall i :: 0 <= i < |s| ==> Value(s[i]).Some?
  }

  /** The encoded characters of `data`, without padding: four per three bytes, then two or three. */
  function EncodeData(data: seq<Byte>): (r: string)
    ensures InAlphabet(r)
    decreases |data|
  {
    if |data| == 0 then ""
    else if |data| == 1 then
      [Char(data[0] / 4), Char(data[0] % 4 * 16)]
    else if |data| == 2 then
      [Char(data[0] / 4), Char(data[0] % 4 * 16 + data[1] / 16), Char(data[1] % 16 * 4)]
    else
      var r := EncodeTriple(data[0], data[1], data[2]) + EncodeData(data[3..]);
      assert forall i :: 4 <= i < |r| ==> r[i] == EncodeData(data[3..])[i - 4];
      r
  }

  /** Four characters for three bytes. */
  function EncodeTriple(x: Byte, y: Byte, z: Byte): (r: string)
    ensures |r| == 4 && InAlphabet(r)
  {
    [Char(x / 4), Char(x % 4 * 16 + y / 16), Char(y % 16 * 4 + z / 64), Char(z % 64)]
  }

  /** `base64.urlsafe_b64encode`: the encoded characters padded with "=" to a multiple of four. */
  function UrlsafeB64Encode(data: seq<Byte>): string
  {
    EncodeData(data) + (if |data| % 3 == 1 then "==" else if |data| % 3 == 2 then "=" else "")
  }

  /** `s.rstrip("=")`. */
  function StripPadding(s: string): (r: string)
    ensures |r| <= |s| && r == s[..|r|] && (r == [] || r[|r| - 1] != '=')
    ensures forall i :: |r| <= i < |s| ==> s[i] == '='
  {
    if s != [] && s[|s| - 1] == '=' then StripPadding(s[..|s| - 1]) else s
  }

  /** `_b64u_encode`. */
  function B64uEncode(data: seq<Byte>): string
  {
    StripPadding(UrlsafeB64Encode(data))
  }

  lemma {:induction false} StripPaddingAppended(s: string, pad: string)
    requires s == [] || s[|s| - 1] != '='
    requires forall i :: 0 <= i < |pad| ==> pad[i] == '='
    ensures StripPadding(s + pad) == s
  {
    if pad != [] {
      assert (s + pad)[..|s + pad| - 1] == s + pad[..|pad| - 1];
      StripPaddingAppended(s, pad[..|pad| - 1]);
    } else {
      assert s + pad == s;
    }
  }

  /** `_b64u_encode` is the padded encoding without its padding: alphabet characters only, none of them "=". */
  lemma B64uEncodeIsUnpadded(data: seq<Byte>)
    ensures B64uEncode(data) == EncodeData(data)
    ensures InAlphabet(B64uEncode(data)) && '=' !in B64uEncode(data)
    ensures UrlsafeB64Encode(data) == B64uEncode(data) + (if |data| % 3 == 1 then "==" else if |data| % 3 == 2 then "=" else "")
  {
    var pad := if |data| % 3 == 1 then "==" else if |data| % 3 == 2 then "=" else "";
    AlphabetUnpadded(EncodeData(data), pad);
  }

  /** Alphabet characters have no "=", so stripping "=" padding off them leaves them whole. */
  lemma AlphabetUnpadded(e: string, pad: string)
    requires InAlphabet(e)
    requires forall i :: 0 <= i < |pad| ==> pad[i] == '='
    ensures StripPadding(e + pad) == e && '=' !in e
  {
    if e != [] {
      assert Value(e[|e| - 1]).Some?;
    }
    StripPaddingAppended(e, pad);
    forall i | 0 <= i < |e| ensures e[i] != '=' {
      assert Value(e[i]).Some?;
    }
  }

  /** `"=" * (-len(s) % 4)`. */
  function Padding(s: string): (r: string)
    ensures |r| <= 3 && (|s| + |r|) % 4 == 0
    ensures forall i :: 0 <= i < |r| ==> r[i] == '='
  {
    var n := (-|s|) % 4;
    seq(n, i requires 0 <= i < n => '=')
  }

  /** Three bytes from four 6-bit values. */
  function DecodeQuad(a: int, b: int, c: int, d: int): seq<Byte>
    requires 0 <= a < 64 && 0 <= b < 64 && 0 <= c < 64 && 0 <= d < 64
  {
    [a * 4 + b / 16, b % 16 * 16 + c / 4, c % 4 * 64 + d]
  }

  /** The bytes of encoded characters without padding; a group of one character cannot be decoded. */
  function DecodeData(s: string): Option<seq<Byte>>
    decreases |s|
  {
    if |s| == 0 then Some([])
    else if |s| == 1 then None
    else if Value(s[0]).None? || Value(s[1]).None? then None
    else
      var a, b := Value(s[0]).value, Value(s[1]).value;
      if |s| == 2 then Some([a * 4 + b / 16])
      else if Value(s[2]).None? then None
      else
        var c := Value(s[2]).value;
        if |s| == 3 then Some([a * 4 + b / 16, b % 16 * 16 + c / 4])
        else if Value(s[3]).None? then None
        else
          match DecodeData(s[4..])
          case None => None
          case Some(rest) => Some(DecodeQuad(a, b, c, Value(s[3]).value) + rest)
  }

  /**
   * `base64.urlsafe_b64decode` of padded text: the characters before the
   * trailing "=" decoded, or the error it raises.
   */
  function UrlsafeB64Decode(t: string): Option<seq<Byte>>
  {
    DecodeData(StripPadding(t))
  }

  /** `_b64u_decode`: pad to a multiple of four, then decode. */
  function B64uDecode(s: string): Option<seq<Byte>>
  {
    UrlsafeB64Decode(s + Padding(s))
  }

  lemma DecodeEncodedQuad(x: Byte, y: Byte, z: Byte)
    ensures DecodeQuad(x / 4, x % 4 * 16 + y / 16, y % 16 * 4 + z / 64, z % 64) == [x, y, z]
  {
  }

  lemma DecodeTriple(x: Byte, y: Byte, z: Byte, rest: string)
    ensures DecodeData(EncodeTriple(x, y, z) + rest) ==
              match DecodeData(rest)
              case None => None
              case Some(r) => Some([x, y, z] + r)
  {
    var a, b, c, d := x / 4, x % 4 * 16 + y / 16, y % 16 * 4 + z / 64, z % 64;
    ValueOfChar(a);
    ValueOfChar(b);
    ValueOfChar(c);
    ValueOfChar(d);
    var s := EncodeTriple(x, y, z) + rest;
    assert s[0] == Char(a) && s[1] == Char(b) && s[2] == Char(c) && s[3] == Char(d);
    assert s[4..] == rest;
    DecodeEncodedQuad(x, y, z);
  }

  lemma DecodeEncodeSingle(x: Byte)
    ensures DecodeData(EncodeData([x])) == Some([x])
  {
    ValueOfChar(x / 4);
    ValueOfChar(x % 4 * 16);
    assert (x % 4 * 16) / 16 == x % 4;
    assert x / 4 * 4 + x % 4 == x;
  }

  lemma DecodeEncodePair(x: Byte, y: Byte)
    ensures DecodeData(EncodeData([x, y])) == Some([x, y])
  {
    ValueOfChar(x / 4);
    ValueOfChar(x % 4 * 16 + y / 16);
    ValueOfChar(y % 16 * 4);
    var b := x % 4 * 16 + y / 16;
    assert b / 16 == x % 4 && b % 16 == y / 16;
    assert (y % 16 * 4) / 4 == y % 16;
    assert x / 4 * 4 + b / 16 == x;
    assert b % 16 * 16 + (y % 16 * 4) / 4 == y;
  }

  /** Decoding undoes encoding. */
  lemma {:induction false} DecodeEncodeData(data: seq<Byte>)
    ensures DecodeData(EncodeData(data)) == Some(data)
    decreases |data|
  {
    if |data| == 1 {
      DecodeEncodeSingle(data[0]);
      assert data == [data[0]];
    } else if |data| == 2 {
      DecodeEncodePair(data[0], data[1]);
      assert data == [data[0], data[1]];
    } else if |data| >= 3 {
      var rest := EncodeData(data[3..]);
      DecodeEncodeData(data[3..]);
      EncodeDataCons(data);
      DecodeTriple(data[0], data[1], data[2], rest);
      assert data == [data[0], data[1], data[2]] + data[3..];
    }
  }

  lemma EncodeDataCons(data: seq<Byte>)
    requires |data| >= 3
    ensures EncodeData(data) == EncodeTriple(data[0], data[1], data[2]) + EncodeData(data[3..])
  {
  }

  /** `_b64u_decode(_b64u_encode(data)) == data`: the padding taken off is put back. */
  lemma B64uRoundTrip(data: seq<Byte>)
    ensures B64uDecode(B64uEncode(data)) == Some(data)
  {
    B64uEncodeIsUnpadded(data);
    var e := EncodeData(data);
    var pad := Padding(e);
    if e != [] {
      assert Value(e[|e| - 1]).Some?;
    }
    StripPaddingAppended(e, pad);
    DecodeEncodeData(data);
  }

  // ---- the state parameter ----

  /** What the state carries: `{"nonce": ..., "iat": ..., "next": ...}`. */
  datatype Payload = Payload(nonce: string, iat: int, next: string)

  /** `int(payload.get("iat", 0))`: missing, an integer, or a value `int` refuses. */
  datatype Iat = IatMissing | IatInt(n: int) | IatUnusable

  /** A decoded state object, as far as the check reads it. */
  datatype Claims = Claims(iat: Iat, nonce: Option<string>, next: Option<string>)

  /** `json.dumps(payload).encode()`. */
  type Dumps = Payload -> seq<Byte>
  /** `json.loads`; `None` when the bytes are not a JSON object. */
  type Loads = seq<Byte> -> Option<Claims>
  /** HMAC-SHA256 of the body, keyed with the session secret. */
  type Mac = string -> seq<Byte>

  /** The oldest a state may be, in seconds: the default of `_verify_state`, which the callback uses. */
  const MaxStateAge := 600

  /** `_make_state`: the encoded payload, a point, the encoded signature of the encoded payload. */
  function MakeState(nextUrl: string, nonce: string, now: int, dumps: Dumps, mac: Mac): string
  {
    var body := B64uEncode(dumps(Payload(nonce, now, nextUrl)));
    body + "." + B64uEncode(mac(body))
  }

  /** The issue time the check compares, or `None` when `int` fails. */
  function IssuedAt(c: Claims): Option<int>
  {
    match c.iat
    case IatMissing => Some(0)
    case IatInt(n) => Some(n)
    case IatUnusable => None
  }

  /**
   * `_verify_state`: split at the first point, compare the signature, decode
   * and parse the body, and refuse a state older than `maxAge`; every failure
   * is `None`.
   */
  function VerifyState(state: string, now: int, maxAge: int, mac: Mac, loads: Loads): Option<Claims>
  {
    match Text.IndexOfChar(state, '.')
    case None => None
    case Some(k) =>
      var body, sig := state[..k], state[k + 1..];
      if sig != B64uEncode(mac(body)) then None
      else
        match B64uDecode(body)
        case None => None
        case Some(bytes) =>
          match loads(bytes)
          case None => None
          case Some(claims) =>
            match IssuedAt(claims)
            case None => None
            case Some(iat) => if now - iat > maxAge then None else Some(claims)
  }

  /** The body of a state made here runs up to its first point. */
  lemma MadeStateSplits(nextUrl: string, nonce: string, now: int, dumps: Dumps, mac: Mac)
    ensures var body := B64uEncode(dumps(Payload(nonce, now, nextUrl)));
            var state := MakeState(nextUrl, nonce, now, dumps, mac);
            Text.IndexOfChar(state, '.') == Some(|body|) && state[..|body|] == body
            && state[|body| + 1..] == B64uEncode(mac(body))
  {
    var body := B64uEncode(dumps(Payload(nonce, now, nextUrl)));
    var state := MakeState(nextUrl, nonce, now, dumps, mac);
    B64uEncodeIsUnpadded(dumps(Payload(nonce, now, nextUrl)));
    assert state[..|body|] == body;
    assert state[|body|] == '.';
    forall k | 0 <= k < |body| ensures state[k] != '.' {
      assert state[k] == body[k];
      assert Value(body[k]).Some?;
    }
    Text.IndexOfCharAt(state, '.', |body|);
  }

  /**
   * A state made here passes the check while it is at most `maxAge` seconds
   * old, provided JSON gives back the issue time it wrote, and gives
   * whatever the payload parsed to.
   */
  lemma StateRoundTrip(nextUrl: string, nonce: string, issued: int, now: int, maxAge: int,
                       dumps: Dumps, mac: Mac, loads: Loads, claims: Claims)
    requires loads(dumps(Payload(nonce, issued, nextUrl))) == Some(claims) && claims.iat == IatInt(issued)
    ensures now - issued <= maxAge ==> VerifyState(MakeState(nextUrl, nonce, issued, dumps, mac), now, maxAge, mac, loads) == Some(claims)
    ensures now - issued > maxAge ==> VerifyState(MakeState(nextUrl, nonce, issued, dumps, mac), now, maxAge, mac, loads) == None
  {
    var bytes := dumps(Payload(nonce, issued, nextUrl));
    var body := B64uEncode(bytes);
    var state := MakeState(nextUrl, nonce, issued, dumps, mac);
    MadeStateSplits(nextUrl, nonce, issued, dumps, mac);
    B64uRoundTrip(bytes);
    assert B64uDecode(body) == Some(bytes);
    VerifyStateAt(state, |body|, now, maxAge, mac, loads, bytes, claims);
  }

  /** The check of a state whose first point, signature and body are known. */
  lemma VerifyStateAt(state: string, k: nat, now: int, maxAge: int, mac: Mac, loads: Loads, bytes: seq<Byte>, claims: Claims)
    requires Text.IndexOfChar(state, '.') == Some(k)
    requires state[k + 1..] == B64uEncode(mac(state[..k])) && B64uDecode(state[..k]) == Some(bytes)
    requires loads(bytes) == Some(claims) && IssuedAt(claims).Some?
    ensures VerifyState(state, now, maxAge, mac, loads) ==
              if now - IssuedAt(claims).value > maxAge then None else Some(claims)
  {
  }

  /**
   * The callback checks with the default age: a state made here is accepted
   * exactly while it is at most ten minutes old.
   */
  lemma CallbackStateWindow(nextUrl: string, nonce: string, issued: int, now: int,
                            dumps: Dumps, mac: Mac, loads: Loads, claims: Claims)
    requires loads(dumps(Payload(nonce, issued, nextUrl))) == Some(claims) && claims.iat == IatInt(issued)
    ensures (VerifyState(MakeState(nextUrl, nonce, issued, dumps, mac), now, MaxStateAge, mac, loads).Some?
             <==> now - issued <= MaxStateAge)
  {
    StateRoundTrip(nextUrl, nonce, issued, now, MaxStateAge, dumps, mac, loads, claims);
  }

  /**
   * What passes the check has a point, a signature equal to the encoded MAC
   * of everything before its first point, a body that decodes and parses,
   * and an issue time at most `maxAge` seconds ago.
   */
  lemma VerifyStateSound(state: string, now: int, maxAge: int, mac: Mac, loads: Loads)
    ensures VerifyState(state, now, maxAge, mac, loads).Some? ==>
              exists k :: (0 <= k < |state| && state[k] == '.' && '.' !in state[..k]
                && state[k + 1..] == B64uEncode(mac(state[..k]))
                && B64uDecode(state[..k]).Some?
                && loads(B64uDecode(state[..k]).value) == VerifyState(state, now, maxAge, mac, loads)
                && IssuedAt(VerifyState(state, now, maxAge, mac, loads).value).Some?
                && now - IssuedAt(VerifyState(state, now, maxAge, mac, loads).value).value <= maxAge)
    ensures '.' !in state ==> VerifyState(state, now, maxAge, mac, loads).None?
  {
    if VerifyState(state, now, maxAge, mac, loads).Some? {
      var k := Text.IndexOfChar(state, '.').value;
      assert state[k] == '.';
    }
  }

  // ---- the page to return to ----

  /** `urlparse` as far as the check reads it. */
  datatype Url = Url(scheme: string, netloc: string, path: string)

  /** `urlparse`; `None` when it raises. */
  type UrlParse = string -> Option<Url>
  /** `urljoin`. */
  type UrlJoin = (string, string) -> string

  /** `_safe_frontend_redirect`. */
  function SafeFrontendRedirect(nextUrl: Option<string>, appUrl: string, parse: UrlParse, join: UrlJoin): string
  {
    var fallback := join(appUrl, "/dashboard");
    if nextUrl.None? || nextUrl.value == "" then fallback
    else
      var next := nextUrl.value;
      match parse(next)
      case None => fallback
      case Some(parsed) =>
        if parsed.netloc == "" && Text.StartsWith(next, "/") then join(appUrl, next)
        else
          match parse(appUrl)
          case None => fallback
          case Some(app) =>
            if parsed.scheme == app.scheme && parsed.netloc == app.netloc then next else fallback
  }

  /**
   * The redirect is the dashboard of the frontend, a path of the frontend,
   * or an address with the frontend's own scheme and host; nothing else
   * gets through. A path and a same-origin address are always kept.
   */
  lemma SafeFrontendRedirectCases(nextUrl: Option<string>, appUrl: string, parse: UrlParse, join: UrlJoin)
    ensures var r := SafeFrontendRedirect(nextUrl, appUrl, parse, join);
            || r == join(appUrl, "/dashboard")
            || (nextUrl.Some? && parse(nextUrl.value).Some? && parse(nextUrl.value).value.netloc == ""
                && Text.StartsWith(nextUrl.value, "/") && r == join(appUrl, nextUrl.value))
            || (nextUrl.Some? && parse(nextUrl.value).Some? && parse(appUrl).Some?
                && parse(nextUrl.value).value.scheme == parse(appUrl).value.scheme
                && parse(nextUrl.value).value.netloc == parse(appUrl).value.netloc && r == nextUrl.value)
    ensures nextUrl.None? || nextUrl == Some("") ==> SafeFrontendRedirect(nextUrl, appUrl, parse, join) == join(appUrl, "/dashboard")
    ensures nextUrl.Some? && parse(nextUrl.value).Some? && parse(nextUrl.value).value.netloc == "" && Text.StartsWith(nextUrl.value, "/") ==>
              SafeFrontendRedirect(nextUrl, appUrl, parse, join) == join(appUrl, nextUrl.value)
    ensures nextUrl.Some? && nextUrl.value != "" && parse(nextUrl.value).Some? && parse(appUrl).Some?
            && parse(nextUrl.value).value.netloc != "" && parse(nextUrl.value).value.scheme == parse(appUrl).value.scheme
            && parse(nextUrl.value).value.netloc == parse(appUrl).value.netloc ==>
              SafeFrontendRedirect(nextUrl, appUrl, parse, join) == nextUrl.value
  {
  }
}
