/** Tasks 2 and 3 of AWS Signature Version 4 (string to sign, signing key, signature), the
    `Authorization` header and the presigned URL, as `AWSSignerClientRequestFilter` builds them. */
module Signer {
  import opened Wrappers
  import opened Text
  import opened Encoding
  import opened Canonical

  const Algorithm := "AWS4-HMAC-SHA256"

  // ---------------------------------------------------------------------------------------
  // The request time and its two printed forms.

  type Year = y: int | 1 <= y <= 9999 witness 1
  type Month = m: int | 1 <= m <= 12 witness 1
  type Day = d: int | 1 <= d <= 31 witness 1
  type Hour = h: int | 0 <= h < 24
  type Minute = m: int | 0 <= m < 60
  type Second = s: int | 0 <= s < 60

  /** A `LocalDateTime` in UTC, to the second. */
  datatype DateTime = DateTime(year: Year, month: Month, day: Day, hour: Hour, minute: Minute, second: Second)

  /** `yyyyMMdd`. */
  function FormatDate(t: DateTime): string
  {
    Padded(t.year, 4) + Padded(t.month, 2) + Padded(t.day, 2)
  }

  /** `yyyyMMdd'T'HHmmss'Z'`. */
  function FormatTime(t: DateTime): string
  {
    FormatDate(t) + "T" + Padded(t.hour, 2) + Padded(t.minute, 2) + Padded(t.second, 2) + "Z"
  }

  function Pow10(k: nat): (r: nat)
    ensures r >= 1
  {
    if k == 0 then 1 else 10 * Pow10(k - 1)
  }

  lemma {:induction false} NatTextLength(n: nat, k: nat)
    requires 1 <= k && n < Pow10(k)
    ensures |NatText(n)| <= k
  {
    if n >= 10 {
      assert k >= 2;
      assert Pow10(k) == 10 * Pow10(k - 1);
      assert n / 10 < Pow10(k - 1);
      NatTextLength(n / 10, k - 1);
    }
  }

  /** A number below `10^width` fills exactly `width` characters. */
  lemma {:induction false} PaddedLength(n: nat, width: nat)
    requires 1 <= width && n < Pow10(width)
    ensures |Padded(n, width)| == width
  {
    NatTextLength(n, width);
  }

  /** The value of a string of decimal digits. */
  function DigitsValue(s: string): int
  {
    if s == [] then 0 else 10 * DigitsValue(s[..|s| - 1]) + (s[|s| - 1] as int - '0' as int)
  }

  lemma {:induction false} NatTextValue(n: nat)
    ensures DigitsValue(NatText(n)) == n
  {
    if n >= 10 {
      var t := NatText(n);
      assert t[..|t| - 1] == NatText(n / 10);
      NatTextValue(n / 10);
    }
  }

  lemma {:induction false} ZerosValue(k: nat, t: string)
    ensures DigitsValue(Zeros(k) + t) == DigitsValue(t)
    decreases |t|, k
  {
    if t == [] {
      assert Zeros(k) + t == Zeros(k);
      if k > 0 {
        assert Zeros(k)[..k - 1] == Zeros(k - 1);
        ZerosValue(k - 1, []);
        assert Zeros(k - 1) + [] == Zeros(k - 1);
      }
    } else {
      var s := Zeros(k) + t;
      assert s[..|s| - 1] == Zeros(k) + t[..|t| - 1];
      ZerosValue(k, t[..|t| - 1]);
    }
  }

  /** Zero padding does not change the value printed. */
  lemma {:induction false} PaddedValue(n: nat, width: nat)
    ensures DigitsValue(Padded(n, width)) == n
  {
    NatTextValue(n);
    if |NatText(n)| < width {
      ZerosValue(width - |NatText(n)|, NatText(n));
    }
  }

  /** Reads a `yyyyMMdd'T'HHmmss'Z'` stamp back into its six numbers. */
  function ReadTime(s: string): (int, int, int, int, int, int)
    requires |s| == 16
  {
    (DigitsValue(s[0..4]), DigitsValue(s[4..6]), DigitsValue(s[6..8]),
     DigitsValue(s[9..11]), DigitsValue(s[11..13]), DigitsValue(s[13..15]))
  }

  predicate AllDigits(s: string)
  {
    forall i :: 0 <= i < |s| ==> IsDigit(s[i])
  }

  /** Where the six numbers sit in a stamp assembled from pieces of the pattern's widths. */
  lemma {:induction false} StampPieces(y: string, mo: string, d: string, h: string, mi: string, se: string)
    requires |y| == 4 && |mo| == 2 && |d| == 2 && |h| == 2 && |mi| == 2 && |se| == 2
    ensures var s := y + mo + d + "T" + h + mi + se + "Z";
      |s| == 16 && s[..8] == y + mo + d && s[8] == 'T' && s[15] == 'Z'
      && s[0..4] == y && s[4..6] == mo && s[6..8] == d
      && s[9..11] == h && s[11..13] == mi && s[13..15] == se
  {
  }

  lemma {:induction false} StampDigits(y: string, mo: string, d: string, h: string, mi: string, se: string)
    requires |y| == 4 && |mo| == 2 && |d| == 2 && |h| == 2 && |mi| == 2 && |se| == 2
    requires AllDigits(y) && AllDigits(mo) && AllDigits(d) && AllDigits(h) && AllDigits(mi) && AllDigits(se)
    ensures var s := y + mo + d + "T" + h + mi + se + "Z";
      forall i :: 0 <= i < |s| ==> IsDigit(s[i]) || s[i] == 'T' || s[i] == 'Z'
  {
    var s := y + mo + d + "T" + h + mi + se + "Z";
    StampPieces(y, mo, d, h, mi, se);
    forall i | 0 <= i < |s| ensures IsDigit(s[i]) || s[i] == 'T' || s[i] == 'Z' {
      if i < 4 {
        assert s[i] == s[0..4][i];
      } else if i < 6 {
        assert s[i] == s[4..6][i - 4];
      } else if i < 8 {
        assert s[i] == s[6..8][i - 6];
      } else if 9 <= i < 11 {
        assert s[i] == s[9..11][i - 9];
      } else if 11 <= i < 13 {
        assert s[i] == s[11..13][i - 11];
      } else if 13 <= i < 15 {
        assert s[i] == s[13..15][i - 13];
      }
    }
  }

  lemma {:induction false} PaddedPieces(t: DateTime)
    ensures |Padded(t.year, 4)| == 4 && |Padded(t.month, 2)| == 2 && |Padded(t.day, 2)| == 2
    ensures |Padded(t.hour, 2)| == 2 && |Padded(t.minute, 2)| == 2 && |Padded(t.second, 2)| == 2
    ensures FormatTime(t) == Padded(t.year, 4) + Padded(t.month, 2) + Padded(t.day, 2) + "T"
                             + Padded(t.hour, 2) + Padded(t.minute, 2) + Padded(t.second, 2) + "Z"
  {
    PaddedLength(t.year, 4);
    PaddedLength(t.month, 2);
    PaddedLength(t.day, 2);
    PaddedLength(t.hour, 2);
    PaddedLength(t.minute, 2);
    PaddedLength(t.second, 2);
  }

  /** The two stamps have the widths the pattern fixes, and the date is the time's first
      eight characters. */
  lemma {:induction false} TimeStampShape(t: DateTime)
    ensures |FormatDate(t)| == 8 && |FormatTime(t)| == 16
    ensures FormatTime(t)[..8] == FormatDate(t)
    ensures FormatTime(t)[8] == 'T' && FormatTime(t)[15] == 'Z'
  {
    PaddedPieces(t);
    StampPieces(Padded(t.year, 4), Padded(t.month, 2), Padded(t.day, 2),
                Padded(t.hour, 2), Padded(t.minute, 2), Padded(t.second, 2));
  }

  /** Printing the time loses nothing: the stamp reads back as the time it was made from. */
  lemma {:induction false} ReadFormattedTime(t: DateTime)
    ensures |FormatTime(t)| == 16
    ensures ReadTime(FormatTime(t)) == (t.year as int, t.month as int, t.day as int, t.hour as int, t.minute as int, t.second as int)
  {
    PaddedPieces(t);
    StampPieces(Padded(t.year, 4), Padded(t.month, 2), Padded(t.day, 2),
                Padded(t.hour, 2), Padded(t.minute, 2), Padded(t.second, 2));
    PaddedValue(t.year, 4);
    PaddedValue(t.month, 2);
    PaddedValue(t.day, 2);
    PaddedValue(t.hour, 2);
    PaddedValue(t.minute, 2);
    PaddedValue(t.second, 2);
  }

  /** The characters a time stamp can hold: digits, `T` and `Z`. */
  lemma {:induction false} TimeStampChars(t: DateTime)
    ensures forall i :: 0 <= i < |FormatTime(t)| ==> IsDigit(FormatTime(t)[i]) || FormatTime(t)[i] == 'T' || FormatTime(t)[i] == 'Z'
  {
    PaddedPieces(t);
    StampDigits(Padded(t.year, 4), Padded(t.month, 2), Padded(t.day, 2),
                Padded(t.hour, 2), Padded(t.minute, 2), Padded(t.second, 2));
  }

  // ---------------------------------------------------------------------------------------
  // The signer's configuration.

  /** SHA-256 and HMAC-SHA256 (`MessageDigest`, `Mac`), supplied by the platform. */
  datatype Primitives = Primitives(sha256: Bytes -> Bytes, hmac: (Bytes, Bytes) -> Bytes)

  /** What the builder set. A string the builder never set is null; `sessionToken` stands for
      the supplier and the token it returns, and is null when no supplier is set. */
  datatype Config = Config(accessKeyId: Option<string>, secretAccessKey: Option<string>,
                           sessionToken: Option<string>, region: Option<string>,
                           service: Option<string>, crypto: Primitives)

  /** Digests and MACs of the sizes SHA-256 produces. */
  ghost predicate FullSize(p: Primitives)
  {
    (forall d :: |p.sha256(d)| == 32) && (forall k, d :: |p.hmac(k, d)| == 32)
  }

  /** A string as `String.format("%s")` and `StringBuilder.append` print it: null as `null`. */
  function Show(s: Option<string>): string
  {
    if s.Some? then s.value else "null"
  }

  // ---------------------------------------------------------------------------------------
  // Task 2: the string to sign.

  /** `getCredentialScope`: `date/region/service/aws4_request`. */
  function CredentialScope(c: Config, date: string): string
  {
    date + "/" + Show(c.region) + "/" + Show(c.service) + "/aws4_request"
  }

  /** `createStringToSign`: the algorithm, the time, the scope and the hex SHA-256 of the
      canonical request's UTF-8 bytes, each of the first three ended by a line break. */
  function StringToSign(c: Config, canonical: string, date: string, time: string): string
  {
    Algorithm + "\n" + time + "\n" + date + "/" + Show(c.region) + "/" + Show(c.service) + "/aws4_request\n"
      + LowerHex(c.crypto.sha256(Utf8(canonical)))
  }

  lemma {:induction false} LowerHexHasNoLineBreak(b: Bytes)
    ensures '\n' !in LowerHex(b)
  {
    var h := LowerHex(b);
    forall i | 0 <= i < |h| ensures h[i] != '\n' {
      assert IsLowerHexDigit(h[i]);
    }
  }

  lemma {:induction false} CharNotInConcat(a: string, b: string, ch: char)
    requires ch !in a && ch !in b
    ensures ch !in a + b
  {
    forall i | 0 <= i < |a + b| ensures (a + b)[i] != ch {
      if i < |a| {
        assert (a + b)[i] == a[i];
      } else {
        assert (a + b)[i] == b[i - |a|];
      }
    }
  }

  lemma {:induction false} ScopeHasNoLineBreak(c: Config, date: string)
    requires '\n' !in date && '\n' !in Show(c.region) && '\n' !in Show(c.service)
    ensures '\n' !in CredentialScope(c, date)
  {
    assert '\n' !in "/";
    assert '\n' !in "/aws4_request";
    CharNotInConcat(date, "/", '\n');
    CharNotInConcat(date + "/", Show(c.region), '\n');
    CharNotInConcat(date + "/" + Show(c.region), "/", '\n');
    CharNotInConcat(date + "/" + Show(c.region) + "/", Show(c.service), '\n');
    CharNotInConcat(date + "/" + Show(c.region) + "/" + Show(c.service), "/aws4_request", '\n');
  }

  lemma {:induction false} FourLines(a: string, b: string, date: string, region: string, service: string, d: string)
    ensures a + "\n" + b + "\n" + date + "/" + region + "/" + service + "/aws4_request\n" + d
         == Join("\n", [a, b, date + "/" + region + "/" + service + "/aws4_request", d])
  {
    var scope := date + "/" + region + "/" + service + "/aws4_request";
    var lines := [a, b, scope, d];
    assert lines[1..][1..][1..] == [d];
    assert Join("\n", lines[1..][1..]) == scope + "\n" + d;
    assert Join("\n", lines[1..]) == b + "\n" + (scope + "\n" + d);
    assert "/aws4_request\n" == "/aws4_request" + "\n";
  }

  lemma {:induction false} StringToSignIsJoin(c: Config, canonical: string, date: string, time: string)
    ensures StringToSign(c, canonical, date, time)
         == Join("\n", [Algorithm, time, CredentialScope(c, date), LowerHex(c.crypto.sha256(Utf8(canonical)))])
  {
    FourLines(Algorithm, time, date, Show(c.region), Show(c.service), LowerHex(c.crypto.sha256(Utf8(canonical))));
  }

  /** The string to sign has exactly four lines: the algorithm, the time, the credential scope
      (the same text the `Authorization` header carries) and the canonical request's hash. */
  lemma {:induction false} StringToSignLines(c: Config, canonical: string, date: string, time: string)
    requires '\n' !in date && '\n' !in time && '\n' !in Show(c.region) && '\n' !in Show(c.service)
    ensures Fields(StringToSign(c, canonical, date, time), '\n')
         == [Algorithm, time, CredentialScope(c, date), LowerHex(c.crypto.sha256(Utf8(canonical)))]
  {
    var lines := [Algorithm, time, CredentialScope(c, date), LowerHex(c.crypto.sha256(Utf8(canonical)))];
    StringToSignIsJoin(c, canonical, date, time);
    LowerHexHasNoLineBreak(c.crypto.sha256(Utf8(canonical)));
    ScopeHasNoLineBreak(c, date);
    assert '\n' !in Algorithm;
    FieldsOfJoin(lines, '\n');
  }

  // ---------------------------------------------------------------------------------------
  // Task 3: the signing key and the signature.

  /** `getSignatureKey`: HMAC chained over the date, region, service and `aws4_request`,
      starting from `AWS4` and the secret key. */
  function SigningKey(c: Config, date: string): Bytes
    requires c.region.Some? && c.service.Some?
  {
    var kSecret := Utf8("AWS4" + Show(c.secretAccessKey));
    var kDate := c.crypto.hmac(kSecret, Utf8(date));
    var kRegion := c.crypto.hmac(kDate, Utf8(c.region.value));
    var kService := c.crypto.hmac(kRegion, Utf8(c.service.value));
    c.crypto.hmac(kService, TerminatorBytes)
  }

  /** `"aws4_request".getBytes("UTF8")`, the last input of the key chain (ASCII, one byte per
      character). */
  const TerminatorBytes: Bytes := [0x61, 0x77, 0x73, 0x34, 0x5F, 0x72, 0x65, 0x71, 0x75, 0x65, 0x73, 0x74]

  /** The constant is the UTF-8 encoding of the text `aws4_request`. */
  lemma {:induction false} TerminatorIsUtf8(s: string)
    requires s == "aws4_request"
    ensures Utf8(s) == TerminatorBytes
  {
    assert forall i :: 0 <= i < |s| ==> s[i] as int < 0x80;
    Utf8Ascii(s);
    assert forall i :: 0 <= i < |s| ==> s[i] as int == TerminatorBytes[i];
  }

  /** `calculateSignature`: the lower-case hex HMAC of the data under the signing key. A null
      region or service makes `getBytes` throw inside the `try`, and the method returns null. */
  function CalculateSignature(c: Config, data: Bytes, date: string): (r: Option<string>)
    ensures r.Some? <==> c.region.Some? && c.service.Some?
    ensures r.Some? ==> forall i :: 0 <= i < |r.value| ==> IsLowerHexDigit(r.value[i])
    ensures r.Some? && FullSize(c.crypto) ==> |r.value| == 64
  {
    if c.region.None? || c.service.None? then None
    else Some(LowerHex(c.crypto.hmac(SigningKey(c, date), data)))
  }

  /** The signature covers the data: it is the HMAC of exactly these bytes, printed so that
      they can be read back. */
  lemma {:induction false} SignatureReadsBack(c: Config, data: Bytes, date: string)
    requires c.region.Some? && c.service.Some?
    ensures ParseHex(CalculateSignature(c, data, date).value) == c.crypto.hmac(SigningKey(c, date), data)
  {
    var s := CalculateSignature(c, data, date).value;
    forall i | 0 <= i < |s| ensures HexValue(s[i]) < 16 {
      assert IsLowerHexDigit(s[i]);
    }
    ParseLowerHex(c.crypto.hmac(SigningKey(c, date), data));
  }

  // ---------------------------------------------------------------------------------------
  // The Authorization header.

  /** `generateAuthorizationHeader`. */
  function AuthorizationHeader(c: Config, date: string, signed: seq<string>, signature: Option<string>): string
  {
    Algorithm + " Credential=" + Show(c.accessKeyId) + "/" + CredentialScope(c, date)
      + ", SignedHeaders=" + Join(";", signed) + ", Signature=" + Show(signature)
  }

  lemma {:induction false} LowerAllOfLower(names: seq<string>)
    requires forall i :: 0 <= i < |names| ==> Lower(names[i]) == names[i]
    ensures LowerAll(names) == names
  {
  }

  /** The header tells a verifier what was signed: its `SignedHeaders` part is the canonical
      request's signed-header line whenever the names are already lower case, and its scope
      is the third line of the string to sign. */
  lemma {:induction false} AuthorizationMatchesSigning(c: Config, canonical: string, date: string, time: string,
                                                       signed: seq<string>, signature: Option<string>)
    requires forall i :: 0 <= i < |signed| ==> Lower(signed[i]) == signed[i]
    requires '\n' !in date && '\n' !in time && '\n' !in Show(c.region) && '\n' !in Show(c.service)
    ensures var lines := Fields(StringToSign(c, canonical, date, time), '\n');
      |lines| == 4 &&
      AuthorizationHeader(c, date, signed, signature)
      == Algorithm + " Credential=" + Show(c.accessKeyId) + "/" + lines[2]
         + ", SignedHeaders=" + SignedHeaderLine(signed) + ", Signature=" + Show(signature)
  {
    LowerAllOfLower(signed);
    StringToSignLines(c, canonical, date, time);
  }

  // ---------------------------------------------------------------------------------------
  // The presigned URL.

  /** `UriBuilder.queryParam(name, value)`: `name=value` added to the raw query, after an `&`
      when the query is not empty. */
  function AppendParam(query: Option<string>, name: string, value: string): (r: Option<string>)
    ensures r.Some? && |r.value| >= |name| + 1 + |value|
    ensures query.None? || query == Some("") ==> r.value == name + "=" + value
    ensures query.Some? && query.value != "" ==> r.value == query.value + "&" + (name + "=" + value)
    ensures query.Some? && query.value != "" ==>
      |r.value| > |query.value| && r.value[..|query.value| + 1] == query.value + "&"
  {
    if query.None? || query.value == "" then Some(name + "=" + value)
    else Some(query.value + "&" + (name + "=" + value))
  }

  /** Each parameter appended in turn. */
  function AppendParams(query: Option<string>, ps: seq<Param>): Option<string>
  {
    if ps == [] then query
    else
      var n := |ps| - 1;
      AppendParam(AppendParams(query, ps[..n]), ps[n].0, ps[n].1)
  }

  /** `expiration.toMillis() / 1000`: Java's long division, which truncates toward zero. */
  function ExpiresSeconds(millis: int): (s: int)
    ensures 0 <= millis ==> 0 <= s && 0 <= millis - 1000 * s < 1000
    ensures millis < 0 ==> s <= 0 && -1000 < millis - 1000 * s <= 0
  {
    if millis >= 0 then millis / 1000 else -((-millis) / 1000)
  }

  /** The five parameters `presign` appends before signing, in the order it appends them. */
  function PresignParams(c: Config, date: string, time: string, millis: int): (r: seq<Param>)
    ensures |r| == 5
  {
    [("X-Amz-Algorithm", Algorithm),
     ("X-Amz-Credential", UrlEncode(Show(c.accessKeyId) + "/" + CredentialScope(c, date))),
     ("X-Amz-Date", time),
     ("X-Amz-Expires", IntText(ExpiresSeconds(millis))),
     ("X-Amz-SignedHeaders", "host")]
  }

  /** The headers `presign` signs: only `host`, with the original URI's host. */
  function PresignHeaders(uri: Uri): Multimap
  {
    map["host" := [uri.host]]
  }

  /** The tail of `presign`, once the canonical request of the extended URI is known: the
      string to sign, the signature and the final `X-Amz-Signature` parameter. A null
      signature makes `queryParam` throw `IllegalArgumentException`. */
  function FinishPresign(c: Config, uri: Uri, query: Option<string>, date: string, time: string,
                         canonical: Result<string>): (r: Result<Uri>)
    ensures canonical.Err? ==> r == Err(canonical.error)
    ensures canonical.Ok? && (c.region.None? || c.service.None?) ==> r == Err(IllegalArgument)
    ensures r.Ok? ==> r.value.scheme == uri.scheme && r.value.host == uri.host && r.value.path == uri.path
    ensures r.Ok? ==> r.value.query.Some?
    ensures r.Ok? && query.Some? && query.value != "" ==>
      |r.value.query.value| > |query.value| && r.value.query.value[..|query.value|] == query.value
  {
    match canonical
    case Err(e) => Err(e)
    case Ok(text) =>
      match CalculateSignature(c, Utf8(StringToSign(c, text, date, time)), date)
      case None => Err(IllegalArgument)
      case Some(signature) => Ok(uri.(query := AppendParam(query, "X-Amz-Signature", signature)))
  }

  /** The query `presign` builds before signing: the URI's own query, then the five parameters. */
  function PresignQuery(c: Config, query: Option<string>, now: DateTime, millis: int): Option<string>
  {
    AppendParams(query, PresignParams(c, FormatDate(now), FormatTime(now), millis))
  }

  /** `presign`: the URI with the five parameters appended, then `X-Amz-Signature`, the
      signature of the canonical request of the extended URI over `host` alone with an
      unsigned payload. A malformed query throws while parsing. */
  ghost function PresignedUri(c: Config, httpMethod: string, uri: Uri, millis: int, now: DateTime): Result<Uri>
  {
    var query := PresignQuery(c, uri.query, now, millis);
    FinishPresign(c, uri, query, FormatDate(now), FormatTime(now), PresignCanonical(httpMethod, uri, query, c.crypto.sha256))
  }

  /** The canonical request `presign` signs: the extended URI, `host` alone, an unsigned
      payload. It fails exactly when the extended query is malformed. */
  ghost function PresignCanonical(httpMethod: string, uri: Uri, query: Option<string>, sha256: Bytes -> Bytes): (r: Result<string>)
    ensures r.Err? <==> ParseQuery(query).Err?
    ensures r.Err? ==> r.error == ParseQuery(query).error
  {
    CanonicalRequest(httpMethod, uri.(query := query), ["host"], PresignHeaders(uri), None, sha256)
  }

  /** The five `queryParam` calls of `presign`, in order. */
  method AddPresignParams(c: Config, query: Option<string>, now: DateTime, millis: int) returns (r: Option<string>)
    ensures r == PresignQuery(c, query, now, millis)
  {
    var time := FormatTime(now);
    var date := FormatDate(now);
    ghost var ps := PresignParams(c, date, time, millis);
    r := AppendParam(query, "X-Amz-Algorithm", Algorithm);
    AppendParamsStep(query, ps, 0);
    r := AppendParam(r, "X-Amz-Credential", UrlEncode(Show(c.accessKeyId) + "/" + CredentialScope(c, date)));
    AppendParamsStep(query, ps, 1);
    r := AppendParam(r, "X-Amz-Date", time);
    AppendParamsStep(query, ps, 2);
    r := AppendParam(r, "X-Amz-Expires", IntText(ExpiresSeconds(millis)));
    AppendParamsStep(query, ps, 3);
    r := AppendParam(r, "X-Amz-SignedHeaders", "host");
    AppendParamsStep(query, ps, 4);
    TakeAll(ps);
  }

  /** `presign(method, originalURI, expiration)` with the clock's reading `now` and the
      expiration in milliseconds. */
  method Presign(c: Config, httpMethod: string, uri: Uri, millis: int, now: DateTime) returns (r: Result<Uri>)
    ensures r == PresignedUri(c, httpMethod, uri, millis, now)
  {
    var time := FormatTime(now);
    var date := FormatDate(now);
    var query := AddPresignParams(c, uri.query, now, millis);
    var modified := uri.(query := query);
    var canonical := GenerateCanonicalRequest(httpMethod, modified, ["host"], PresignHeaders(uri), None, c.crypto.sha256);
    assert canonical == PresignCanonical(httpMethod, uri, query, c.crypto.sha256);
    r := FinishPresign(c, uri, query, date, time, canonical);
  }

  lemma {:induction false} AppendParamsStep(query: Option<string>, ps: seq<Param>, k: nat)
    requires k < |ps|
    ensures AppendParams(query, ps[..k + 1]) == AppendParam(AppendParams(query, ps[..k]), ps[k].0, ps[k].1)
  {
    TakeOfTake(ps, k);
  }

  /** Appending to a non-empty query keeps it, followed by `&`. */
  lemma {:induction false} AppendParamsPrefix(query: Option<string>, ps: seq<Param>)
    ensures ps != [] ==> AppendParams(query, ps).Some?
    ensures ps != [] && query.Some? && query.value != "" ==>
      |AppendParams(query, ps).value| > |query.value| &&
      AppendParams(query, ps).value[..|query.value| + 1] == query.value + "&"
  {
    if |ps| > 1 {
      var n := |ps| - 1;
      AppendParamsPrefix(query, ps[..n]);
      if query.Some? && query.value != "" {
        var before := AppendParams(query, ps[..n]).value;
        var after := AppendParams(query, ps).value;
        assert after[..|before|] == before;
        assert after[..|query.value| + 1] == before[..|query.value| + 1];
      }
    }
  }

  /** Presigning keeps the URI's scheme, host and path. */
  lemma {:induction false} PresignKeepsUri(c: Config, httpMethod: string, uri: Uri, millis: int, now: DateTime)
    requires PresignedUri(c, httpMethod, uri, millis, now).Ok?
    ensures var u := PresignedUri(c, httpMethod, uri, millis, now).value;
      u.scheme == uri.scheme && u.host == uri.host && u.path == uri.path && u.query.Some?
  {
  }

  /** Presigning keeps the URI's own query, followed by `&`, in front of the parameters it
      appends. */
  lemma {:induction false} PresignKeepsQuery(c: Config, httpMethod: string, uri: Uri, millis: int, now: DateTime)
    requires PresignedUri(c, httpMethod, uri, millis, now).Ok?
    requires uri.query.Some? && uri.query.value != ""
    ensures var u := PresignedUri(c, httpMethod, uri, millis, now).value;
      u.query.Some? && |u.query.value| > |uri.query.value| && u.query.value[..|uri.query.value| + 1] == uri.query.value + "&"
  {
    var ps := PresignParams(c, FormatDate(now), FormatTime(now), millis);
    var query := AppendParams(uri.query, ps);
    assert PresignedUri(c, httpMethod, uri, millis, now)
      == FinishPresign(c, uri, query, FormatDate(now), FormatTime(now), PresignCanonical(httpMethod, uri, query, c.crypto.sha256));
    FinishKeepsQuery(c, uri, ps, FormatDate(now), FormatTime(now), PresignCanonical(httpMethod, uri, query, c.crypto.sha256));
  }

  /** Finishing after appending parameters keeps the URI's own query and its `&`. */
  lemma {:induction false} FinishKeepsQuery(c: Config, uri: Uri, ps: seq<Param>, date: string, time: string,
                                            canonical: Result<string>)
    requires ps != [] && uri.query.Some? && uri.query.value != ""
    requires FinishPresign(c, uri, AppendParams(uri.query, ps), date, time, canonical).Ok?
    ensures var u := FinishPresign(c, uri, AppendParams(uri.query, ps), date, time, canonical).value;
      u.query.Some? && |u.query.value| > |uri.query.value| && u.query.value[..|uri.query.value| + 1] == uri.query.value + "&"
  {
    var query := AppendParams(uri.query, ps);
    var r := FinishPresign(c, uri, query, date, time, canonical);
    AppendParamsPrefix(uri.query, ps);
    PrefixOfPrefix(uri.query.value + "&", query.value, r.value.query.value);
  }

  lemma {:induction false} PrefixOfPrefix(a: string, b: string, c: string)
    requires |b| >= |a| && b[..|a|] == a && |c| > |b| && c[..|b|] == b
    ensures |c| > |a| && c[..|a|] == a
  {
    assert c[..|a|] == c[..|b|][..|a|];
  }

  /** Parameters appended to a URI without a query make a query of exactly those parameters. */
  lemma {:induction false} AppendParamsToNone(ps: seq<Param>)
    requires ps != []
    ensures AppendParams(None, ps) == Some(Join("&", Render(ps)))
  {
    var n := |ps| - 1;
    if n > 0 {
      var joined := Join("&", Render(ps[..n]));
      var x := ps[n].0 + "=" + ps[n].1;
      AppendParamsToNone(ps[..n]);
      assert AppendParams(None, ps) == AppendParam(Some(joined), ps[n].0, ps[n].1);
      assert joined != "" by {
        assert AppendParams(None, ps[..n]).value != "";
      }
      assert AppendParam(Some(joined), ps[n].0, ps[n].1) == Some(joined + "&" + x);
      assert Render(ps) == Render(ps[..n]) + [x];
      JoinAppend("&", Render(ps[..n]), x);
    } else {
      assert ps[..0] == [];
    }
  }

  /** Parameters appended to an empty query make the same query as appended to none. */
  lemma {:induction false} AppendParamsToEmpty(ps: seq<Param>)
    requires ps != []
    ensures AppendParams(Some(""), ps) == AppendParams(None, ps)
  {
    var n := |ps| - 1;
    if n > 0 {
      AppendParamsToEmpty(ps[..n]);
    }
  }

  /** Parameters appended to a query of plain parameters make the query of all of them. */
  lemma {:induction false} AppendParamsToQuery(ps0: seq<Param>, ps: seq<Param>)
    requires ps0 != []
    ensures AppendParams(Some(Join("&", Render(ps0))), ps) == Some(Join("&", Render(ps0 + ps)))
  {
    if ps == [] {
      assert ps0 + ps == ps0;
    } else {
      var n := |ps| - 1;
      var front := ps0 + ps[..n];
      var joined := Join("&", Render(front));
      var x := ps[n].0 + "=" + ps[n].1;
      AppendParamsToQuery(ps0, ps[..n]);
      assert AppendParams(Some(Join("&", Render(ps0))), ps) == AppendParam(Some(joined), ps[n].0, ps[n].1);
      assert joined != "" by {
        assert Render(front)[0] != "";
      }
      assert AppendParam(Some(joined), ps[n].0, ps[n].1) == Some(joined + "&" + x);
      assert ps0 + ps == front + [ps[n]];
      RenderConcat(front, [ps[n]]);
      assert Render(ps0 + ps) == Render(front) + [x];
      JoinAppend("&", Render(front), x);
    }
  }

  lemma {:induction false} NoSeparators(s: string)
    requires forall i :: 0 <= i < |s| ==> s[i] != '=' && s[i] != '&'
    ensures '=' !in s && '&' !in s
  {
  }

  lemma {:induction false} CredentialIsPlain(c: Config, date: string)
    ensures PlainParam(("X-Amz-Credential", UrlEncode(Show(c.accessKeyId) + "/" + CredentialScope(c, date))))
  {
    var credential := UrlEncode(Show(c.accessKeyId) + "/" + CredentialScope(c, date));
    assert |credential| >= |Show(c.accessKeyId) + "/" + CredentialScope(c, date)| > 0;
    NoSeparators(credential);
    assert '=' !in "X-Amz-Credential" && '&' !in "X-Amz-Credential";
  }

  lemma {:induction false} DateIsPlain(t: DateTime)
    ensures PlainParam(("X-Amz-Date", FormatTime(t)))
  {
    TimeStampChars(t);
    TimeStampShape(t);
    NoSeparators(FormatTime(t));
    assert '=' !in "X-Amz-Date" && '&' !in "X-Amz-Date";
  }

  lemma {:induction false} ExpiresIsPlain(millis: int)
    ensures PlainParam(("X-Amz-Expires", IntText(ExpiresSeconds(millis))))
  {
    NoSeparators(IntText(ExpiresSeconds(millis)));
    assert '=' !in "X-Amz-Expires" && '&' !in "X-Amz-Expires";
  }

  lemma {:induction false} ConstantsArePlain()
    ensures PlainParam(("X-Amz-Algorithm", Algorithm))
    ensures PlainParam(("X-Amz-SignedHeaders", "host"))
  {
    assert '=' !in "X-Amz-Algorithm" && '&' !in "X-Amz-Algorithm";
    assert '=' !in Algorithm && '&' !in Algorithm;
    assert '=' !in "X-Amz-SignedHeaders" && '&' !in "X-Amz-SignedHeaders";
    assert '=' !in "host" && '&' !in "host";
  }

  lemma {:induction false} SignatureIsPlain(signature: string)
    requires signature != [] && forall i :: 0 <= i < |signature| ==> IsLowerHexDigit(signature[i])
    ensures PlainParam(("X-Amz-Signature", signature))
  {
    NoSeparators(signature);
    assert '=' !in "X-Amz-Signature" && '&' !in "X-Amz-Signature";
  }

  /** Every parameter `presign` appends survives parsing unchanged: no `=`, no `&`, never empty. */
  lemma {:induction false} PresignParamsArePlain(c: Config, t: DateTime, millis: int)
    ensures forall i :: 0 <= i < 5 ==> PlainParam(PresignParams(c, FormatDate(t), FormatTime(t), millis)[i])
  {
    ConstantsArePlain();
    CredentialIsPlain(c, FormatDate(t));
    DateIsPlain(t);
    ExpiresIsPlain(millis);
  }

  /** The signature parameter comes last, after the parameters already in the query. */
  lemma {:induction false} FinishRoundTrip(c: Config, uri: Uri, ps: seq<Param>, date: string, time: string, canonical: string)
    requires ps != [] && forall i :: 0 <= i < |ps| ==> PlainParam(ps[i])
    requires c.region.Some? && c.service.Some? && FullSize(c.crypto)
    ensures var r := FinishPresign(c, uri, Some(Join("&", Render(ps))), date, time, Ok(canonical));
      r.Ok? && var q := ParseQuery(r.value.query);
      q.Ok? && |q.value| == |ps| + 1 && q.value[..|ps|] == ps
      && q.value[|ps|].0 == "X-Amz-Signature" && |q.value[|ps|].1| == 64
  {
    var signature := CalculateSignature(c, Utf8(StringToSign(c, canonical, date, time)), date).value;
    var all := ps + [("X-Amz-Signature", signature)];
    SignatureIsPlain(signature);
    assert all[..|ps|] == ps;
    AppendParamsToNone(ps);
    AppendParamsToNone(all);
    QueryRoundTrip(all);
  }

  /** With no query of its own, the presigned URI's query reads back as the five parameters
      in the order appended, then `X-Amz-Signature`, a 64-digit signature. */
  lemma {:induction false} PresignRoundTrip(c: Config, httpMethod: string, uri: Uri, millis: int, now: DateTime)
    requires (uri.query.None? || uri.query == Some("")) && c.region.Some? && c.service.Some? && FullSize(c.crypto)
    ensures PresignedUri(c, httpMethod, uri, millis, now).Ok?
    ensures var q := ParseQuery(PresignedUri(c, httpMethod, uri, millis, now).value.query);
      q.Ok? && |q.value| == 6 && q.value[..5] == PresignParams(c, FormatDate(now), FormatTime(now), millis)
      && q.value[5].0 == "X-Amz-Signature" && |q.value[5].1| == 64
  {
    var ps := PresignParams(c, FormatDate(now), FormatTime(now), millis);
    PresignParamsArePlain(c, now, millis);
    AppendParamsToNone(ps);
    if uri.query.Some? {
      AppendParamsToEmpty(ps);
    }
    QueryRoundTrip(ps);
    var query := PresignQuery(c, uri.query, now, millis);
    var canonical := PresignCanonical(httpMethod, uri, query, c.crypto.sha256);
    FinishRoundTrip(c, uri, ps, FormatDate(now), FormatTime(now), canonical.value);
  }

  lemma {:induction false} AllPlain(ps0: seq<Param>, ps: seq<Param>)
    requires forall i :: 0 <= i < |ps0| ==> PlainParam(ps0[i])
    requires forall i :: 0 <= i < |ps| ==> PlainParam(ps[i])
    ensures forall i :: 0 <= i < |ps0 + ps| ==> PlainParam((ps0 + ps)[i])
  {
    forall i | 0 <= i < |ps0 + ps| ensures PlainParam((ps0 + ps)[i]) {
      if i >= |ps0| {
        assert (ps0 + ps)[i] == ps[i - |ps0|];
      }
    }
  }

  /** Plain parameters appended to a query of plain parameters parse back as all of them. */
  lemma {:induction false} QueryOfExtension(ps0: seq<Param>, ps: seq<Param>)
    requires ps0 != [] && forall i :: 0 <= i < |ps0| ==> PlainParam(ps0[i])
    requires forall i :: 0 <= i < |ps| ==> PlainParam(ps[i])
    ensures ParseQuery(AppendParams(Some(Join("&", Render(ps0))), ps)) == Ok(ps0 + ps)
  {
    AllPlain(ps0, ps);
    AppendParamsToQuery(ps0, ps);
    QueryRoundTrip(ps0 + ps);
  }

  /** The tail of presigning after an extended query of plain parameters. */
  lemma {:induction false} ExtendRoundTrip(c: Config, uri: Uri, ps0: seq<Param>, ps: seq<Param>,
                                           date: string, time: string, canonical: Result<string>)
    requires ps0 != [] && forall i :: 0 <= i < |ps0| ==> PlainParam(ps0[i])
    requires forall i :: 0 <= i < |ps| ==> PlainParam(ps[i])
    requires canonical.Ok? && c.region.Some? && c.service.Some? && FullSize(c.crypto)
    ensures var r := FinishPresign(c, uri, AppendParams(Some(Join("&", Render(ps0))), ps), date, time, canonical);
      var k := |ps0|;
      r.Ok? && var q := ParseQuery(r.value.query);
      q.Ok? && |q.value| == k + |ps| + 1 && q.value[..k] == ps0 && q.value[k..k + |ps|] == ps
      && q.value[k + |ps|].0 == "X-Amz-Signature" && |q.value[k + |ps|].1| == 64
  {
    var all := ps0 + ps;
    AllPlain(ps0, ps);
    AppendParamsToQuery(ps0, ps);
    FinishRoundTrip(c, uri, all, date, time, canonical.value);
    var r := FinishPresign(c, uri, Some(Join("&", Render(all))), date, time, canonical);
    var q := ParseQuery(r.value.query).value;
    assert q[..|ps0|] == q[..|all|][..|ps0|];
    assert q[|ps0|..|ps0| + |ps|] == q[..|all|][|ps0|..];
  }

  /** A URI whose query is made of plain parameters keeps them, in order, in front of the
      five parameters presigning appends and the final `X-Amz-Signature`. */
  lemma {:induction false} PresignExtendsQuery(c: Config, httpMethod: string, uri: Uri, millis: int, now: DateTime,
                                               ps0: seq<Param>)
    requires ps0 != [] && forall i :: 0 <= i < |ps0| ==> PlainParam(ps0[i])
    requires uri.query == Some(Join("&", Render(ps0)))
    requires c.region.Some? && c.service.Some? && FullSize(c.crypto)
    ensures PresignedUri(c, httpMethod, uri, millis, now).Ok?
    ensures var q := ParseQuery(PresignedUri(c, httpMethod, uri, millis, now).value.query);
      var k := |ps0|;
      q.Ok? && |q.value| == k + 6 && q.value[..k] == ps0
      && q.value[k..k + 5] == PresignParams(c, FormatDate(now), FormatTime(now), millis)
      && q.value[k + 5].0 == "X-Amz-Signature" && |q.value[k + 5].1| == 64
  {
    var ps := PresignParams(c, FormatDate(now), FormatTime(now), millis);
    PresignParamsArePlain(c, now, millis);
    var query := PresignQuery(c, uri.query, now, millis);
    QueryOfExtension(ps0, ps);
    var canonical := PresignCanonical(httpMethod, uri, query, c.crypto.sha256);
    assert PresignedUri(c, httpMethod, uri, millis, now)
      == FinishPresign(c, uri, query, FormatDate(now), FormatTime(now), canonical);
    ExtendRoundTrip(c, uri, ps0, ps, FormatDate(now), FormatTime(now), canonical);
  }

  /** Without a region or a service there is no signature, and presigning throws. */
  lemma {:induction false} PresignNeedsScope(c: Config, httpMethod: string, uri: Uri, millis: int, now: DateTime)
    requires c.region.None? || c.service.None?
    ensures PresignedUri(c, httpMethod, uri, millis, now).Err?
  {
  }

  /** A malformed query in the extended URI makes presigning throw the parser's exception. */
  lemma {:induction false} PresignMalformedQuery(c: Config, httpMethod: string, uri: Uri, millis: int, now: DateTime)
    requires ParseQuery(PresignQuery(c, uri.query, now, millis)).Err?
    ensures PresignedUri(c, httpMethod, uri, millis, now) == Err(ParseQuery(PresignQuery(c, uri.query, now, millis)).error)
  {
  }
}
