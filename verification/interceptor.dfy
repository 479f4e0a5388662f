/** The two entry points of the JAX-RS signer: the request filter, which signs a request
    without an entity at once and otherwise leaves a note for later, and the writer
    interceptor, which captures the entity's bytes as they are written and then signs. */
module Interceptor {
  import opened Wrappers
  import opened Text
  import opened Encoding
  import opened Canonical
  import opened Signer

  // ---------------------------------------------------------------------------------------
  // What signing does to the headers.

  /** The names `prepareSignedHeaders` lists, in the order it lists them. */
  function SignedNames(c: Config): (r: seq<string>)
    ensures 2 <= |r| <= 3 && r[0] == "host" && r[1] == "x-amz-date"
    ensures |r| == 3 <==> c.sessionToken.Some?
    ensures |r| == 3 ==> r[2] == "x-amz-security-token"
  {
    ["host", "x-amz-date"] + if c.sessionToken.Some? then ["x-amz-security-token"] else []
  }

  /** The header map after `prepareSignedHeaders`: one more value for `host`, for
      `x-amz-date` and, with a session token, for `x-amz-security-token`. */
  function PreparedHeaders(c: Config, headers: Multimap, host: string, time: string): Multimap
  {
    var h := Add(Add(headers, "host", host), "x-amz-date", time);
    if c.sessionToken.Some? then Add(h, "x-amz-security-token", c.sessionToken.value) else h
  }

  /** The header map after `addAuthorizationHeader`, or unchanged when building the canonical
      request threw and the method was never reached. */
  function Authorize(c: Config, prepared: Multimap, date: string, time: string, canonical: Result<string>): Multimap
  {
    match canonical
    case Err(_) => prepared
    case Ok(text) =>
      var signature := CalculateSignature(c, Utf8(StringToSign(c, text, date, time)), date);
      Add(prepared, "Authorization", AuthorizationHeader(c, date, SignedNames(c), signature))
  }

  /** The canonical request `signRequest` builds for a payload. */
  ghost function SigningCanonical(c: Config, headers: Multimap, httpMethod: string, uri: Uri,
                                  t: DateTime, payload: Bytes): Result<string>
  {
    var prepared := PreparedHeaders(c, headers, uri.host, FormatTime(t));
    PreparedHasSigned(c, headers, uri.host, FormatTime(t));
    CanonicalRequest(httpMethod, uri, SignedNames(c), prepared, Some(payload), c.crypto.sha256)
  }

  /** The header map after `signRequest`, whether or not it threw. */
  ghost function SignedHeaders(c: Config, headers: Multimap, httpMethod: string, uri: Uri,
                               t: DateTime, payload: Bytes): Multimap
  {
    Authorize(c, PreparedHeaders(c, headers, uri.host, FormatTime(t)), FormatDate(t), FormatTime(t),
              SigningCanonical(c, headers, httpMethod, uri, t, payload))
  }

  /** Every name that is signed has a value by the time the canonical request is built. */
  lemma {:induction false} PreparedHasSigned(c: Config, headers: Multimap, host: string, time: string)
    ensures forall i :: 0 <= i < |SignedNames(c)| ==> SignedNames(c)[i] in PreparedHeaders(c, headers, host, time)
  {
  }

  /** Preparing adds exactly one value to each signed name and touches nothing else. */
  lemma {:induction false} PreparedValues(c: Config, headers: Multimap, host: string, time: string, k: string)
    ensures Values(PreparedHeaders(c, headers, host, time), k)
      == Values(headers, k) + (if k == "host" then [host] else [])
         + (if k == "x-amz-date" then [time] else [])
         + (if k == "x-amz-security-token" && c.sessionToken.Some? then [c.sessionToken.value] else [])
    ensures k in PreparedHeaders(c, headers, host, time) <==> k in headers || k in SignedNames(c)
  {
  }

  /** Authorizing adds one `Authorization` value when the canonical request was built, and
      touches nothing else. */
  lemma {:induction false} AuthorizeValues(c: Config, prepared: Multimap, date: string, time: string,
                                           canonical: Result<string>, k: string)
    ensures k != "Authorization" ==> Values(Authorize(c, prepared, date, time, canonical), k) == Values(prepared, k)
    ensures k != "Authorization" ==> (k in Authorize(c, prepared, date, time, canonical) <==> k in prepared)
    ensures var before := Values(prepared, "Authorization");
      var after := Values(Authorize(c, prepared, date, time, canonical), "Authorization");
      |after| == |before| + (if canonical.Ok? then 1 else 0) && after[..|before|] == before
  {
  }

  /** Building the canonical request for signing fails only on a malformed query, with the
      exception `params` throws. */
  lemma {:induction false} SigningFailsOnlyOnQuery(c: Config, headers: Multimap, httpMethod: string, uri: Uri,
                                                   t: DateTime, payload: Bytes)
    ensures SigningCanonical(c, headers, httpMethod, uri, t, payload).Err? <==> ParseQuery(uri.query).Err?
    ensures ParseQuery(uri.query).Err? ==>
      SigningCanonical(c, headers, httpMethod, uri, t, payload).error == ParseQuery(uri.query).error
  {
  }

  /** Signing changes no header other than the three it signs and `Authorization`. */
  lemma {:induction false} SigningTouchesOnlySignedHeaders(c: Config, headers: Multimap, httpMethod: string,
                                                           uri: Uri, t: DateTime, payload: Bytes, k: string)
    requires k != "host" && k != "x-amz-date" && k != "x-amz-security-token" && k != "Authorization"
    ensures Values(SignedHeaders(c, headers, httpMethod, uri, t, payload), k) == Values(headers, k)
    ensures k in SignedHeaders(c, headers, httpMethod, uri, t, payload) <==> k in headers
  {
    var prepared := PreparedHeaders(c, headers, uri.host, FormatTime(t));
    var canonical := SigningCanonical(c, headers, httpMethod, uri, t, payload);
    PreparedValues(c, headers, uri.host, FormatTime(t), k);
    AuthorizeValues(c, prepared, FormatDate(t), FormatTime(t), canonical, k);
  }

  /** Signing appends the host, the time stamp and the session token to what the caller had
      set. */
  lemma {:induction false} SigningAppendsSignedValues(c: Config, headers: Multimap, httpMethod: string,
                                                      uri: Uri, t: DateTime, payload: Bytes)
    ensures var after := SignedHeaders(c, headers, httpMethod, uri, t, payload);
      Values(after, "host") == Values(headers, "host") + [uri.host] &&
      Values(after, "x-amz-date") == Values(headers, "x-amz-date") + [FormatTime(t)] &&
      Values(after, "x-amz-security-token") == Values(headers, "x-amz-security-token")
        + (if c.sessionToken.Some? then [c.sessionToken.value] else [])
  {
    var time := FormatTime(t);
    var prepared := PreparedHeaders(c, headers, uri.host, time);
    var canonical := SigningCanonical(c, headers, httpMethod, uri, t, payload);
    PreparedValues(c, headers, uri.host, time, "host");
    PreparedValues(c, headers, uri.host, time, "x-amz-date");
    PreparedValues(c, headers, uri.host, time, "x-amz-security-token");
    AuthorizeValues(c, prepared, FormatDate(t), time, canonical, "host");
    AuthorizeValues(c, prepared, FormatDate(t), time, canonical, "x-amz-date");
    AuthorizeValues(c, prepared, FormatDate(t), time, canonical, "x-amz-security-token");
  }

  /** Signing adds one `Authorization` value, after those the caller had set, exactly when the
      query is well formed. */
  lemma {:induction false} SigningAddsAuthorization(c: Config, headers: Multimap, httpMethod: string,
                                                    uri: Uri, t: DateTime, payload: Bytes)
    ensures var before := Values(headers, "Authorization");
      var after := Values(SignedHeaders(c, headers, httpMethod, uri, t, payload), "Authorization");
      |after| == |before| + (if ParseQuery(uri.query).Ok? then 1 else 0) && after[..|before|] == before
  {
    var time := FormatTime(t);
    var prepared := PreparedHeaders(c, headers, uri.host, time);
    var canonical := SigningCanonical(c, headers, httpMethod, uri, t, payload);
    PreparedValues(c, headers, uri.host, time, "Authorization");
    AuthorizeValues(c, prepared, FormatDate(t), time, canonical, "Authorization");
    SigningFailsOnlyOnQuery(c, headers, httpMethod, uri, t, payload);
  }

  /** A string without capital letters. */
  predicate NoUpper(s: string)
  {
    forall i :: 0 <= i < |s| ==> !('A' <= s[i] <= 'Z')
  }

  lemma {:induction false} LowerOfNoUpper(s: string)
    requires NoUpper(s)
    ensures Lower(s) == s
  {
    assert forall i :: 0 <= i < |s| ==> LowerChar(s[i]) == s[i];
  }

  /** The signed names are already lower case. */
  lemma {:induction false} SignedNamesAreLower(c: Config)
    ensures forall i :: 0 <= i < |SignedNames(c)| ==> Lower(SignedNames(c)[i]) == SignedNames(c)[i]
  {
    var names := SignedNames(c);
    forall i | 0 <= i < |names| ensures Lower(names[i]) == names[i] {
      LowerOfNoUpper(names[i]);
    }
  }

  /** The names announced in `SignedHeaders=` are the signed-header line of the canonical
      request. */
  lemma {:induction false} SignedLineIsNames(c: Config)
    ensures SignedHeaderLine(SignedNames(c)) == Join(";", SignedNames(c))
  {
    SignedNamesAreLower(c);
    LowerAllOfLower(SignedNames(c));
  }

  /** What is signed ends with the hex SHA-256 of the payload: the bytes written are the bytes
      signed. */
  lemma {:induction false} SigningCoversPayload(c: Config, headers: Multimap, httpMethod: string,
                                                uri: Uri, t: DateTime, payload: Bytes)
    requires ParseQuery(uri.query).Ok?
    ensures var canonical := SigningCanonical(c, headers, httpMethod, uri, t, payload);
      canonical.Ok? && EndsWithLine(canonical.value, LowerHex(c.crypto.sha256(payload)))
  {
    var prepared := PreparedHeaders(c, headers, uri.host, FormatTime(t));
    PreparedHasSigned(c, headers, uri.host, FormatTime(t));
    CanonicalRequestEndsWithPayload(httpMethod, uri, SignedNames(c), prepared, Some(payload), c.crypto.sha256);
    assert PayloadToken(Some(payload), c.crypto.sha256) == LowerHex(c.crypto.sha256(payload));
  }

  /** Neither time stamp holds a line break. */
  lemma {:induction false} StampsHaveNoLineBreak(t: DateTime)
    ensures '\n' !in FormatDate(t) && '\n' !in FormatTime(t)
  {
    var date, time := FormatDate(t), FormatTime(t);
    TimeStampShape(t);
    TimeStampChars(t);
    assert forall i :: 0 <= i < |date| ==> date[i] == time[i];
  }

  /** A value added under a name is that name's last value. */
  lemma {:induction false} AddedLast(m: Multimap, name: string, value: string)
    ensures var values := Values(Add(m, name, value), name);
      values != [] && values[|values| - 1] == value
  {
  }

  /** The `Authorization` value names the scope that is the third line of the string to sign
      and the names that are the canonical request's signed-header line. */
  lemma {:induction false} AuthorizeMatchesSigning(c: Config, prepared: Multimap, date: string, time: string, text: string)
    requires '\n' !in date && '\n' !in time && '\n' !in Show(c.region) && '\n' !in Show(c.service)
    ensures var toSign := StringToSign(c, text, date, time);
      var lines := Fields(toSign, '\n');
      var values := Values(Authorize(c, prepared, date, time, Ok(text)), "Authorization");
      |lines| == 4 && values != [] &&
      values[|values| - 1] == Algorithm + " Credential=" + Show(c.accessKeyId) + "/" + lines[2]
        + ", SignedHeaders=" + SignedHeaderLine(SignedNames(c))
        + ", Signature=" + Show(CalculateSignature(c, Utf8(toSign), date))
  {
    var signature := CalculateSignature(c, Utf8(StringToSign(c, text, date, time)), date);
    var header := AuthorizationHeader(c, date, SignedNames(c), signature);
    assert Authorize(c, prepared, date, time, Ok(text)) == Add(prepared, "Authorization", header);
    AddedLast(prepared, "Authorization", header);
    SignedNamesAreLower(c);
    AuthorizationMatchesSigning(c, text, date, time, SignedNames(c), signature);
  }

  /** The `Authorization` value signing adds is the one the string to sign calls for. */
  lemma {:induction false} AuthorizationMatchesRequest(c: Config, headers: Multimap, httpMethod: string,
                                                       uri: Uri, t: DateTime, payload: Bytes)
    requires ParseQuery(uri.query).Ok?
    requires '\n' !in Show(c.region) && '\n' !in Show(c.service)
    ensures var canonical := SigningCanonical(c, headers, httpMethod, uri, t, payload);
      var toSign := StringToSign(c, canonical.value, FormatDate(t), FormatTime(t));
      var lines := Fields(toSign, '\n');
      var values := Values(SignedHeaders(c, headers, httpMethod, uri, t, payload), "Authorization");
      canonical.Ok? && |lines| == 4 && values != [] &&
      values[|values| - 1] == Algorithm + " Credential=" + Show(c.accessKeyId) + "/" + lines[2]
        + ", SignedHeaders=" + SignedHeaderLine(SignedNames(c))
        + ", Signature=" + Show(CalculateSignature(c, Utf8(toSign), FormatDate(t)))
  {
    var canonical := SigningCanonical(c, headers, httpMethod, uri, t, payload);
    SigningFailsOnlyOnQuery(c, headers, httpMethod, uri, t, payload);
    StampsHaveNoLineBreak(t);
    AuthorizeMatchesSigning(c, PreparedHeaders(c, headers, uri.host, FormatTime(t)), FormatDate(t), FormatTime(t), canonical.value);
  }

  // ---------------------------------------------------------------------------------------
  // The streams and the request.

  /** The stream the entity finally goes to. */
  class Sink {
    var written: Bytes

    constructor ()
      ensures written == []
    {
      written := [];
    }

    method Write(b: Byte)
      modifies this
      ensures written == old(written) + [b]
    {
      written := written + [b];
    }
  }

  /** `AWSSigningStream`: passes every byte on to `out` and keeps a copy of it. */
  class SigningStream {
    var captured: Bytes
    const out: Sink

    constructor (out: Sink)
      ensures this.out == out && captured == []
    {
      this.out := out;
      captured := [];
    }

    /** `write(int)`: both copies receive the low eight bits. */
    method Write(i: int)
      modifies this, out
      ensures captured == old(captured) + [i % 256]
      ensures out.written == old(out.written) + [i % 256]
    {
      captured := captured + [i % 256];
      out.Write(i % 256);
    }
  }

  /** `proceed()`: the body writer puts the entity's bytes through the stream one by one. */
  method WriteEntity(stream: SigningStream, body: Bytes)
    modifies stream, stream.out
    ensures stream.captured == old(stream.captured) + body
    ensures stream.out.written == old(stream.out.written) + body
  {
    var i := 0;
    while i < |body|
      invariant 0 <= i <= |body|
      invariant stream.captured == old(stream.captured) + body[..i]
      invariant stream.out.written == old(stream.out.written) + body[..i]
    {
      stream.Write(body[i]);
      TakeOneMore(body, i);
      i := i + 1;
    }
    TakeAll(body);
  }

  /** A capturing stream around `out`, with the entity written through it. */
  method Capture(out: Sink, body: Bytes) returns (payload: Bytes)
    modifies out
    ensures payload == body && out.written == old(out.written) + body
  {
    var stream := new SigningStream(out);
    WriteEntity(stream, body);
    payload := stream.captured;
  }

  /** `DeferredSigning`: what the filter saw, kept for the interceptor. */
  datatype DeferredSigning = DeferredSigning(httpMethod: string, uri: Uri, requestTime: DateTime)

  /** A request as the filter and the interceptor see it: its fixed parts, its header map and
      the `AWSSigner.deferredSigning` property, and the stream its entity goes to. */
  class Request {
    const httpMethod: string
    const uri: Uri
    const date: Option<DateTime>   // `getDate()`, already in UTC
    const hasEntity: bool
    const out: Sink
    var headers: Multimap
    var deferred: Option<DeferredSigning>

    constructor (httpMethod: string, uri: Uri, date: Option<DateTime>, hasEntity: bool, out: Sink, headers: Multimap)
      ensures this.httpMethod == httpMethod && this.uri == uri && this.date == date
      ensures this.hasEntity == hasEntity && this.out == out && this.headers == headers
      ensures deferred == None
    {
      this.httpMethod := httpMethod;
      this.uri := uri;
      this.date := date;
      this.hasEntity := hasEntity;
      this.out := out;
      this.headers := headers;
      deferred := None;
    }
  }

  // ---------------------------------------------------------------------------------------
  // The filter object.

  /** `AWSSignerClientRequestFilter` as the builder leaves it. */
  class SignerFilter {
    const config: Config

    constructor (config: Config)
      ensures this.config == config
    {
      this.config := config;
    }

    /** `prepareSignedHeaders`. */
    method PrepareSignedHeaders(req: Request, host: string, time: string) returns (signed: seq<string>)
      modifies req`headers
      ensures signed == SignedNames(config)
      ensures req.headers == PreparedHeaders(config, old(req.headers), host, time)
    {
      signed := ["host"];
      req.headers := Add(req.headers, "host", host);
      signed := signed + ["x-amz-date"];
      req.headers := Add(req.headers, "x-amz-date", time);
      if config.sessionToken.Some? {
        signed := signed + ["x-amz-security-token"];
        req.headers := Add(req.headers, "x-amz-security-token", config.sessionToken.value);
      }
    }

    /** `addAuthorizationHeader`. */
    method AddAuthorizationHeader(req: Request, date: string, signed: seq<string>, signature: Option<string>)
      modifies req`headers
      ensures req.headers == Add(old(req.headers), "Authorization", AuthorizationHeader(config, date, signed, signature))
    {
      req.headers := Add(req.headers, "Authorization", AuthorizationHeader(config, date, signed, signature));
    }

    /** `signRequest`: fails, after preparing the headers, when the query is malformed. */
    method SignRequest(req: Request, httpMethod: string, uri: Uri, t: DateTime, payload: Bytes) returns (r: Result<()>)
      modifies req`headers
      ensures req.headers == SignedHeaders(config, old(req.headers), httpMethod, uri, t, payload)
      ensures ParseQuery(uri.query).Ok? ==> r == Ok(())
      ensures ParseQuery(uri.query).Err? ==> r == Err(ParseQuery(uri.query).error)
    {
      ghost var before := req.headers;
      var time := FormatTime(t);
      var date := FormatDate(t);
      var signed := PrepareSignedHeaders(req, uri.host, time);
      PreparedHasSigned(config, before, uri.host, time);
      var canonical := GenerateCanonicalRequest(httpMethod, uri, signed, req.headers, Some(payload), config.crypto.sha256);
      assert canonical == SigningCanonical(config, before, httpMethod, uri, t, payload);
      SigningFailsOnlyOnQuery(config, before, httpMethod, uri, t, payload);
      if canonical.Err? {
        return Err(canonical.error);
      }
      var toSign := StringToSign(config, canonical.value, date, time);
      var signature := CalculateSignature(config, Utf8(toSign), date);
      AddAuthorizationHeader(req, date, signed, signature);
      r := Ok(());
    }

    /** `filter`: a request with an entity gets a note to sign once the entity is written;
        any other is signed now over an empty payload. */
    method Filter(req: Request, now: DateTime) returns (r: Result<()>)
      modifies req
      ensures var t := if req.date.Some? then req.date.value else now;
        req.hasEntity ==>
          req.headers == old(req.headers) && r == Ok(()) &&
          req.deferred == Some(DeferredSigning(req.httpMethod, req.uri, t))
      ensures var t := if req.date.Some? then req.date.value else now;
        !req.hasEntity ==>
          req.deferred == old(req.deferred) &&
          req.headers == SignedHeaders(config, old(req.headers), req.httpMethod, req.uri, t, []) &&
          r == (if ParseQuery(req.uri.query).Ok? then Ok(()) else Err(ParseQuery(req.uri.query).error))
    {
      var t := if req.date.Some? then req.date.value else now;
      if req.hasEntity {
        req.deferred := Some(DeferredSigning(req.httpMethod, req.uri, t));
        r := Ok(());
      } else {
        r := SignRequest(req, req.httpMethod, req.uri, t, []);
      }
    }

    /** `aroundWriteTo`: without the filter's note nothing happens, not even the write;
        with it the entity goes out through a capturing stream and the request is signed over
        exactly the bytes written. The note stays on the request. */
    method AroundWriteTo(req: Request, body: Bytes) returns (r: Result<()>)
      modifies req`headers, req.out
      ensures req.deferred.None? ==> req.headers == old(req.headers) && req.out.written == old(req.out.written) && r == Ok(())
      ensures req.deferred.Some? ==>
        var d := req.deferred.value;
        req.out.written == old(req.out.written) + body &&
        req.headers == SignedHeaders(config, old(req.headers), d.httpMethod, d.uri, d.requestTime, body) &&
        r == (if ParseQuery(d.uri.query).Ok? then Ok(()) else Err(ParseQuery(d.uri.query).error))
    {
      if req.deferred.None? {
        return Ok(());
      }
      r := WriteAndSign(req, req.deferred.value, body);
    }

    /** The `deferredSigning != null` branch of `aroundWriteTo`. */
    method WriteAndSign(req: Request, d: DeferredSigning, body: Bytes) returns (r: Result<()>)
      modifies req`headers, req.out
      ensures req.out.written == old(req.out.written) + body
      ensures req.headers == SignedHeaders(config, old(req.headers), d.httpMethod, d.uri, d.requestTime, body)
      ensures r == (if ParseQuery(d.uri.query).Ok? then Ok(()) else Err(ParseQuery(d.uri.query).error))
    {
      var payload := Capture(req.out, body);
      r := SignRequest(req, d.httpMethod, d.uri, d.requestTime, payload);
    }
  }
}
