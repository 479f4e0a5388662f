# AWS Signature Version 4 request signing and the DynamoDB JSON bridge, in Dafny

This project models two parts of a small Java library of AWS helpers and proves properties of them.

- **`AWSSignerClientRequestFilter`**: a JAX-RS client filter and writer interceptor that sign
  outgoing HTTP requests with AWS Signature Version 4. It also has a presigner that puts the
  signature in the query string instead of a header. The model covers:
  - task 1, the canonical request: the method, the canonical URI, the canonical query, the
    canonical headers, the signed-header list and the payload hash;
  - task 2, the string to sign;
  - task 3, the signature and the HMAC key chain that produces it;
  - the `Authorization` header;
  - presigning;
  - the two-phase protocol. `filter` signs a request without an entity at once, and otherwise
    leaves a deferred-signing note on the request. `aroundWriteTo` then wraps the output stream,
    captures the entity's bytes as they are written, and signs with them.
- **`DynamoDBUtil`**: converts DynamoDB `AttributeValue`s to JSON-P values and back.

The files, one module each:

| file | module | what it holds |
|---|---|---|
| `wrappers.dfy` | `Wrappers` | `Option`, `Result` and the Java exceptions the core can throw |
| `text.dfy` | `Text` | the `java.lang.String` operations used: `split` with both limits, `trim`, `toLowerCase`, `String.join`, `Long.toString`, zero padding |
| `order.dfy` | `Order` | string order, insertion sort, and the sorted sequence of a set |
| `encoding.dfy` | `Encoding` | UTF-8, hex printing, `URLEncoder.encode` |
| `canonical.dfy` | `Canonical` | task 1: query parsing (`params`) and `generateCanonicalRequest` |
| `signer.dfy` | `Signer` | timestamps, tasks 2 and 3, the `Authorization` header, `presign` |
| `interceptor.dfy` | `Interceptor` | `signRequest`, `filter`, `aroundWriteTo`, the capturing stream |
| `dynamodb.dfy` | `DynamoDb` | `toJson`, the builders' `add` helpers, `addList`, `toAttribute` |

The loops of the signer are `method`s with loops, each proved equal to a
specification function written in closed form. The properties are lemmas about those
functions:

- the path loop and `CanonicalPath`;
- the query loop and `CanonicalQuery`;
- the header loop and `HeaderLines`;
- the stream writes and the captured payload.

`presign` appends its five parameters in straight-line code. `AddPresignParams` does the same
and is proved equal to `PresignQuery`. The loops of the DynamoDB converter (`toJson` of a map or
list, `toAttribute` of an object or array) build new values without changing any other state,
so they are recursive functions and comprehensions.

The filter, the request context, the capturing stream and the underlying output stream are
classes. Their fields change in place and their methods state the whole new state.

SHA-256 and HMAC-SHA256 are parameters of the model: a `Primitives` value holds two functions
on byte sequences. Everything around them is concrete: UTF-8 encoding, hex printing, URL
encoding, date formatting, splitting and sorting.

Where the documented behaviour and the code differ, the model follows the code:

- The HTTP method goes into the canonical request as given. It is not upper-cased.
- `host`, `x-amz-date` and `x-amz-security-token` are added when the request is signed. For a
  request with an entity, that is in `aroundWriteTo`, not in `filter`.
- The deferred-signing property is never removed from the request.
- A query parameter without a value makes `params` throw `ArrayIndexOutOfBoundsException`. So
  does an empty field followed by a non-empty one, such as the empty field in `a=b&&c=d` or a
  leading `&`; trailing `&`s are dropped by `split` and do no harm. The whole signing attempt then fails, and no
  `Authorization` header is added.
- When the region or the service is null, `calculateSignature` swallows the exception and
  returns null. Signing then adds `Signature=null`. Presigning fails with
  `IllegalArgumentException`, because `queryParam` refuses a null value.

## Model

| member | source | states |
|---|---|---|
| `Text.Trim` | src/main/java/AWSSignerClientRequestFilter.java:229 | the trimmed value starts and ends above U+0020, and is empty exactly when every character is at or below U+0020 |
| `Text.TrimIsSlice` | src/main/java/AWSSignerClientRequestFilter.java:229 | the trimmed value is a slice `s[i..j]` of the input with only characters at or below U+0020 before `i` and after `j` |
| `Text.TrimStartDropsBlanks` | src/main/java/AWSSignerClientRequestFilter.java:229 | dropping the leading blanks keeps a suffix of the input, and everything dropped is at or below U+0020 |
| `Text.TrimEndDropsBlanks` | src/main/java/AWSSignerClientRequestFilter.java:229 | dropping the trailing blanks keeps a prefix of the input, and everything dropped is at or below U+0020 |
| `Text.Lower` | src/main/java/AWSSignerClientRequestFilter.java:226 | lower-casing keeps the length and maps each character through the ASCII case mapping |
| `Text.StripTrailingEmpty` | src/main/java/AWSSignerClientRequestFilter.java:257-258 | `split` with limit 0 keeps a prefix of the fields that does not end in an empty field, and drops only empty fields |
| `Text.FieldsOfJoin` | src/main/java/AWSSignerClientRequestFilter.java:269-288 | splitting on a character undoes joining with it, when no part contains the character |
| `Text.SplitDropsTrailing` | src/main/java/AWSSignerClientRequestFilter.java:257 | `split` with limit 0 drops the two empty fields that two trailing separators add |
| `Text.SplitKeepsInnerEmpty` | src/main/java/AWSSignerClientRequestFilter.java:257 | two separators between two strings leave one empty field between their fields |
| `Text.FieldsInnerEmpty` | src/main/java/AWSSignerClientRequestFilter.java:257 | the fields of `p + "&&" + q` are those of `p`, one empty field, then those of `q` |
| `Order.Sort` | src/main/java/AWSSignerClientRequestFilter.java:209-211 | `stream().sorted()` yields an ascending permutation of its input |
| `Order.SortedUnique` | src/main/java/AWSSignerClientRequestFilter.java:209-211 | two ascending permutations of the same strings are equal, so the sorted order does not depend on the input order |
| `Order.SortedSet` | src/main/java/AWSSignerClientRequestFilter.java:209 | the sorted key list holds every key exactly once, in ascending order |
| `Encoding.Utf8` | src/main/java/AWSSignerClientRequestFilter.java:283 | the UTF-8 bytes are at least as many as the characters and at most four times as many |
| `Encoding.Utf8Ascii` | src/main/java/AWSSignerClientRequestFilter.java:311 | ASCII text encodes to one byte per character, the character's own code |
| `Encoding.HexUpper` | src/main/java/AWSSignerClientRequestFilter.java:299 | `printHexBinary` prints two upper-case hex digits per byte |
| `Encoding.LowerHex` | src/main/java/AWSSignerClientRequestFilter.java:322-330 | the lower-cased hex is two lower-case hex digits per byte |
| `Encoding.ParseLowerHex` | src/main/java/AWSSignerClientRequestFilter.java:299 | reading the lower-case hex back gives the original bytes, so hex printing loses nothing |
| `Encoding.UrlEncode` | src/main/java/AWSSignerClientRequestFilter.java:198 | `URLEncoder.encode` output holds only letters, digits, `.`, `-`, `*`, `_`, `+` and `%`, so never `/`, `=` or `&`, and is never shorter than its input |
| `Canonical.Group` | src/main/java/AWSSignerClientRequestFilter.java:254-267 | every name in the parameter map has at least one value |
| `Canonical.Params` | src/main/java/AWSSignerClientRequestFilter.java:254-267 | `params` returns the parsed parameters grouped by name in order, or the exception of the first malformed parameter; a missing query gives no parameters |
| `Canonical.ParseParamsErrorPersists` | src/main/java/AWSSignerClientRequestFilter.java:257-264 | once a parameter throws, the rest of the query cannot undo it |
| `Canonical.ParamWithoutValueFails` | src/main/java/AWSSignerClientRequestFilter.java:258-260 | `name` and `name=` both throw `ArrayIndexOutOfBoundsException` |
| `Canonical.ParamWithValue` | src/main/java/AWSSignerClientRequestFilter.java:258-260 | `name=value` with a non-empty value parses to the pair when neither part holds `=` |
| `Canonical.ParseRenderedParams` | src/main/java/AWSSignerClientRequestFilter.java:257-264 | parsing rendered `name=value` strings of plain pairs gives the pairs back, in order |
| `Canonical.QueryRoundTrip` | src/main/java/AWSSignerClientRequestFilter.java:254-267 | a non-empty list of plain pairs joined with `&` parses back to the same list |
| `Canonical.TrailingSeparatorsDropped` | src/main/java/AWSSignerClientRequestFilter.java:257-261 | `&&` at the end of a query of plain pairs is dropped by `split`, and the query still parses to the same pairs |
| `Canonical.EmptyFieldFails` | src/main/java/AWSSignerClientRequestFilter.java:257-261 | an empty field between two runs of plain pairs (`a=b&&c=d`) throws `ArrayIndexOutOfBoundsException` |
| `Canonical.PathLoopStep` | src/main/java/AWSSignerClientRequestFilter.java:192-199 | one turn of the segment loop extends the closed-form canonical URI by the next segment |
| `Canonical.BuildCanonicalPath` | src/main/java/AWSSignerClientRequestFilter.java:189-204 | the loop's result equals the closed form: `/`, the encoded non-empty segments separated by single slashes, and a final `/` when the path ends in `/` after a non-empty segment; a blank path gives `/` |
| `Canonical.CanonicalPathShape` | src/main/java/AWSSignerClientRequestFilter.java:189-204 | the canonical URI starts with `/`, never holds `//`, and holds only URL-encoded characters and `/`; a blank path gives `/` |
| `Canonical.KeysOf` | src/main/java/AWSSignerClientRequestFilter.java:209 | the map's key set, in iteration order: each key exactly once |
| `Canonical.AppendValues` | src/main/java/AWSSignerClientRequestFilter.java:211-214 | the inner loop appends `name=value&` for each of one name's values, in the given order, after what the builder already held |
| `Canonical.BuildCanonicalQuery` | src/main/java/AWSSignerClientRequestFilter.java:206-220 | the loop's result, with its final `&` deleted, is the parameters sorted by name and then by value, joined as `name=value` with `&` |
| `Canonical.GroupCounts` | src/main/java/AWSSignerClientRequestFilter.java:254-267 | grouping by name keeps each name's values with their multiplicities |
| `Canonical.CanonicalPairsArePermutation` | src/main/java/AWSSignerClientRequestFilter.java:206-216 | the canonical query holds exactly the parsed parameters, duplicates included |
| `Canonical.CanonicalPairsAreSorted` | src/main/java/AWSSignerClientRequestFilter.java:209-214 | the canonical query is ordered by name, and by value within a name |
| `Canonical.QueryOrderIrrelevant` | src/main/java/AWSSignerClientRequestFilter.java:206-216 | two queries holding the same parameters in any order give the same canonical query |
| `Canonical.BuildCanonicalHeaders` | src/main/java/AWSSignerClientRequestFilter.java:222-236 | the header loop writes one `name:trimmed-value` line per stored value, under the lower-cased name, in signing order; the signed-header line is the lower-cased names joined by `;` |
| `Canonical.CanonicalRequestText` | src/main/java/AWSSignerClientRequestFilter.java:184-248 | the builder's appends equal the seven parts of the canonical request joined by line breaks |
| `Canonical.CanonicalRequestEndsWithPayload` | src/main/java/AWSSignerClientRequestFilter.java:241-246 | a request whose query parses has a canonical request, and its last line is the payload's hex hash, or `UNSIGNED-PAYLOAD` without a payload |
| `Canonical.GenerateCanonicalRequest` | src/main/java/AWSSignerClientRequestFilter.java:180-249 | the method returns the canonical request (method, URI, query, header lines, empty line, signed-header line, payload token), or the exception `params` throws |
| `Signer.TimeStampShape` | src/main/java/AWSSignerClientRequestFilter.java:43-44 | the date stamp has 8 characters, and the time stamp has 16 and begins with the date stamp, followed by `T`, with a final `Z` |
| `Signer.TimeStampChars` | src/main/java/AWSSignerClientRequestFilter.java:43 | the time stamp holds only digits, `T` and `Z` |
| `Signer.ReadFormattedTime` | src/main/java/AWSSignerClientRequestFilter.java:43 | reading the time stamp's digit groups back gives the year, month, day, hour, minute and second |
| `Signer.StringToSignIsJoin` | src/main/java/AWSSignerClientRequestFilter.java:269-288 | the string to sign is the algorithm, the time stamp, the credential scope and the hex hash of the canonical request, joined by line breaks |
| `Signer.StringToSignLines` | src/main/java/AWSSignerClientRequestFilter.java:269-288 | splitting the string to sign at line breaks gives back exactly those four lines |
| `Signer.TerminatorIsUtf8` | src/main/java/AWSSignerClientRequestFilter.java:311 | the last input of the key chain is the UTF-8 encoding of `aws4_request` |
| `Signer.CalculateSignature` | src/main/java/AWSSignerClientRequestFilter.java:290-304 | a signature exists exactly when region and service are set; it is lower-case hex, 64 characters for a 32-byte MAC |
| `Signer.SignatureReadsBack` | src/main/java/AWSSignerClientRequestFilter.java:290-313 | the signature's hex reads back to the HMAC of the data under the derived signing key |
| `Signer.AuthorizationMatchesSigning` | src/main/java/AWSSignerClientRequestFilter.java:338-345 | the header's credential scope is the third line of the string to sign, and its signed-header list is the one in the canonical request |
| `Signer.AppendParam` | src/main/java/AWSSignerClientRequestFilter.java:353-358 | `queryParam` sets a missing or empty query to `name=value`, and turns any other query `q` into `q&name=value` |
| `Signer.ExpiresSeconds` | src/main/java/AWSSignerClientRequestFilter.java:357 | milliseconds divided by 1000, truncated toward zero |
| `Signer.AppendParamsToNone` | src/main/java/AWSSignerClientRequestFilter.java:353-358 | adding parameters to a URI without a query gives them joined with `&` |
| `Signer.PresignParamsArePlain` | src/main/java/AWSSignerClientRequestFilter.java:353-358 | none of the five presign parameters holds `=` or `&`, and none is empty |
| `Signer.AddPresignParams` | src/main/java/AWSSignerClientRequestFilter.java:353-358 | the loop's query equals one `queryParam` per parameter, in the order algorithm, URL-encoded credential, time stamp, expiry in seconds, `host` |
| `Signer.PresignCanonical` | src/main/java/AWSSignerClientRequestFilter.java:360-363 | the presign canonical request fails exactly when the extended query is malformed, with the same exception |
| `Signer.FinishPresign` | src/main/java/AWSSignerClientRequestFilter.java:364-369 | a failed canonical request, or a missing region or service, is an error; otherwise scheme, host and path are kept and the query is extended |
| `Signer.Presign` | src/main/java/AWSSignerClientRequestFilter.java:347-370 | the method returns the URI with the five parameters appended and then `X-Amz-Signature`, signed over a canonical request of `host` alone with `UNSIGNED-PAYLOAD`; or the exception |
| `Signer.PresignKeepsUri` | src/main/java/AWSSignerClientRequestFilter.java:353-369 | a presigned URI keeps the scheme, host and path, and has a query |
| `Signer.PresignKeepsQuery` | src/main/java/AWSSignerClientRequestFilter.java:353-369 | a presigned URI's query starts with the original query and `&` |
| `Signer.FinishRoundTrip` | src/main/java/AWSSignerClientRequestFilter.java:367-369 | the final query parses to the given parameters plus a last `X-Amz-Signature` of 64 hex digits |
| `Signer.PresignRoundTrip` | src/main/java/AWSSignerClientRequestFilter.java:347-370 | for a URI with no query or an empty one, and a full configuration, presigning succeeds, and the query parses to the five parameters and the signature, in order |
| `Signer.PresignExtendsQuery` | src/main/java/AWSSignerClientRequestFilter.java:347-370 | for a URI whose query is made of plain parameters, presigning succeeds, and the query parses to those parameters, then the five, then a 64-digit `X-Amz-Signature` |
| `Signer.QueryOfExtension` | src/main/java/AWSSignerClientRequestFilter.java:353-358 | plain parameters appended to a query of plain parameters parse back as all of them, in order |
| `Signer.PresignNeedsScope` | src/main/java/AWSSignerClientRequestFilter.java:365-368 | without a region or service, presigning fails |
| `Signer.PresignMalformedQuery` | src/main/java/AWSSignerClientRequestFilter.java:360-363 | a query that `params` rejects makes presigning fail with that exception |
| `Interceptor.SignedNames` | src/main/java/AWSSignerClientRequestFilter.java:167-178 | the signed names are `host` and `x-amz-date`, then `x-amz-security-token` exactly when there is a session token |
| `Interceptor.PreparedHasSigned` | src/main/java/AWSSignerClientRequestFilter.java:167-178 | every signed name has a value by the time the canonical request is built |
| `Interceptor.PreparedValues` | src/main/java/AWSSignerClientRequestFilter.java:167-178 | preparing appends one value to `host`, one to `x-amz-date` and, with a token, one to `x-amz-security-token`; every other header is unchanged |
| `Interceptor.AuthorizeValues` | src/main/java/AWSSignerClientRequestFilter.java:332-336 | authorizing appends one `Authorization` value when the canonical request was built and none when it threw; other headers are unchanged |
| `Interceptor.SigningFailsOnlyOnQuery` | src/main/java/AWSSignerClientRequestFilter.java:154-165 | signing throws exactly when the query is malformed, with `params`'s exception |
| `Interceptor.SigningTouchesOnlySignedHeaders` | src/main/java/AWSSignerClientRequestFilter.java:154-165 | signing leaves every header other than the signed ones and `Authorization` as it was |
| `Interceptor.SigningAppendsSignedValues` | src/main/java/AWSSignerClientRequestFilter.java:167-176 | after signing, `host` ends with the URI's host, `x-amz-date` with the time stamp, and `x-amz-security-token` with the token when there is one |
| `Interceptor.SigningAddsAuthorization` | src/main/java/AWSSignerClientRequestFilter.java:154-165 | signing appends one `Authorization` value when the query parses and none otherwise, keeping the existing values |
| `Interceptor.SignedNamesAreLower` | src/main/java/AWSSignerClientRequestFilter.java:226 | the signed names are already lower case |
| `Interceptor.SignedLineIsNames` | src/main/java/AWSSignerClientRequestFilter.java:338-340 | the canonical request's signed-header line equals the `SignedHeaders` list of the `Authorization` header |
| `Interceptor.SigningCoversPayload` | src/main/java/AWSSignerClientRequestFilter.java:241-243 | the signed canonical request ends with the hex SHA-256 of the captured payload |
| `Interceptor.AuthorizeMatchesSigning` | src/main/java/AWSSignerClientRequestFilter.java:332-345 | the new `Authorization` value names the scope in the string to sign, the signed names, and the signature of that string |
| `Interceptor.AuthorizationMatchesRequest` | src/main/java/AWSSignerClientRequestFilter.java:154-165 | for a request whose query parses, the last `Authorization` value carries the signature of the string to sign built from this request's canonical request |
| `Interceptor.SigningStream.constructor` | src/main/java/AWSSignerClientRequestFilter.java:141-145 | a new capturing stream wraps the given stream and has captured nothing |
| `Interceptor.SigningStream.Write` | src/main/java/AWSSignerClientRequestFilter.java:147-151 | each `write(int)` records the low byte in the capture buffer and passes it on to the wrapped stream |
| `Interceptor.WriteEntity` | src/main/java/AWSSignerClientRequestFilter.java:119 | writing the entity through the stream captures exactly its bytes and forwards exactly its bytes |
| `Interceptor.Capture` | src/main/java/AWSSignerClientRequestFilter.java:117-120 | the payload read from the capture buffer is the entity, and the real stream received the entity |
| `Interceptor.Request.constructor` | src/main/java/AWSSignerClientRequestFilter.java:102-106 | a request context with its method, URI, date, entity flag, stream and headers, without a deferred-signing note |
| `Interceptor.SignerFilter.constructor` | src/main/java/AWSSignerClientRequestFilter.java:46-50 | the filter holds its credentials, region and service |
| `Interceptor.SignerFilter.PrepareSignedHeaders` | src/main/java/AWSSignerClientRequestFilter.java:167-178 | returns the signed names and leaves the headers as `PreparedHeaders` describes |
| `Interceptor.SignerFilter.AddAuthorizationHeader` | src/main/java/AWSSignerClientRequestFilter.java:332-336 | appends the `Authorization` value built from the scope, the signed names and the signature |
| `Interceptor.SignerFilter.SignRequest` | src/main/java/AWSSignerClientRequestFilter.java:154-165 | leaves the headers as `SignedHeaders` describes, and throws exactly when the query is malformed |
| `Interceptor.SignerFilter.Filter` | src/main/java/AWSSignerClientRequestFilter.java:98-112 | with an entity: headers untouched, a deferred note with method, URI and time. Without one: signed over the empty payload at the request's date, or the current time when it has none |
| `Interceptor.SignerFilter.AroundWriteTo` | src/main/java/AWSSignerClientRequestFilter.java:114-123 | without a deferred note: nothing is written and nothing changes. With one: the entity is written to the real stream and the request is signed over exactly those bytes at the noted time |
| `Interceptor.SignerFilter.WriteAndSign` | src/main/java/AWSSignerClientRequestFilter.java:116-122 | the deferred branch: forward the entity, then sign over what was captured |
| `DynamoDb.ObjectEntry` | src/main/java/DynamoDBUtil.java:60-74 | an object builder takes every converted value except a string or number set; null becomes a JSON null |
| `DynamoDb.AddToObject` | src/main/java/DynamoDBUtil.java:60-74 | `add(key, value, object)` sets the key unless the value is a string or number set, and leaves other keys alone |
| `DynamoDb.ArrayEntry` | src/main/java/DynamoDBUtil.java:76-89 | an array builder throws `NullPointerException` on null, silently drops a set, and otherwise takes the same entry as an object builder |
| `DynamoDb.AddToArray` | src/main/java/DynamoDBUtil.java:76-89 | `add(value, array)` appends at most one element and keeps the earlier ones; it throws on null |
| `DynamoDb.AddList` | src/main/java/DynamoDBUtil.java:29-36 | a non-empty list of objects is stored under the key as an array of those objects, in order; an empty list adds nothing |
| `DynamoDb.ToJson` | src/main/java/DynamoDBUtil.java:91-137 | a string wins over every other member; the conversion can only throw `NullPointerException`, and only through a non-empty map or list when no scalar is set |
| `DynamoDb.ToJsonPriority` | src/main/java/DynamoDBUtil.java:97-136 | the members decide in the order `s`, `n`, `bool`, `b` (null, even beside a map or list), `nul` true (JSON null), non-empty `m`, non-empty `l`, non-empty `ss`, non-empty `ns` (the list itself); an empty map or list passes on, and `bs` alone or nothing gives null |
| `DynamoDb.NullableToJson` | src/main/java/DynamoDBUtil.java:94-96 | a null attribute value converts to null |
| `DynamoDb.ObjectToJson` | src/main/java/DynamoDBUtil.java:49-58 | converting a map throws exactly when some entry's conversion throws |
| `DynamoDb.ObjectToJsonEntries` | src/main/java/DynamoDBUtil.java:49-74 | a converted map has one field per key whose value is not a set, holding that value's entry |
| `DynamoDb.NullableMapToJson` | src/main/java/DynamoDBUtil.java:49-52 | a null map converts to null; otherwise the result is an object, or the exception of an entry |
| `DynamoDb.ArrayToJson` | src/main/java/DynamoDBUtil.java:38-47 | a converted list has at most as many elements, and the only exception is `NullPointerException` |
| `DynamoDb.ArrayToJsonFails` | src/main/java/DynamoDBUtil.java:38-47 | converting a list throws exactly when some element throws or converts to null, such as a binary value |
| `DynamoDb.NullableListToJson` | src/main/java/DynamoDBUtil.java:38-41 | a null list converts to null; otherwise the result is an array or an exception |
| `DynamoDb.ArrayToJsonKeepsAll` | src/main/java/DynamoDBUtil.java:38-47 | a list whose every element is kept converts to their entries, in order |
| `DynamoDb.ObjectToJsonKeepsAll` | src/main/java/DynamoDBUtil.java:49-58 | a map whose every value is kept converts to an object with the same keys and their entries |
| `DynamoDb.MapToJson` | src/main/java/DynamoDBUtil.java:117-119 | an attribute value holding only a non-empty map converts to the object of that map |
| `DynamoDb.ListToJson` | src/main/java/DynamoDBUtil.java:120-122 | an attribute value holding only a non-empty list converts to the array of that list |
| `DynamoDb.ToAttribute` | src/main/java/DynamoDBUtil.java:155-177 | each JSON kind sets exactly its own member (string, number, bool, `nul` true, map, list) and nothing else |
| `DynamoDb.ObjectToAttributes` | src/main/java/DynamoDBUtil.java:139-145 | the attribute map has the object's keys, each holding its field converted |
| `DynamoDb.ArrayToAttributes` | src/main/java/DynamoDBUtil.java:147-153 | the attribute list has one converted element per array element, in order |
| `DynamoDb.NullableToAttribute` | src/main/java/DynamoDBUtil.java:156-158 | null converts to null, and only null does |
| `DynamoDb.AttributesOfFields` | src/main/java/DynamoDBUtil.java:162-163 | an object converts to the attribute value holding only the map of its converted fields |
| `DynamoDb.AttributesOfItems` | src/main/java/DynamoDBUtil.java:164-165 | an array converts to the attribute value holding only the list of its converted elements |
| `DynamoDb.ObjectComesBack` | src/main/java/DynamoDBUtil.java:117-118 | an object whose fields all survive the round trip survives it too |
| `DynamoDb.ArrayComesBack` | src/main/java/DynamoDBUtil.java:120-121 | an array whose elements all survive the round trip survives it too |
| `DynamoDb.JsonRoundTrip` | src/main/java/DynamoDBUtil.java:91-177 | JSON without empty objects or arrays at any depth converts to attribute values and back unchanged |
| `DynamoDb.MapComesBack` | src/main/java/DynamoDBUtil.java:117-118 | an attribute map whose values all survive the round trip survives it too |
| `DynamoDb.ListComesBack` | src/main/java/DynamoDBUtil.java:120-121 | an attribute list whose elements all survive the round trip survives it too |
| `DynamoDb.AttributeRoundTrip` | src/main/java/DynamoDBUtil.java:91-177 | an attribute value with exactly one string, number, bool, `nul` true, non-empty map or non-empty list member, at every depth, converts to JSON and back unchanged |
| `DynamoDb.EmptyContainersAreLost` | src/main/java/DynamoDBUtil.java:117-122 | an empty object or array does not survive: it becomes null, an object field holding it becomes a JSON null, and a list element holding it throws |

## Left out

- SHA-256 and HMAC-SHA256 are function values supplied with the configuration. The model proves nothing about them, and `FullSize` states as a hypothesis that they return 32 bytes.
- `getCredentialScope` and the other string formats print a null configuration string as `null`. The access key, secret key, region and service are `Option` values for that reason.
- The clock is a parameter: `Filter` and `Presign` take the current UTC time.
- `Interceptor.SignerFilter.SignRequest`: the session-token supplier is a fixed `Option` in the filter's configuration, so every signing sees the same token. A supplier whose `get` returns a different token each time, or one that returns null, is not modelled; what the header map then stores for `x-amz-security-token` depends on the JAX-RS implementation of `add`.
- Dates are records of year, month, day, hour, minute and second. Years run from 1 to 9999. Calendar validity is not checked, and time-zone conversion of the request date is not modelled.
- `java.net.URI` and `UriBuilder` are reduced to scheme, host, raw path and raw query. Jersey's encoding of `queryParam` values (percent-encoding of characters not allowed in a query, such as a `+` that `URLEncoder` made from a space in the credential) is assumed to be the identity. The model does not prove this; `PlainParam` only rules out `=`, `&` and the empty value.
- Header maps are case-sensitive maps from name to a list of strings. Jersey's header map is case-insensitive and can hold non-`String` objects; a non-`String` or null value of a signed header (a `ClassCastException` or `NullPointerException`) is not modelled, nor is a null host.
- `toLowerCase` maps ASCII letters only, and string order compares code points, not UTF-16 units. The two differ only outside the Basic Multilingual Plane and for non-ASCII capitals.
- `Signer.CalculateSignature`: only the null region or service is modelled as the caught exception; a missing `HmacSHA256` or `UTF8` provider is not.
- `Canonical.GenerateCanonicalRequest`: `NoSuchAlgorithmException` from `hexHash` (the `IOException` path) is not modelled.
- `Interceptor.SignerFilter.AroundWriteTo`: an `IOException` from the entity writer during `proceed`, and any other interceptor in the chain, are left out; the entity is a byte sequence written one byte at a time.
- `Interceptor.SignerFilter.Filter`: the JAX-RS runtime, property storage and the order in which Jersey invokes filters and interceptors are left out; the deferred note is a field of the request.
- `Signer.ExpiresSeconds`: the expiration arrives in milliseconds as an unbounded integer. The `ArithmeticException` that `Duration.toMillis` throws when the milliseconds overflow a `long` is not modelled.
- Exceptions are `Result` values. The exceptions modelled are `ArrayIndexOutOfBoundsException`, `NullPointerException` and `IllegalArgumentException`.
- `DynamoDb.ToJson`: numbers are text. `new BigDecimal(n)` is assumed to accept the text and to print it back unchanged; `NumberFormatException` and scientific-notation rewriting are not modelled.
- `DynamoDb.ObjectToJson`: JSON object key order is not modelled (objects are maps).
- Java nulls inside nested attribute maps and lists are not modelled. A top-level null is (`NullableToJson`, `NullableMapToJson`, `NullableListToJson`, `NullableToAttribute`).
- `compress` and `decompress` (src/main/java/DynamoDBUtil.java:179-222), GZIP and Base64, are not modelled.
- The other helpers of the library (`AWSSignerHttpClient`, `KMSUtil`, `S3Util`) are not part of this model.
