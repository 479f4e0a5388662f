/** Task 1 of AWS Signature Version 4: the canonical request, as
    `AWSSignerClientRequestFilter.generateCanonicalRequest` and `params` build it. */
module Canonical {
  import opened Wrappers
  import opened Text
  import opened Order
  import opened Encoding

  /** The parts of a `java.net.URI` the signer reads: its host, its raw path and its raw
      query (null when the URI has none). */
  datatype Uri = Uri(scheme: string, host: string, path: string, query: Option<string>)

  /** One query parameter, `name=value`. */
  type Param = (string, string)

  /** A `MultivaluedMap<String, String>`: every name with its values in the order they were added. */
  type Multimap = map<string, seq<string>>

  /** `MultivaluedMap.add`: appends a value to a name's list, creating the list when absent. */
  function Add(m: Multimap, name: string, value: string): Multimap
  {
    m[name := Values(m, name) + [value]]
  }

  /** `MultivaluedMap.get` with a missing name read as no values. */
  function Values(m: Multimap, name: string): seq<string>
  {
    if name in m then m[name] else []
  }

  // ---------------------------------------------------------------------------------------
  // Step 1.3, first half: `params`, the parsing of the raw query.

  /** One parameter as `params` reads it: `split("=")`, then `nameValue[0]` and `nameValue[1]`.
      A parameter whose split has fewer than two parts throws. */
  function ParseParam(p: string): Result<Param>
  {
    var nameValue := JavaSplit(p, '=');
    if |nameValue| > 1 then Ok((nameValue[0], nameValue[1])) else Err(IndexOutOfBounds)
  }

  /** The parameters in order; the first malformed one throws. */
  function ParseParams(ps: seq<string>): Result<seq<Param>>
  {
    if ps == [] then Ok([])
    else match ParseParams(ps[..|ps| - 1])
      case Err(e) => Err(e)
      case Ok(init) =>
        match ParseParam(ps[|ps| - 1])
        case Err(e) => Err(e)
        case Ok(p) => Ok(init + [p])
  }

  /** The raw query split on `&` and parsed; a URI without a query has no parameters. */
  function ParseQuery(query: Option<string>): Result<seq<Param>>
  {
    if query.None? then Ok([]) else ParseParams(JavaSplit(query.value, '&'))
  }

  /** The multimap `params` fills, one `add` per parameter in order. Every name it holds
      has at least one value. */
  function Group(ps: seq<Param>): (m: Multimap)
    ensures forall k :: k in m ==> m[k] != []
  {
    if ps == [] then map[] else Add(Group(ps[..|ps| - 1]), ps[|ps| - 1].0, ps[|ps| - 1].1)
  }

  lemma {:induction false} ParseParamsErrorPersists(ps: seq<string>, i: nat)
    requires i <= |ps| && ParseParams(ps[..i]).Err?
    ensures ParseParams(ps) == ParseParams(ps[..i])
    decreases |ps| - i
  {
    if i < |ps| {
      TakeOfTake(ps, i);
      ParseParamsErrorPersists(ps, i + 1);
    } else {
      assert ps[..i] == ps;
    }
  }

  /** `params(queryString)`: the multimap of the query's parameters, or the exception the
      first malformed parameter raises. */
  method Params(query: Option<string>) returns (r: Result<Multimap>)
    ensures ParseQuery(query).Err? ==> r == Err(ParseQuery(query).error)
    ensures ParseQuery(query).Ok? ==> r == Ok(Group(ParseQuery(query).value))
  {
    var m: Multimap := map[];
    if query.Some? {
      var ps := JavaSplit(query.value, '&');
      ghost var parsed: seq<Param> := [];
      var i := 0;
      while i < |ps|
        invariant 0 <= i <= |ps|
        invariant ParseParams(ps[..i]) == Ok(parsed)
        invariant m == Group(parsed)
      {
        TakeOfTake(ps, i);
        var nameValue := JavaSplit(ps[i], '=');
        if |nameValue| <= 1 {
          ParseParamsErrorPersists(ps, i + 1);
          return Err(IndexOutOfBounds);
        }
        m := Add(m, nameValue[0], nameValue[1]);
        ghost var before := parsed;
        parsed := parsed + [(nameValue[0], nameValue[1])];
        InitOfAppend(before, (nameValue[0], nameValue[1]));
        i := i + 1;
      }
      TakeAll(ps);
    }
    return Ok(m);
  }

  /** A parameter without a value part throws, with or without its `=`. */
  lemma {:induction false} ParamWithoutValueFails(name: string)
    requires '=' !in name
    ensures ParseParam(name) == Err(IndexOutOfBounds)
    ensures ParseParam(name + "=") == Err(IndexOutOfBounds)
  {
    FieldsNoSep(name, '=');
    FieldsConcat(name, "", '=');
    assert name + "=" == name + ['='] + "";
  }

  /** A well-formed `name=value` parameter reads back as its name and value. */
  lemma {:induction false} ParamWithValue(name: string, value: string)
    requires '=' !in name && '=' !in value && value != ""
    ensures ParseParam(name + "=" + value) == Ok((name, value))
  {
    FieldsNoSep(name, '=');
    FieldsNoSep(value, '=');
    FieldsConcat(name, value, '=');
    assert name + "=" + value == name + ['='] + value;
  }

  /** `name=value` for each parameter. */
  function Render(ps: seq<Param>): (r: seq<string>)
    ensures |r| == |ps| && forall i :: 0 <= i < |ps| ==> r[i] == ps[i].0 + "=" + ps[i].1
  {
    seq(|ps|, i requires 0 <= i < |ps| => ps[i].0 + "=" + ps[i].1)
  }

  /** Whether a parameter survives the trip through a query string unchanged. */
  predicate PlainParam(p: Param)
  {
    '=' !in p.0 && '&' !in p.0 && '=' !in p.1 && '&' !in p.1 && p.1 != ""
  }

  lemma {:induction false} ParseRenderedParams(ps: seq<Param>)
    requires forall i :: 0 <= i < |ps| ==> PlainParam(ps[i])
    ensures ParseParams(Render(ps)) == Ok(ps)
  {
    if ps != [] {
      var n := |ps| - 1;
      assert Render(ps)[..n] == Render(ps[..n]);
      ParseRenderedParams(ps[..n]);
      ParamWithValue(ps[n].0, ps[n].1);
      SplitLast(ps);
    }
  }

  lemma {:induction false} RenderedParamsHaveNoAmpersand(ps: seq<Param>)
    requires forall i :: 0 <= i < |ps| ==> PlainParam(ps[i])
    ensures forall i :: 0 <= i < |ps| ==> '&' !in Render(ps)[i] && Render(ps)[i] != ""
  {
    forall i | 0 <= i < |ps| ensures '&' !in Render(ps)[i] {
      assert Render(ps)[i] == ps[i].0 + "=" + ps[i].1;
    }
  }

  /** Parsing undoes rendering: a query built from plain parameters reads back as exactly
      those parameters, in order. */
  lemma {:induction false} QueryRoundTrip(ps: seq<Param>)
    requires ps != [] && forall i :: 0 <= i < |ps| ==> PlainParam(ps[i])
    ensures ParseQuery(Some(Join("&", Render(ps)))) == Ok(ps)
  {
    var items := Render(ps);
    var q := Join("&", items);
    RenderedParamsHaveNoAmpersand(ps);
    FieldsOfJoin(items, '&');
    assert JavaSplit(q, '&') == items by {
      if '&' !in q {
        FieldsNoSep(q, '&');
      } else {
        assert items[|items| - 1] != "";
      }
    }
    ParseRenderedParams(ps);
  }

  /** `split` with limit 0 drops trailing empty fields: `&`s at the end of a query change nothing. */
  lemma {:induction false} TrailingSeparatorsDropped(ps: seq<Param>)
    requires ps != [] && forall i :: 0 <= i < |ps| ==> PlainParam(ps[i])
    ensures ParseQuery(Some(Join("&", Render(ps)) + "&&")) == Ok(ps)
  {
    var items := Render(ps);
    RenderedParamsHaveNoAmpersand(ps);
    FieldsOfJoin(items, '&');
    assert items[|items| - 1] != "";
    SplitDropsTrailing(Join("&", items), '&', items);
    ParseRenderedParams(ps);
  }

  /** An empty field before a non-empty one is a parameter without `=`, so the query throws. */
  lemma {:induction false} EmptyFieldFails(ps: seq<Param>, qs: seq<Param>)
    requires ps != [] && forall i :: 0 <= i < |ps| ==> PlainParam(ps[i])
    requires qs != [] && forall i :: 0 <= i < |qs| ==> PlainParam(qs[i])
    ensures ParseQuery(Some(Join("&", Render(ps)) + "&&" + Join("&", Render(qs)))) == Err(IndexOutOfBounds)
  {
    var a, b := Render(ps), Render(qs);
    RenderedParamsHaveNoAmpersand(ps);
    RenderedParamsHaveNoAmpersand(qs);
    FieldsOfJoin(a, '&');
    FieldsOfJoin(b, '&');
    assert b[|b| - 1] != "";
    SplitKeepsInnerEmpty(Join("&", a), Join("&", b), '&', a, b);
    var xs := a + [""] + b;
    ParseRenderedParams(ps);
    ParamWithoutValueFails("");
    assert xs[..|a| + 1][..|a|] == a;
    assert ParseParams(xs[..|a| + 1]) == Err(IndexOutOfBounds);
    ParseParamsErrorPersists(xs, |a| + 1);
  }

  // ---------------------------------------------------------------------------------------
  // Step 1.2: the canonical URI.

  /** The non-empty strings of a list, in order. */
  function NonEmpty(xs: seq<string>): (r: seq<string>)
    ensures forall i :: 0 <= i < |r| ==> r[i] != ""
  {
    if xs == [] then []
    else NonEmpty(xs[..|xs| - 1]) + (if xs[|xs| - 1] == "" then [] else [xs[|xs| - 1]])
  }

  function EncodeAll(xs: seq<string>): (r: seq<string>)
    ensures |r| == |xs| && forall i :: 0 <= i < |xs| ==> r[i] == UrlEncode(xs[i])
  {
    seq(|xs|, i requires 0 <= i < |xs| => UrlEncode(xs[i]))
  }

  /** The canonical URI of a path split on `/`, in closed form: a `/`, the encoded non-empty
      segments separated by single slashes, and a final `/` when the path ends in an empty
      segment after a non-empty one. Empty segments (from `//` or the leading `/`) vanish. */
  function PathOf(segments: seq<string>): string
  {
    if segments == [] then ""
    else
      var kept := NonEmpty(segments);
      "/" + Join("/", EncodeAll(kept))
      + (if segments[|segments| - 1] == "" && kept != [] then "/" else "")
  }

  /** Step 1.2 as specified: a blank path gives `/`, any other the closed form over its
      `split("/", -1)` segments. */
  function CanonicalPath(path: string): string
  {
    if IsBlank(path) then "/" else PathOf(Fields(path, '/'))
  }

  /** One turn of the segment loop: a `/` unless the text already ends in one, then the
      encoded segment. */
  function PathStep(acc: string, segment: string): string
  {
    (if EndsInSlash(acc) then acc else acc + "/") + UrlEncode(segment)
  }

  lemma {:induction false} JoinEndsWithLast(sep: string, xs: seq<string>)
    requires xs != []
    ensures |Join(sep, xs)| >= |xs[|xs| - 1]|
    ensures Join(sep, xs)[|Join(sep, xs)| - |xs[|xs| - 1]|..] == xs[|xs| - 1]
  {
    var n := |xs| - 1;
    SplitLast(xs);
    JoinAppend(sep, xs[..n], xs[n]);
  }

  predicate EndsInSlash(s: string)
  {
    |s| > 0 && s[|s| - 1] == '/'
  }

  lemma {:induction false} NonEmptyKeepsLast(segments: seq<string>)
    requires segments != [] && segments[|segments| - 1] != ""
    ensures NonEmpty(segments) != [] && NonEmpty(segments)[|NonEmpty(segments)| - 1] == segments[|segments| - 1]
  {
  }

  lemma {:induction false} JoinLastChar(sep: string, xs: seq<string>)
    requires xs != [] && xs[|xs| - 1] != ""
    ensures Join(sep, xs) != []
    ensures Join(sep, xs)[|Join(sep, xs)| - 1] == xs[|xs| - 1][|xs[|xs| - 1]| - 1]
  {
    JoinEndsWithLast(sep, xs);
  }

  lemma {:induction false} PathOfEndsInSegment(segments: seq<string>)
    requires segments != [] && segments[|segments| - 1] != ""
    ensures !EndsInSlash(PathOf(segments))
  {
    var kept := NonEmpty(segments);
    NonEmptyKeepsLast(segments);
    var e := EncodeAll(kept);
    var u := UrlEncode(segments[|segments| - 1]);
    assert e[|e| - 1] == u;
    JoinLastChar("/", e);
    var j := Join("/", e);
    assert FormEncoded(u[|u| - 1]);
    assert PathOf(segments) == "/" + j;
  }

  /** The text built so far ends in `/` exactly when no segment has been written yet or the
      last segment was empty. */
  lemma {:induction false} PathOfEnd(segments: seq<string>)
    requires segments != []
    ensures EndsInSlash(PathOf(segments)) <==> NonEmpty(segments) == [] || segments[|segments| - 1] == ""
  {
    var kept := NonEmpty(segments);
    if segments[|segments| - 1] != "" {
      PathOfEndsInSegment(segments);
    } else if kept == [] {
      assert EncodeAll(kept) == [];
      assert PathOf(segments) == "/";
    } else {
      assert PathOf(segments) == "/" + Join("/", EncodeAll(kept)) + "/";
    }
  }

  lemma {:induction false} PathOfStepEmpty(segments: seq<string>)
    ensures PathOf(segments + [""]) == PathStep(PathOf(segments), "")
  {
    var all := segments + [""];
    InitOfAppend(segments, "");
    assert NonEmpty(all) == NonEmpty(segments);
    if segments != [] {
      PathOfEnd(segments);
    }
  }

  lemma {:induction false} PathOfAppendSegment(segments: seq<string>, s: string)
    requires s != ""
    ensures PathOf(segments + [s]) == "/" + Join("/", EncodeAll(NonEmpty(segments)) + [UrlEncode(s)])
  {
    var all := segments + [s];
    InitOfAppend(segments, s);
    var kept := NonEmpty(segments);
    assert NonEmpty(all) == kept + [s];
    assert EncodeAll(kept + [s]) == EncodeAll(kept) + [UrlEncode(s)];
  }

  lemma {:induction false} ConcatAssoc(a: string, b: string, c: string, d: string)
    ensures a + (b + c + d) == a + b + c + d
  {
  }

  lemma {:induction false} PathOfStepFirstSegment(segments: seq<string>, s: string)
    requires s != "" && NonEmpty(segments) == []
    ensures PathOf(segments + [s]) == PathStep(PathOf(segments), s)
  {
    PathOfAppendSegment(segments, s);
    assert EncodeAll(NonEmpty(segments)) + [UrlEncode(s)] == [UrlEncode(s)];
    if segments != [] {
      PathOfEnd(segments);
      assert PathOf(segments) == "/";
    }
  }

  lemma {:induction false} PathOfStepNextSegment(segments: seq<string>, s: string)
    requires s != "" && NonEmpty(segments) != []
    ensures PathOf(segments + [s]) == PathStep(PathOf(segments), s)
  {
    var e := EncodeAll(NonEmpty(segments));
    var u := UrlEncode(s);
    var j := Join("/", e);
    PathOfAppendSegment(segments, s);
    JoinAppend("/", e, u);
    assert PathOf(segments + [s]) == "/" + (j + "/" + u);
    ConcatAssoc("/", j, "/", u);
    var acc := PathOf(segments);
    PathOfEnd(segments);
    if segments[|segments| - 1] == "" {
      assert acc == "/" + j + "/";
      assert PathStep(acc, s) == acc + u;
    } else {
      assert acc == "/" + j;
      assert PathStep(acc, s) == (acc + "/") + u;
    }
  }

  lemma {:induction false} PathOfStep(segments: seq<string>, s: string)
    ensures PathOf(segments + [s]) == PathStep(PathOf(segments), s)
  {
    if s == "" {
      PathOfStepEmpty(segments);
    } else if NonEmpty(segments) == [] {
      PathOfStepFirstSegment(segments, s);
    } else {
      PathOfStepNextSegment(segments, s);
    }
  }

  lemma {:induction false} PathLoopStep(segments: seq<string>, i: nat, before: string, after: string)
    requires i < |segments| && before == PathOf(segments[..i])
    requires after == PathStep(before, segments[i])
    ensures after == PathOf(segments[..i + 1])
  {
    PathOfStep(segments[..i], segments[i]);
    TakeOneMore(segments, i);
  }

  /** The path loop of step 1.2 (`path.split("/", -1)`, one `/` unless the text already
      ends in one, then the `URLEncoder`-encoded segment). */
  method BuildCanonicalPath(path: string) returns (r: string)
    ensures r == CanonicalPath(path)
  {
    if Trim(path) == "" {
      return "/";
    }
    var segments := Fields(path, '/');
    var text := "";
    for i := 0 to |segments|
      invariant text == PathOf(segments[..i])
    {
      ghost var before := text;
      if |text| == 0 || text[|text| - 1] != '/' {
        text := text + "/";
      }
      text := text + UrlEncode(segments[i]);
      PathLoopStep(segments, i, before, text);
    }
    TakeAll(segments);
    return text;
  }

  /** No two slashes in a row. */
  predicate NoDoubleSlash(s: string)
  {
    forall i :: 0 <= i < |s| - 1 ==> !(s[i] == '/' && s[i + 1] == '/')
  }

  lemma {:induction false} NoDoubleSlashConcat(a: string, b: string)
    requires NoDoubleSlash(a) && NoDoubleSlash(b)
    requires !(a != [] && b != [] && a[|a| - 1] == '/' && b[0] == '/')
    ensures NoDoubleSlash(a + b)
  {
    var c := a + b;
    forall i | 0 <= i < |c| - 1 ensures !(c[i] == '/' && c[i + 1] == '/') {
      if i + 1 < |a| {
        assert c[i] == a[i] && c[i + 1] == a[i + 1];
      } else if i >= |a| {
        assert c[i] == b[i - |a|] && c[i + 1] == b[i + 1 - |a|];
      }
    }
  }

  /** Only slashes and characters `URLEncoder` produces. */
  predicate PathChars(s: string)
  {
    forall i :: 0 <= i < |s| ==> s[i] == '/' || FormEncoded(s[i])
  }

  /** A non-empty `URLEncoder` output. */
  predicate EncodedSegment(s: string)
  {
    s != [] && forall i :: 0 <= i < |s| ==> FormEncoded(s[i])
  }

  lemma {:induction false} PathCharsConcat(a: string, b: string)
    requires PathChars(a) && PathChars(b)
    ensures PathChars(a + b)
  {
    var c := a + b;
    forall i | 0 <= i < |c| ensures c[i] == '/' || FormEncoded(c[i]) {
      if i < |a| {
        assert c[i] == a[i];
      } else {
        assert c[i] == b[i - |a|];
      }
    }
  }

  /** Joining encoded segments with `/` gives no `//`, no slash at either end and nothing but
      slashes and encoded characters. */
  lemma {:induction false} SlashJoin(xs: seq<string>)
    requires xs != []
    requires forall k :: 0 <= k < |xs| ==> EncodedSegment(xs[k])
    ensures Join("/", xs) != []
    ensures Join("/", xs)[0] != '/' && Join("/", xs)[|Join("/", xs)| - 1] != '/'
    ensures NoDoubleSlash(Join("/", xs))
    ensures PathChars(Join("/", xs))
  {
    var first := xs[0];
    assert FormEncoded(first[0]) && FormEncoded(first[|first| - 1]);
    assert NoDoubleSlash(first);
    if |xs| > 1 {
      var rest := Join("/", xs[1..]);
      SlashJoin(xs[1..]);
      assert Join("/", xs) == first + "/" + rest;
      NoDoubleSlashConcat(first, "/");
      NoDoubleSlashConcat(first + "/", rest);
      PathCharsConcat(first, "/");
      PathCharsConcat(first + "/", rest);
    }
  }

  /** The canonical URI always starts with `/`, never holds `//`, holds nothing but slashes and
      form-encoded characters, and is `/` for a blank path. */
  lemma {:induction false} CanonicalPathShape(path: string)
    ensures CanonicalPath(path) != [] && CanonicalPath(path)[0] == '/'
    ensures NoDoubleSlash(CanonicalPath(path))
    ensures PathChars(CanonicalPath(path))
    ensures IsBlank(path) ==> CanonicalPath(path) == "/"
  {
    var r := CanonicalPath(path);
    if !IsBlank(path) {
      var segments := Fields(path, '/');
      var kept := NonEmpty(segments);
      var e := EncodeAll(kept);
      var tail := if segments[|segments| - 1] == "" && kept != [] then "/" else "";
      if kept == [] {
        assert r == "/";
      } else {
        forall k | 0 <= k < |e| ensures EncodedSegment(e[k]) {
          assert |e[k]| >= |kept[k]|;
        }
        SlashJoin(e);
        var j := Join("/", e);
        assert r == "/" + j + tail;
        NoDoubleSlashConcat("/", j);
        NoDoubleSlashConcat("/" + j, tail);
        PathCharsConcat("/", j);
        PathCharsConcat("/" + j, tail);
      }
    }
  }

  // ---------------------------------------------------------------------------------------
  // Step 1.3, second half: the canonical query string.

  /** The parameters of one name, with its values in the given order. */
  function NamePairs(name: string, values: seq<string>): (r: seq<Param>)
    ensures |r| == |values| && forall i :: 0 <= i < |values| ==> r[i] == (name, values[i])
  {
    seq(|values|, i requires 0 <= i < |values| => (name, values[i]))
  }

  /** The parameters of the given names in that order, each name's values ascending. */
  function QueryPairs(names: seq<string>, m: Multimap): seq<Param>
  {
    if names == [] then []
    else
      var n := |names| - 1;
      QueryPairs(names[..n], m) + NamePairs(names[n], Sort(Values(m, names[n])))
  }

  /** Step 1.3 as specified: names ascending, each name's values ascending, `name=value`
      joined by `&`; no parameters give the empty line. */
  ghost function CanonicalQuery(m: Multimap): string
  {
    Join("&", Render(QueryPairs(SortedSet(m.Keys), m)))
  }

  /** The keys of a map in whatever order iteration yields them. */
  method KeysOf(m: Multimap) returns (keys: seq<string>)
    ensures multiset(keys) == multiset(m.Keys)
  {
    keys := [];
    var rest := m.Keys;
    while rest != {}
      invariant rest <= m.Keys
      invariant multiset(keys) + multiset(rest) == multiset(m.Keys)
      decreases rest
    {
      var k :| k in rest;
      assert multiset(rest) == multiset(rest - {k}) + multiset{k} by {
        assert rest == (rest - {k}) + {k};
      }
      keys := keys + [k];
      rest := rest - {k};
    }
  }

  /** What the value loop appends for one name: `name=value&` per value. */
  function NameText(name: string, values: seq<string>): string
  {
    if values == [] then ""
    else
      var n := |values| - 1;
      NameText(name, values[..n]) + (name + "=" + values[n] + "&")
  }

  /** What the name loop appends: each name's values, ascending. */
  function QueryText(names: seq<string>, m: Multimap): string
  {
    if names == [] then ""
    else
      var n := |names| - 1;
      QueryText(names[..n], m) + NameText(names[n], Sort(Values(m, names[n])))
  }

  lemma {:induction false} RenderConcat(a: seq<Param>, b: seq<Param>)
    ensures Render(a + b) == Render(a) + Render(b)
  {
  }

  lemma {:induction false} NameTextIsTerminated(name: string, values: seq<string>)
    ensures NameText(name, values) == Terminated("&", Render(NamePairs(name, values)))
  {
    if values != [] {
      var n := |values| - 1;
      var x := name + "=" + values[n];
      var rendered := Render(NamePairs(name, values[..n]));
      NameTextIsTerminated(name, values[..n]);
      SplitLast(values);
      assert NamePairs(name, values) == NamePairs(name, values[..n]) + [(name, values[n])];
      RenderConcat(NamePairs(name, values[..n]), [(name, values[n])]);
      assert Render([(name, values[n])]) == [x];
      assert Render(NamePairs(name, values)) == rendered + [x];
      TerminatedAppend("&", rendered, x);
      AppendAssoc(NameText(name, values[..n]), x, "&");
    }
  }

  lemma {:induction false} QueryTextIsTerminated(names: seq<string>, m: Multimap)
    ensures QueryText(names, m) == Terminated("&", Render(QueryPairs(names, m)))
  {
    if names != [] {
      var n := |names| - 1;
      var values := Sort(Values(m, names[n]));
      QueryTextIsTerminated(names[..n], m);
      NameTextIsTerminated(names[n], values);
      RenderConcat(QueryPairs(names[..n], m), NamePairs(names[n], values));
      TerminatedConcat("&", Render(QueryPairs(names[..n], m)), Render(NamePairs(names[n], values)));
    }
  }

  lemma {:induction false} ValueLoopStep(prefix: string, name: string, values: seq<string>, j: nat, before: string, after: string)
    requires j < |values| && before == prefix + NameText(name, values[..j])
    requires after == before + (name + "=" + values[j] + "&")
    ensures after == prefix + NameText(name, values[..j + 1])
  {
    TakeOfTake(values, j);
    AppendAssoc(prefix, NameText(name, values[..j]), name + "=" + values[j] + "&");
  }

  lemma {:induction false} NameLoopStep(names: seq<string>, i: nat, m: Multimap, text: string)
    requires i < |names| && names[i] in m
    requires text == QueryText(names[..i], m) + NameText(names[i], Sort(m[names[i]]))
    ensures text == QueryText(names[..i + 1], m)
  {
    TakeOfTake(names, i);
  }

  /** With at least one name, and values for every name, there is at least one parameter. */
  lemma {:induction false} QueryPairsNonEmpty(names: seq<string>, m: Multimap)
    requires names != [] && Values(m, names[|names| - 1]) != []
    ensures QueryPairs(names, m) != []
  {
    var values := Values(m, names[|names| - 1]);
    assert |multiset(Sort(values))| == |multiset(values)|;
  }

  /** Any sorted arrangement of the names is the one the canonical query uses. */
  lemma {:induction false} SortedNames(m: Multimap, names: seq<string>)
    requires Sorted(names) && multiset(names) == multiset(m.Keys)
    ensures names == SortedSet(m.Keys)
    ensures |names| == |m| && forall k :: 0 <= k < |names| ==> names[k] in m
  {
    SortedUnique(names, SortedSet(m.Keys));
    forall k | 0 <= k < |names| ensures names[k] in m {
      assert names[k] in multiset(names);
    }
    assert |multiset(names)| == |multiset(m.Keys)|;
  }

  lemma {:induction false} QueryTextDone(m: Multimap, names: seq<string>, text: string)
    requires |m| > 0 && forall k :: k in m ==> m[k] != []
    requires names == SortedSet(m.Keys) && |names| == |m| && forall k :: 0 <= k < |names| ==> names[k] in m
    requires text == QueryText(names, m)
    ensures |text| > 0 && text[..|text| - 1] == CanonicalQuery(m)
  {
    QueryTextIsTerminated(names, m);
    QueryPairsNonEmpty(names, m);
    TerminatedIsJoinPlusSep("&", Render(QueryPairs(names, m)));
  }

  /** The inner loop of step 1.3: `name=value&` appended for each of one name's values, in order. */
  method AppendValues(prefix: string, name: string, values: seq<string>) returns (text: string)
    ensures text == prefix + NameText(name, values)
  {
    text := prefix;
    for j := 0 to |values|
      invariant text == prefix + NameText(name, values[..j])
    {
      ghost var before := text;
      text := text + (name + "=" + values[j] + "&");
      ValueLoopStep(prefix, name, values, j, before, text);
    }
    TakeAll(values);
  }

  /** The query loop of step 1.3: sorted names, sorted values, `name=value&` appended for each,
      then the last `&` deleted. Requires what `params` guarantees: no name without values. */
  method BuildCanonicalQuery(m: Multimap) returns (r: string)
    requires forall k :: k in m ==> m[k] != []
    ensures r == CanonicalQuery(m)
  {
    if |m| == 0 {
      assert m.Keys == {};
      return "";
    }
    var keys := KeysOf(m);
    var names := Sort(keys);
    SortedNames(m, names);
    var text := "";
    for i := 0 to |names|
      invariant text == QueryText(names[..i], m)
    {
      text := AppendValues(text, names[i], Sort(m[names[i]]));
      NameLoopStep(names, i, m, text);
    }
    TakeAll(names);
    QueryTextDone(m, names, text);
    text := text[..|text| - 1];
    return text;
  }

  /** Each `add` keeps count: a name's list holds a value as often as the parameters hold
      that name with that value. */
  lemma {:induction false} GroupCounts(ps: seq<Param>, name: string, value: string)
    ensures multiset(Values(Group(ps), name))[value] == multiset(ps)[(name, value)]
  {
    if ps != [] {
      var n := |ps| - 1;
      GroupCounts(ps[..n], name, value);
      SplitLast(ps);
      assert multiset(ps) == multiset(ps[..n]) + multiset{ps[n]};
    }
  }

  lemma {:induction false} NamePairsCount(name: string, values: seq<string>, p: Param)
    ensures multiset(NamePairs(name, values))[p] == if p.0 == name then multiset(values)[p.1] else 0
  {
    if values != [] {
      var n := |values| - 1;
      NamePairsCount(name, values[..n], p);
      SplitLast(values);
      assert NamePairs(name, values) == NamePairs(name, values[..n]) + [(name, values[n])];
    }
  }

  /** For distinct names, the canonical pairs hold each value of each listed name, as often
      as the multimap does, and nothing else. */
  lemma {:induction false} QueryPairsCount(names: seq<string>, m: Multimap, p: Param)
    requires Distinct(names)
    ensures multiset(QueryPairs(names, m))[p] == if p.0 in names then multiset(Values(m, p.0))[p.1] else 0
  {
    if names != [] {
      var n := |names| - 1;
      var init := names[..n];
      assert Distinct(init);
      QueryPairsCount(init, m, p);
      NamePairsCount(names[n], Sort(Values(m, names[n])), p);
      SplitLast(names);
      assert p.0 in names <==> p.0 in init || p.0 == names[n];
      if p.0 == names[n] {
        assert p.0 !in init;
      }
    }
  }

  /** The canonical query lists exactly the parsed parameters: every `name=value` pair as
      often as the query holds it, none added and none lost. */
  lemma {:induction false} CanonicalPairsArePermutation(ps: seq<Param>)
    ensures multiset(QueryPairs(SortedSet(Group(ps).Keys), Group(ps))) == multiset(ps)
  {
    var m := Group(ps);
    var names := SortedSet(m.Keys);
    forall p: Param ensures multiset(QueryPairs(names, m))[p] == multiset(ps)[p] {
      QueryPairsCount(names, m, p);
      GroupCounts(ps, p.0, p.1);
      assert p.0 in names <==> p.0 in multiset(names);
    }
  }

  /** Every pair of the canonical list carries one of the listed names. */
  lemma {:induction false} QueryPairsName(names: seq<string>, m: Multimap, i: nat)
    requires i < |QueryPairs(names, m)|
    ensures QueryPairs(names, m)[i].0 in names
  {
    var n := |names| - 1;
    var init := QueryPairs(names[..n], m);
    if i < |init| {
      QueryPairsName(names[..n], m, i);
      var k :| 0 <= k < n && names[..n][k] == init[i].0;
      assert names[k] == init[i].0;
    } else {
      assert QueryPairs(names, m)[i] == NamePairs(names[n], Sort(Values(m, names[n])))[i - |init|];
    }
  }

  /** `(name, value)` order: by name, then by value. */
  predicate PairLessEq(a: Param, b: Param)
  {
    LessEq(a.0, b.0) && (a.0 == b.0 ==> LessEq(a.1, b.1))
  }

  predicate PairsSorted(ps: seq<Param>)
  {
    forall i, j :: 0 <= i < j < |ps| ==> PairLessEq(ps[i], ps[j])
  }

  lemma {:induction false} PairsSortedConcat(a: seq<Param>, b: seq<Param>)
    requires PairsSorted(a) && PairsSorted(b)
    requires forall i, j :: 0 <= i < |a| && 0 <= j < |b| ==> PairLessEq(a[i], b[j])
    ensures PairsSorted(a + b)
  {
    var all := a + b;
    forall i, j | 0 <= i < j < |all| ensures PairLessEq(all[i], all[j]) {
      if j < |a| {
        assert all[i] == a[i] && all[j] == a[j];
      } else if i >= |a| {
        assert all[i] == b[i - |a|] && all[j] == b[j - |a|];
      } else {
        assert all[i] == a[i] && all[j] == b[j - |a|];
      }
    }
  }

  lemma {:induction false} NamePairsSorted(name: string, values: seq<string>)
    requires Sorted(values)
    ensures PairsSorted(NamePairs(name, values))
  {
    var ps := NamePairs(name, values);
    forall i, j | 0 <= i < j < |ps| ensures PairLessEq(ps[i], ps[j]) {
      LessEqReflexive(name);
    }
  }

  /** Pairs for ascending distinct names come out in `(name, value)` order. */
  lemma {:induction false} QueryPairsSorted(names: seq<string>, m: Multimap)
    requires Sorted(names) && Distinct(names)
    ensures PairsSorted(QueryPairs(names, m))
  {
    if names != [] {
      var n := |names| - 1;
      var last := names[n];
      var init := QueryPairs(names[..n], m);
      var block := NamePairs(last, Sort(Values(m, last)));
      QueryPairsSorted(names[..n], m);
      NamePairsSorted(last, Sort(Values(m, last)));
      forall i, j | 0 <= i < |init| && 0 <= j < |block| ensures PairLessEq(init[i], block[j]) {
        QueryPairsName(names[..n], m, i);
        var k :| 0 <= k < n && names[..n][k] == init[i].0;
        assert names[k] == init[i].0;
      }
      PairsSortedConcat(init, block);
    }
  }

  /** The canonical query's pairs are in ascending `(name, value)` order. */
  lemma {:induction false} CanonicalPairsAreSorted(m: Multimap)
    ensures PairsSorted(QueryPairs(SortedSet(m.Keys), m))
  {
    QueryPairsSorted(SortedSet(m.Keys), m);
  }

  lemma {:induction false} QueryPairsAgree(names: seq<string>, m1: Multimap, m2: Multimap)
    requires forall i :: 0 <= i < |names| ==> Sort(Values(m1, names[i])) == Sort(Values(m2, names[i]))
    ensures QueryPairs(names, m1) == QueryPairs(names, m2)
  {
    if names != [] {
      QueryPairsAgree(names[..|names| - 1], m1, m2);
    }
  }

  /** Sorting the values makes their arrival order irrelevant. */
  lemma {:induction false} SortAgrees(a: seq<string>, b: seq<string>)
    requires multiset(a) == multiset(b)
    ensures Sort(a) == Sort(b)
  {
    SortedUnique(Sort(a), Sort(b));
  }

  /** Reordering the query's parameters does not change the canonical query. */
  lemma {:induction false} QueryOrderIrrelevant(ps1: seq<Param>, ps2: seq<Param>)
    requires multiset(ps1) == multiset(ps2)
    ensures CanonicalQuery(Group(ps1)) == CanonicalQuery(Group(ps2))
  {
    var m1 := Group(ps1);
    var m2 := Group(ps2);
    forall k ensures multiset(Values(m1, k)) == multiset(Values(m2, k)) {
      forall v ensures multiset(Values(m1, k))[v] == multiset(Values(m2, k))[v] {
        GroupCounts(ps1, k, v);
        GroupCounts(ps2, k, v);
      }
    }
    forall k ensures k in m1 <==> k in m2 {
      if k in m1 {
        assert m1[k][0] in multiset(Values(m1, k));
      }
      if k in m2 {
        assert m2[k][0] in multiset(Values(m2, k));
      }
    }
    assert m1.Keys == m2.Keys;
    var names := SortedSet(m1.Keys);
    forall i | 0 <= i < |names| ensures Sort(Values(m1, names[i])) == Sort(Values(m2, names[i])) {
      SortAgrees(Values(m1, names[i]), Values(m2, names[i]));
    }
    QueryPairsAgree(names, m1, m2);
  }

  // ---------------------------------------------------------------------------------------
  // Steps 1.4 and 1.5: the canonical headers and the signed-header list.

  /** `name:trimmed-value` for each value, in stored order. */
  function ValueLines(name: string, values: seq<string>): (r: seq<string>)
    ensures |r| == |values| && forall i :: 0 <= i < |values| ==> r[i] == name + ":" + Trim(values[i])
  {
    seq(|values|, i requires 0 <= i < |values| => name + ":" + Trim(values[i]))
  }

  /** One line per stored value of each signed header, headers in signing order, each under
      its lower-cased name. */
  function HeaderLines(signed: seq<string>, headers: Multimap): seq<string>
  {
    if signed == [] then []
    else
      var n := |signed| - 1;
      HeaderLines(signed[..n], headers) + ValueLines(Lower(signed[n]), Values(headers, signed[n]))
  }

  function LowerAll(names: seq<string>): (r: seq<string>)
    ensures |r| == |names| && forall i :: 0 <= i < |names| ==> r[i] == Lower(names[i])
  {
    seq(|names|, i requires 0 <= i < |names| => Lower(names[i]))
  }

  /** Step 1.5: the lower-cased signed names in the order given, joined by `;`. */
  function SignedHeaderLine(signed: seq<string>): string
  {
    Join(";", LowerAll(signed))
  }

  // ---------------------------------------------------------------------------------------
  // Step 1.6 and the whole request.

  /** Step 1.6: the lower-case hex SHA-256 of the payload, or `UNSIGNED-PAYLOAD` without one. */
  function PayloadToken(payload: Option<Bytes>, sha256: Bytes -> Bytes): string
  {
    if payload.Some? then LowerHex(sha256(payload.value)) else "UNSIGNED-PAYLOAD"
  }

  /** The canonical request as specified: the method verbatim, the canonical URI, the canonical
      query, one line per signed header value, an empty line, the signed-header list and the
      payload token, joined by line breaks. The query's exception when it is malformed. */
  ghost function CanonicalRequest(httpMethod: string, uri: Uri, signed: seq<string>, headers: Multimap,
                                  payload: Option<Bytes>, sha256: Bytes -> Bytes): Result<string>
    requires forall i :: 0 <= i < |signed| ==> signed[i] in headers
  {
    match ParseQuery(uri.query)
    case Err(e) => Err(e)
    case Ok(ps) =>
      Ok(Join("\n", [httpMethod, CanonicalPath(uri.path), CanonicalQuery(Group(ps))]
                    + HeaderLines(signed, headers)
                    + ["", SignedHeaderLine(signed), PayloadToken(payload, sha256)]))
  }

  lemma {:induction false} CanonicalRequestText(httpMethod: string, path: string, query: string, lines: seq<string>, signedLine: string, token: string)
    ensures Join("\n", [httpMethod, path, query] + lines + ["", signedLine, token])
         == httpMethod + "\n" + path + "\n" + query + "\n" + Terminated("\n", lines) + "\n" + signedLine + "\n" + token
  {
    var head := [httpMethod, path, query] + lines;
    var tail := ["", signedLine, token];
    JoinTerminatedPrefix("\n", head, tail);
    assert head[1..] == [path, query] + lines;
    assert head[1..][1..] == [query] + lines;
    assert head[1..][1..][1..] == lines;
    var rest := Terminated("\n", lines);
    assert Terminated("\n", head[1..][1..]) == query + "\n" + rest;
    assert Terminated("\n", head[1..]) == path + "\n" + (query + "\n" + rest);
    assert Terminated("\n", head) == httpMethod + "\n" + (path + "\n" + (query + "\n" + rest));
    assert tail[1..] == [signedLine, token];
    assert tail[1..][1..] == [token];
    assert Join("\n", tail[1..]) == signedLine + "\n" + token;
    assert Join("\n", tail) == "" + "\n" + (signedLine + "\n" + token);
  }

  /** Whether `line` is the last line of `text`, after a line break. */
  predicate EndsWithLine(text: string, line: string)
  {
    |text| >= |line| + 1 && text[|text| - |line| - 1..] == "\n" + line
  }

  /** The text after the last line break. */
  lemma {:induction false} LastLine(head: string, token: string)
    ensures EndsWithLine(head + "\n" + token, token)
  {
  }

  /** The canonical request's last line is the payload token. */
  lemma {:induction false} CanonicalRequestEndsWithPayload(httpMethod: string, uri: Uri, signed: seq<string>, headers: Multimap,
                                                           payload: Option<Bytes>, sha256: Bytes -> Bytes)
    requires forall i :: 0 <= i < |signed| ==> signed[i] in headers
    requires ParseQuery(uri.query).Ok?
    ensures var canonical := CanonicalRequest(httpMethod, uri, signed, headers, payload, sha256);
      canonical.Ok? && EndsWithLine(canonical.value, PayloadToken(payload, sha256))
  {
    var ps := ParseQuery(uri.query).value;
    var path, query, lines, signedLine := CanonicalPath(uri.path), CanonicalQuery(Group(ps)), HeaderLines(signed, headers), SignedHeaderLine(signed);
    var token := PayloadToken(payload, sha256);
    var text := Join("\n", [httpMethod, path, query] + lines + ["", signedLine, token]);
    assert CanonicalRequest(httpMethod, uri, signed, headers, payload, sha256) == Ok(text);
    var head := httpMethod + "\n" + path + "\n" + query + "\n" + Terminated("\n", lines) + "\n" + signedLine;
    CanonicalRequestText(httpMethod, path, query, lines, signedLine, token);
    assert text == head + "\n" + token;
    LastLine(head, token);
  }

  lemma {:induction false} HeaderLinesStep(signed: seq<string>, i: nat, headers: Multimap)
    requires i < |signed|
    ensures HeaderLines(signed[..i + 1], headers) == HeaderLines(signed[..i], headers) + ValueLines(Lower(signed[i]), Values(headers, signed[i]))
  {
    TakeOfTake(signed, i);
  }

  lemma {:induction false} HeaderTextStep(done: seq<string>, name: string, values: seq<string>, j: nat)
    requires j < |values|
    ensures Terminated("\n", done + ValueLines(name, values[..j + 1]))
         == Terminated("\n", done + ValueLines(name, values[..j])) + (name + ":" + Trim(values[j])) + "\n"
  {
    var line := name + ":" + Trim(values[j]);
    ValueLinesStep(name, values, j);
    TerminatedSnoc(done, ValueLines(name, values[..j]), ValueLines(name, values[..j + 1]), line);
  }

  lemma {:induction false} ValueLinesStep(name: string, values: seq<string>, j: nat)
    requires j < |values|
    ensures ValueLines(name, values[..j + 1]) == ValueLines(name, values[..j]) + [name + ":" + Trim(values[j])]
  {
    var xs, ys := ValueLines(name, values[..j]), ValueLines(name, values[..j + 1]);
    assert |ys| == |xs| + 1;
    forall i | 0 <= i < |xs|
      ensures ys[i] == xs[i]
    {
      assert values[..j + 1][i] == values[..j][i];
    }
  }

  lemma {:induction false} TerminatedSnoc(done: seq<string>, xs: seq<string>, ys: seq<string>, line: string)
    requires ys == xs + [line]
    ensures Terminated("\n", done + ys) == Terminated("\n", done + xs) + line + "\n"
  {
    assert done + ys == (done + xs) + [line];
    TerminatedAppend("\n", done + xs, line);
  }

  lemma {:induction false} SignedTextStep(signed: seq<string>, i: nat)
    requires i < |signed|
    ensures Terminated(";", LowerAll(signed[..i + 1])) == Terminated(";", LowerAll(signed[..i])) + Lower(signed[i]) + ";"
  {
    assert LowerAll(signed[..i + 1]) == LowerAll(signed[..i]) + [Lower(signed[i])];
    TerminatedAppend(";", LowerAll(signed[..i]), Lower(signed[i]));
  }

  /** The header loop of steps 1.4 and 1.5: for each signed name, its lower-cased form and `;`
      appended to the signed list and one `name:trimmed-value` line per stored value; then the
      last `;` deleted. */
  method BuildCanonicalHeaders(signed: seq<string>, headers: Multimap) returns (lines: string, signedLine: string)
    requires forall i :: 0 <= i < |signed| ==> signed[i] in headers
    ensures lines == Terminated("\n", HeaderLines(signed, headers))
    ensures signedLine == SignedHeaderLine(signed)
  {
    lines := "";
    signedLine := "";
    for i := 0 to |signed|
      invariant lines == Terminated("\n", HeaderLines(signed[..i], headers))
      invariant signedLine == Terminated(";", LowerAll(signed[..i]))
    {
      var name := Lower(signed[i]);
      SignedTextStep(signed, i);
      signedLine := signedLine + name + ";";
      var values := headers[signed[i]];
      ghost var done := HeaderLines(signed[..i], headers);
      assert done + ValueLines(name, values[..0]) == done;
      for j := 0 to |values|
        invariant lines == Terminated("\n", done + ValueLines(name, values[..j]))
      {
        HeaderTextStep(done, name, values, j);
        lines := lines + (name + ":" + Trim(values[j])) + "\n";
      }
      TakeAll(values);
      HeaderLinesStep(signed, i, headers);
    }
    TakeAll(signed);
    if |signed| > 0 {
      TerminatedIsJoinPlusSep(";", LowerAll(signed));
      signedLine := signedLine[..|signedLine| - 1];
    } else {
      assert LowerAll(signed) == [];
    }
  }

  /** `generateCanonicalRequest`: builds the canonical request with string builders, reading
      the query first, so a malformed query throws before anything else happens. */
  method GenerateCanonicalRequest(httpMethod: string, uri: Uri, signed: seq<string>, headers: Multimap,
                                  payload: Option<Bytes>, sha256: Bytes -> Bytes) returns (r: Result<string>)
    requires forall i :: 0 <= i < |signed| ==> signed[i] in headers
    ensures r == CanonicalRequest(httpMethod, uri, signed, headers, payload, sha256)
  {
    var params := Params(uri.query);
    if params.Err? {
      return Err(params.error);
    }
    var path := BuildCanonicalPath(uri.path);
    var query := BuildCanonicalQuery(params.value);
    var headerLines, signedLine := BuildCanonicalHeaders(signed, headers);
    var token := PayloadToken(payload, sha256);
    var text := httpMethod + "\n" + path + "\n" + query + "\n" + headerLines + "\n" + signedLine + "\n" + token;
    CanonicalRequestText(httpMethod, path, query, HeaderLines(signed, headers), signedLine, token);
    return Ok(text);
  }
}
