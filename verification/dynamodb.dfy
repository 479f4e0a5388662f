/** `DynamoDBUtil`: DynamoDB attribute values to JSON-P values and back. */
module DynamoDb {
  import opened Wrappers
  import opened Encoding

  /** A JSON-P value. Numbers are kept as the text `toString` prints. */
  datatype Json =
    | JString(text: string)
    | JNumber(digits: string)
    | JTrue
    | JFalse
    | JNull
    | JObject(fields: map<string, Json>)
    | JArray(items: seq<Json>)

  /** An `AttributeValue` as the SDK returns it: an unset scalar is null, an unset collection
      is empty. `boolean` is the `bool` member. */
  datatype AttributeValue = AttributeValue(
    s: Option<string>, n: Option<string>, b: Option<Bytes>,
    ss: seq<string>, ns: seq<string>, bs: seq<Bytes>,
    m: map<string, AttributeValue>, l: seq<AttributeValue>,
    boolean: Option<bool>, nul: Option<bool>)

  /** `AttributeValue.builder().build()`: nothing set. */
  const Empty := AttributeValue(None, None, None, [], [], [], map[], [], None, None)

  /** What `toJson(AttributeValue)` returns as an `Object`: null, a `String`, a `BigDecimal`
      (kept as its text), a `Boolean`, a `JsonValue`, or one of the `ss`/`ns` lists itself. */
  datatype JavaObject =
    | Null
    | Str(text: string)
    | Decimal(digits: string)
    | Boolean(value: bool)
    | JsonValue(json: Json)
    | StringList(strings: seq<string>)

  // ---------------------------------------------------------------------------------------
  // The builders' `add` helpers.

  /** The entry `add(key, value, objectBuilder)` puts under its key; none for a value of any
      other type, which is silently dropped. */
  function ObjectEntry(v: JavaObject): (r: Option<Json>)
    ensures r.None? <==> v.StringList?
    ensures v.Null? ==> r == Some(JNull)
  {
    match v
    case JsonValue(j) => Some(j)
    case Str(t) => Some(JString(t))
    case Decimal(d) => Some(JNumber(d))
    case Boolean(x) => Some(if x then JTrue else JFalse)
    case Null => Some(JNull)
    case StringList(_) => None
  }

  /** `add(key, value, objectBuilder)` on the entries built so far. */
  function AddToObject(fields: map<string, Json>, key: string, v: JavaObject): (r: map<string, Json>)
    ensures key in r <==> key in fields || !v.StringList?
    ensures forall k :: k in fields && k != key ==> k in r && r[k] == fields[k]
    ensures !v.StringList? ==> r[key] == ObjectEntry(v).value
  {
    match ObjectEntry(v)
    case None => fields
    case Some(j) => fields[key := j]
  }

  /** What `add(value, arrayBuilder)` appends: nothing for a value of another type, and a
      `NullPointerException` for null, because it calls `value.equals`. */
  function ArrayEntry(v: JavaObject): (r: Result<Option<Json>>)
    ensures r.Err? <==> v.Null?
    ensures r.Ok? && r.value.None? <==> v.StringList?
    ensures r.Ok? && r.value.Some? ==> ObjectEntry(v) == r.value
  {
    match v
    case Null => Err(NullPointer)
    case StringList(_) => Ok(None)
    case _ => Ok(ObjectEntry(v))
  }

  /** `add(value, arrayBuilder)` on the elements built so far. */
  function AddToArray(items: seq<Json>, v: JavaObject): (r: Result<seq<Json>>)
    ensures r.Err? <==> v.Null?
    ensures r.Ok? ==> |r.value| == |items| + (if v.StringList? then 0 else 1) && r.value[..|items|] == items
    ensures r.Ok? && !v.StringList? ==> r.value[|items|] == ObjectEntry(v).value
  {
    match ArrayEntry(v)
    case Err(e) => Err(e)
    case Ok(None) => Ok(items)
    case Ok(Some(j)) => Ok(items + [j])
  }

  /** `addList`: the objects as an array under `key`, or no entry when there are none. */
  function AddList(fields: map<string, Json>, key: string, objects: seq<map<string, Json>>): (r: map<string, Json>)
    ensures key in r <==> key in fields || objects != []
    ensures forall k :: k in fields && k != key ==> k in r && r[k] == fields[k]
    ensures objects != [] ==>
      r[key].JArray? && |r[key].items| == |objects| &&
      forall i :: 0 <= i < |objects| ==> r[key].items[i] == JObject(objects[i])
  {
    if objects != [] then fields[key := JArray(seq(|objects|, i requires 0 <= i < |objects| => JObject(objects[i])))]
    else fields
  }

  // ---------------------------------------------------------------------------------------
  // Attribute values to JSON.

  /** `toJson(AttributeValue)`: the first of `s`, `n`, `bool`, `b`, `nul == true`, a non-empty
      `m`, `l`, `ss`, `ns` that is present decides; binary values and nothing at all give null.
      Fails only inside a map or list, where a null element reaches an array builder. */
  function ToJson(a: AttributeValue): (r: Result<JavaObject>)
    ensures a.s.Some? ==> r == Ok(Str(a.s.value))
    ensures r.Err? ==> r.error == NullPointer
    ensures r.Err? ==> a.s.None? && a.n.None? && a.boolean.None? && a.b.None? && a.nul != Some(true)
                       && (a.m != map[] || a.l != [])
    decreases a, 2
  {
    if a.s.Some? then Ok(Str(a.s.value))
    else if a.n.Some? then Ok(Decimal(a.n.value))
    else if a.boolean.Some? then Ok(Boolean(a.boolean.value))
    else if a.b.Some? then Ok(Null)
    else if a.nul == Some(true) then Ok(JsonValue(JNull))
    else if a.m != map[] then
      match ObjectToJson(a.m, a)
      case Err(e) => Err(e)
      case Ok(fields) => Ok(JsonValue(JObject(fields)))
    else if a.l != [] then
      match ArrayToJson(a.l)
      case Err(e) => Err(e)
      case Ok(items) => Ok(JsonValue(JArray(items)))
    else if a.ss != [] then Ok(StringList(a.ss))
    else if a.ns != [] then Ok(StringList(a.ns))
    else Ok(Null)   // a non-empty `bs`, or nothing set
  }

  /** The order in which `toJson` consults the members: each clause assumes every earlier
      member unset and names what the next one decides. A binary value gives null whatever
      else is set; an empty map or list passes on to the next member. */
  lemma {:induction false} ToJsonPriority(a: AttributeValue)
    ensures a.s.None? && a.n.Some? ==> ToJson(a) == Ok(Decimal(a.n.value))
    ensures a.s.None? && a.n.None? && a.boolean.Some? ==> ToJson(a) == Ok(Boolean(a.boolean.value))
    ensures a.s.None? && a.n.None? && a.boolean.None? && a.b.Some? ==> ToJson(a) == Ok(Null)
    ensures a.s.None? && a.n.None? && a.boolean.None? && a.b.None? && a.nul == Some(true) ==>
      ToJson(a) == Ok(JsonValue(JNull))
    ensures NoScalar(a) && a.m != map[] ==>
      (ToJson(a).Ok? <==> ObjectToJson(a.m, a).Ok?) &&
      (ToJson(a).Ok? ==> ToJson(a).value == JsonValue(JObject(ObjectToJson(a.m, a).value)))
    ensures NoScalar(a) && a.m == map[] && a.l != [] ==>
      (ToJson(a).Ok? <==> ArrayToJson(a.l).Ok?) &&
      (ToJson(a).Ok? ==> ToJson(a).value == JsonValue(JArray(ArrayToJson(a.l).value)))
    ensures NoScalar(a) && a.m == map[] && a.l == [] && a.ss != [] ==> ToJson(a) == Ok(StringList(a.ss))
    ensures NoScalar(a) && a.m == map[] && a.l == [] && a.ss == [] && a.ns != [] ==>
      ToJson(a) == Ok(StringList(a.ns))
    ensures NoScalar(a) && a.m == map[] && a.l == [] && a.ss == [] && a.ns == [] ==> ToJson(a) == Ok(Null)
  {
  }

  /** None of the members `toJson` consults before the map is set (`nul` only counts when true). */
  predicate NoScalar(a: AttributeValue)
  {
    a.s.None? && a.n.None? && a.boolean.None? && a.b.None? && a.nul != Some(true)
  }

  /** `toJson(Map)`: every entry converted and added under its key; `holder` is the attribute
      value the map belongs to, which bounds the recursion. */
  function ObjectToJson(attrs: map<string, AttributeValue>, ghost holder: AttributeValue): (r: Result<map<string, Json>>)
    requires holder.m == attrs
    ensures r.Err? <==> exists k :: k in attrs && ToJson(attrs[k]).Err?
    ensures r.Err? ==> r.error == NullPointer
    decreases holder, 1
  {
    if exists k :: k in attrs && ToJson(attrs[k]).Err? then Err(NullPointer)
    else Ok(map k | k in attrs && !ToJson(attrs[k]).value.StringList? :: ObjectEntry(ToJson(attrs[k]).value).value)
  }

  /** `toJson(List)`: every element converted and added in order. */
  function ArrayToJson(items: seq<AttributeValue>): (r: Result<seq<Json>>)
    ensures r.Err? ==> r.error == NullPointer
    ensures r.Ok? ==> |r.value| <= |items|
    decreases items
  {
    if items == [] then Ok([])
    else
      var n := |items| - 1;
      match ArrayToJson(items[..n])
      case Err(e) => Err(e)
      case Ok(prefix) =>
        match ToJson(items[n])
        case Err(e) => Err(e)
        case Ok(v) => AddToArray(prefix, v)
  }

  /** A map that converts keeps the keys whose values are not string or number sets, each
      with its value's entry, and no other key. */
  lemma {:induction false} ObjectToJsonEntries(attrs: map<string, AttributeValue>, holder: AttributeValue)
    requires holder.m == attrs && ObjectToJson(attrs, holder).Ok?
    ensures var fields := ObjectToJson(attrs, holder).value;
      fields.Keys <= attrs.Keys &&
      forall k :: k in attrs ==>
        (k in fields <==> !ToJson(attrs[k]).value.StringList?) &&
        (k in fields ==> Some(fields[k]) == ObjectEntry(ToJson(attrs[k]).value))
  {
  }

  /** `toJson(AttributeValue)` on a reference that may be null. */
  function NullableToJson(a: Option<AttributeValue>): (r: Result<JavaObject>)
    ensures a.None? ==> r == Ok(Null)
    ensures a.Some? ==> r == ToJson(a.value)
  {
    if a.None? then Ok(Null) else ToJson(a.value)
  }

  /** `toJson(Map)` on a reference that may be null. */
  function NullableMapToJson(attrs: Option<map<string, AttributeValue>>): (r: Result<Option<Json>>)
    ensures attrs.None? ==> r == Ok(None)
    ensures attrs.Some? ==> (r.Err? <==> exists k :: k in attrs.value && ToJson(attrs.value[k]).Err?)
    ensures attrs.Some? && r.Ok? ==> r.value.Some? && r.value.value.JObject?
  {
    if attrs.None? then Ok(None)
    else
      match ObjectToJson(attrs.value, Empty.(m := attrs.value))
      case Err(e) => Err(e)
      case Ok(fields) => Ok(Some(JObject(fields)))
  }

  /** `toJson(List)` on a reference that may be null. */
  function NullableListToJson(items: Option<seq<AttributeValue>>): (r: Result<Option<Json>>)
    ensures items.None? ==> r == Ok(None)
    ensures items.Some? && r.Ok? ==> r.value.Some? && r.value.value.JArray?
  {
    if items.None? then Ok(None)
    else
      match ArrayToJson(items.value)
      case Err(e) => Err(e)
      case Ok(elements) => Ok(Some(JArray(elements)))
  }

  /** An element a list cannot take: its conversion throws, or gives a Java null. */
  predicate Rejected(a: AttributeValue)
  {
    ToJson(a).Err? || ToJson(a) == Ok(Null)
  }

  /** A list fails exactly when its front fails or its last element is rejected. */
  lemma {:induction false} ArrayToJsonLast(items: seq<AttributeValue>)
    requires items != []
    ensures ArrayToJson(items).Err? <==> ArrayToJson(items[..|items| - 1]).Err? || Rejected(items[|items| - 1])
  {
  }

  /** A list converts without an exception exactly when no element fails and none converts to
      null. */
  lemma {:induction false} ArrayToJsonFails(items: seq<AttributeValue>)
    ensures ArrayToJson(items).Err? <==> exists i :: 0 <= i < |items| && Rejected(items[i])
  {
    if items != [] {
      var n := |items| - 1;
      var init := items[..n];
      ArrayToJsonFails(init);
      ArrayToJsonLast(items);
      if ArrayToJson(init).Err? {
        var i :| 0 <= i < n && Rejected(init[i]);
        assert items[i] == init[i] && Rejected(items[i]);
      } else if Rejected(items[n]) {
        assert 0 <= n < |items| && Rejected(items[n]);
      } else {
        assert forall i :: 0 <= i < n ==> !Rejected(init[i]);
        forall i | 0 <= i < |items| ensures !Rejected(items[i]) {
          if i < n {
            assert items[i] == init[i] && !Rejected(init[i]);
          } else {
            assert i == n;
          }
        }
        assert ArrayToJson(items).Ok?;
      }
    }
  }

  /** A value that converts to something both builders take. */
  predicate Kept(a: AttributeValue)
  {
    var r := ToJson(a);
    r.Ok? && !r.value.Null? && !r.value.StringList?
  }

  /** The JSON value a kept attribute value becomes. */
  function Entry(a: AttributeValue): Json
    requires Kept(a)
  {
    ObjectEntry(ToJson(a).value).value
  }

  /** One more kept element at the end of a list that converts adds its entry at the end. */
  lemma {:induction false} AppendKept(init: seq<AttributeValue>, x: AttributeValue, prefix: seq<Json>)
    requires ArrayToJson(init) == Ok(prefix) && Kept(x)
    ensures ArrayToJson(init + [x]) == Ok(prefix + [Entry(x)])
  {
    assert (init + [x])[..|init|] == init;
    assert (init + [x])[|init|] == x;
  }

  /** A list whose elements are all kept converts element by element, keeping length and
      order. */
  lemma {:induction false} ArrayToJsonKeepsAll(items: seq<AttributeValue>, out: seq<Json>)
    requires |out| == |items|
    requires forall i :: 0 <= i < |items| ==> Kept(items[i]) && Entry(items[i]) == out[i]
    ensures ArrayToJson(items) == Ok(out)
  {
    if items != [] {
      var n := |items| - 1;
      var init, prefix := items[..n], out[..n];
      forall i | 0 <= i < n ensures Kept(init[i]) && Entry(init[i]) == prefix[i] {
        assert init[i] == items[i] && prefix[i] == out[i];
      }
      ArrayToJsonKeepsAll(init, prefix);
      AppendKept(init, items[n], prefix);
      assert init + [items[n]] == items;
      assert prefix + [out[n]] == out;
    }
  }

  /** A map whose values are all kept converts entry by entry, keeping every key. */
  lemma {:induction false} ObjectToJsonKeepsAll(attrs: map<string, AttributeValue>, holder: AttributeValue,
                                                out: map<string, Json>)
    requires holder.m == attrs && out.Keys == attrs.Keys
    requires forall k :: k in attrs ==> Kept(attrs[k]) && Entry(attrs[k]) == out[k]
    ensures ObjectToJson(attrs, holder) == Ok(out)
  {
    forall k | k in attrs ensures ToJson(attrs[k]).Ok? {
      assert Kept(attrs[k]);
    }
    var r := ObjectToJson(attrs, holder);
    assert r.Ok?;
    forall k | k in attrs ensures k in r.value && r.value[k] == out[k] {
      assert Kept(attrs[k]);
    }
    assert r.value.Keys == out.Keys;
    assert r.value == out;
  }

  // ---------------------------------------------------------------------------------------
  // JSON to attribute values.

  /** `toAttribute(JsonValue)`: one member set per kind: `s` for a string, `n` for a number's
      text, `bool` for true and false, `nul` for null, `m` for an object, `l` for an array. */
  function ToAttribute(v: Json): (r: AttributeValue)
    ensures r.b.None? && r.ss == [] && r.ns == [] && r.bs == []
    ensures r.s.Some? <==> v.JString?
    ensures r.n.Some? <==> v.JNumber?
    ensures r.boolean.Some? <==> v.JTrue? || v.JFalse?
    ensures r.nul.Some? <==> v.JNull?
    ensures !v.JObject? ==> r.m == map[]
    ensures !v.JArray? ==> r.l == []
    ensures r.nul.Some? ==> r.nul.value
    decreases v, 1
  {
    match v
    case JString(t) => Empty.(s := Some(t))
    case JNumber(d) => Empty.(n := Some(d))
    case JTrue => Empty.(boolean := Some(true))
    case JFalse => Empty.(boolean := Some(false))
    case JNull => Empty.(nul := Some(true))
    case JObject(_) => Empty.(m := ObjectToAttributes(v))
    case JArray(items) => Empty.(l := ArrayToAttributes(items))
  }

  /** `toAttribute(JsonObject)`: the same keys, each value converted. */
  function ObjectToAttributes(obj: Json): (r: map<string, AttributeValue>)
    requires obj.JObject?
    ensures r.Keys == obj.fields.Keys
    ensures forall k :: k in r ==> r[k] == ToAttribute(obj.fields[k])
    decreases obj, 0
  {
    map k | k in obj.fields :: ToAttribute(obj.fields[k])
  }

  /** `toAttribute(JsonArray)`: the same length and order, each element converted. */
  function ArrayToAttributes(items: seq<Json>): (r: seq<AttributeValue>)
    ensures |r| == |items|
    ensures forall i :: 0 <= i < |items| ==> r[i] == ToAttribute(items[i])
    decreases items
  {
    if items == [] then []
    else
      var n := |items| - 1;
      ArrayToAttributes(items[..n]) + [ToAttribute(items[n])]
  }

  /** `toAttribute(JsonValue)` on a reference that may be null. */
  function NullableToAttribute(v: Option<Json>): (r: Option<AttributeValue>)
    ensures v.None? <==> r.None?
    ensures v.Some? ==> r.value == ToAttribute(v.value)
  {
    if v.None? then None else Some(ToAttribute(v.value))
  }

  // ---------------------------------------------------------------------------------------
  // Round trips.

  /** JSON the conversion keeps: every object and array non-empty, at every depth. */
  predicate Plain(v: Json)
    decreases v
  {
    match v
    case JObject(f) => f != map[] && forall k :: k in f ==> Plain(f[k])
    case JArray(items) => items != [] && forall i :: 0 <= i < |items| ==> Plain(items[i])
    case _ => true
  }

  /** A value that converts to a JSON value is kept, as that value. */
  lemma {:induction false} KeptAs(a: AttributeValue, v: Json)
    requires ToJson(a) == Ok(JsonValue(v))
    ensures Kept(a) && Entry(a) == v
  {
  }

  /** An attribute value holding only a non-empty map converts as the map does. */
  lemma {:induction false} MapToJson(attrs: map<string, AttributeValue>, fields: map<string, Json>)
    requires attrs != map[] && ObjectToJson(attrs, Empty.(m := attrs)) == Ok(fields)
    ensures ToJson(Empty.(m := attrs)) == Ok(JsonValue(JObject(fields)))
  {
  }

  /** An attribute value holding only a non-empty list converts as the list does. */
  lemma {:induction false} ListToJson(attrs: seq<AttributeValue>, items: seq<Json>)
    requires attrs != [] && ArrayToJson(attrs) == Ok(items)
    ensures ToJson(Empty.(l := attrs)) == Ok(JsonValue(JArray(items)))
  {
  }

  /** An object whose values come back: the whole object comes back. */
  lemma {:induction false} ObjectComesBack(f: map<string, Json>)
    requires f != map[]
    requires forall k :: k in f ==> Kept(ToAttribute(f[k])) && Entry(ToAttribute(f[k])) == f[k]
    ensures Kept(ToAttribute(JObject(f))) && Entry(ToAttribute(JObject(f))) == JObject(f)
  {
    var attrs := ObjectToAttributes(JObject(f));
    forall k | k in attrs ensures Kept(attrs[k]) && Entry(attrs[k]) == f[k] {
      assert attrs[k] == ToAttribute(f[k]);
    }
    ObjectToJsonKeepsAll(attrs, Empty.(m := attrs), f);
    var k0 :| k0 in f;
    assert k0 in attrs;
    MapToJson(attrs, f);
    KeptAs(Empty.(m := attrs), JObject(f));
    assert ToAttribute(JObject(f)) == Empty.(m := attrs);
  }

  /** An array whose elements come back: the whole array comes back. */
  lemma {:induction false} ArrayComesBack(items: seq<Json>)
    requires items != []
    requires forall i :: 0 <= i < |items| ==> Kept(ToAttribute(items[i])) && Entry(ToAttribute(items[i])) == items[i]
    ensures Kept(ToAttribute(JArray(items))) && Entry(ToAttribute(JArray(items))) == JArray(items)
  {
    var attrs := ArrayToAttributes(items);
    forall i | 0 <= i < |attrs| ensures Kept(attrs[i]) && Entry(attrs[i]) == items[i] {
      assert attrs[i] == ToAttribute(items[i]);
    }
    ArrayToJsonKeepsAll(attrs, items);
    ListToJson(attrs, items);
    KeptAs(Empty.(l := attrs), JArray(items));
    assert ToAttribute(JArray(items)) == Empty.(l := attrs);
  }

  /** JSON to attributes and back gives the same JSON, whether the value ends up under a key or
      in an array. */
  lemma {:induction false} JsonRoundTrip(v: Json)
    requires Plain(v)
    ensures Kept(ToAttribute(v)) && Entry(ToAttribute(v)) == v
    decreases v
  {
    match v
    case JObject(f) =>
      forall k | k in f ensures Kept(ToAttribute(f[k])) && Entry(ToAttribute(f[k])) == f[k] {
        JsonRoundTrip(f[k]);
      }
      ObjectComesBack(f);
    case JArray(items) =>
      forall i | 0 <= i < |items| ensures Kept(ToAttribute(items[i])) && Entry(ToAttribute(items[i])) == items[i] {
        JsonRoundTrip(items[i]);
      }
      ArrayComesBack(items);
    case _ =>
  }

  /** An attribute value with exactly one member set, at every depth, that is not binary, a
      string set, a number set, or an empty map or list. */
  predicate SingleField(a: AttributeValue)
    decreases a
  {
    || (a.s.Some? && a == Empty.(s := a.s))
    || (a.n.Some? && a == Empty.(n := a.n))
    || (a.boolean.Some? && a == Empty.(boolean := a.boolean))
    || a == Empty.(nul := Some(true))
    || (a.m != map[] && a == Empty.(m := a.m) && forall k :: k in a.m ==> SingleField(a.m[k]))
    || (a.l != [] && a == Empty.(l := a.l) && forall i :: 0 <= i < |a.l| ==> SingleField(a.l[i]))
  }

  /** Converting each entry back gives the attribute value holding the map. */
  lemma {:induction false} AttributesOfFields(fields: map<string, Json>, attrs: map<string, AttributeValue>)
    requires fields.Keys == attrs.Keys
    requires forall k :: k in fields ==> ToAttribute(fields[k]) == attrs[k]
    ensures ToAttribute(JObject(fields)) == Empty.(m := attrs)
  {
    assert ObjectToAttributes(JObject(fields)) == attrs;
  }

  /** Converting each element back gives the attribute value holding the list. */
  lemma {:induction false} AttributesOfItems(items: seq<Json>, attrs: seq<AttributeValue>)
    requires |items| == |attrs|
    requires forall i :: 0 <= i < |items| ==> ToAttribute(items[i]) == attrs[i]
    ensures ToAttribute(JArray(items)) == Empty.(l := attrs)
  {
    assert ArrayToAttributes(items) == attrs;
  }

  /** The entry of every kept value in a list, in order. */
  function Entries(attrs: seq<AttributeValue>): (r: seq<Json>)
    requires forall i :: 0 <= i < |attrs| ==> Kept(attrs[i])
    ensures |r| == |attrs| && forall i :: 0 <= i < |attrs| ==> r[i] == Entry(attrs[i])
  {
    seq(|attrs|, i requires 0 <= i < |attrs| => Entry(attrs[i]))
  }

  /** The entry of every kept value in a map, under the same keys. */
  function EntryMap(attrs: map<string, AttributeValue>): (r: map<string, Json>)
    requires forall k :: k in attrs ==> Kept(attrs[k])
    ensures r.Keys == attrs.Keys && forall k :: k in attrs ==> r[k] == Entry(attrs[k])
  {
    map k | k in attrs :: Entry(attrs[k])
  }

  /** A map whose values come back: the attribute value holding it comes back. */
  lemma {:induction false} MapComesBack(attrs: map<string, AttributeValue>)
    requires attrs != map[]
    requires forall k :: k in attrs ==> Kept(attrs[k]) && ToAttribute(Entry(attrs[k])) == attrs[k]
    ensures Kept(Empty.(m := attrs)) && ToAttribute(Entry(Empty.(m := attrs))) == Empty.(m := attrs)
  {
    var fields := EntryMap(attrs);
    ObjectToJsonKeepsAll(attrs, Empty.(m := attrs), fields);
    MapToJson(attrs, fields);
    KeptAs(Empty.(m := attrs), JObject(fields));
    forall k | k in fields ensures ToAttribute(fields[k]) == attrs[k] {
      assert fields[k] == Entry(attrs[k]);
    }
    AttributesOfFields(fields, attrs);
  }

  /** A list whose elements come back: the attribute value holding it comes back. */
  lemma {:induction false} ListComesBack(attrs: seq<AttributeValue>)
    requires attrs != []
    requires forall i :: 0 <= i < |attrs| ==> Kept(attrs[i]) && ToAttribute(Entry(attrs[i])) == attrs[i]
    ensures Kept(Empty.(l := attrs)) && ToAttribute(Entry(Empty.(l := attrs))) == Empty.(l := attrs)
  {
    var items := Entries(attrs);
    ArrayToJsonKeepsAll(attrs, items);
    ListToJson(attrs, items);
    KeptAs(Empty.(l := attrs), JArray(items));
    forall i | 0 <= i < |items| ensures ToAttribute(items[i]) == attrs[i] {
      assert items[i] == Entry(attrs[i]);
    }
    AttributesOfItems(items, attrs);
  }

  /** Attributes to JSON and back gives the same attributes. */
  lemma {:induction false} AttributeRoundTrip(a: AttributeValue)
    requires SingleField(a)
    ensures Kept(a) && ToAttribute(Entry(a)) == a
    decreases a
  {
    if a.m != map[] && a == Empty.(m := a.m) && forall k :: k in a.m ==> SingleField(a.m[k]) {
      forall k | k in a.m ensures Kept(a.m[k]) && ToAttribute(Entry(a.m[k])) == a.m[k] {
        AttributeRoundTrip(a.m[k]);
      }
      MapComesBack(a.m);
    } else if a.l != [] && a == Empty.(l := a.l) && forall i :: 0 <= i < |a.l| ==> SingleField(a.l[i]) {
      forall i | 0 <= i < |a.l| ensures Kept(a.l[i]) && ToAttribute(Entry(a.l[i])) == a.l[i] {
        AttributeRoundTrip(a.l[i]);
      }
      ListComesBack(a.l);
    }
  }

  /** An empty object or array is not kept: it comes back as null, which turns into a JSON null
      under a key and into a `NullPointerException` inside an array. */
  lemma {:induction false} EmptyContainersAreLost(key: string)
    ensures ToJson(ToAttribute(JObject(map[]))) == Ok(Null)
    ensures ToJson(ToAttribute(JArray([]))) == Ok(Null)
    ensures var attrs := map[key := ToAttribute(JObject(map[]))];
      ObjectToJson(attrs, Empty.(m := attrs)) == Ok(map[key := JNull])
    ensures ArrayToJson([ToAttribute(JArray([]))]) == Err(NullPointer)
  {
    var e := ToAttribute(JObject(map[]));
    assert e == Empty;
    assert ToJson(e) == Ok(Null);
    var attrs := map[key := e];
    assert !(exists k :: k in attrs && ToJson(attrs[k]).Err?);
    var r := ObjectToJson(attrs, Empty.(m := attrs));
    assert r.Ok? && r.value.Keys == {key};
    assert key in r.value && Some(r.value[key]) == ObjectEntry(Null);
    assert r.value == map[key := JNull];
    assert ToAttribute(JArray([])) == Empty;
    assert [ToAttribute(JArray([]))][..0] == [];
  }
}
