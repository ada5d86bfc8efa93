/**
 * Sample synthesis: the value a schema node stands for, used to fill the
 * example request body of a generated script. An explicit example wins;
 * otherwise the node's type decides (object, array, string by format,
 * integer, number, boolean, and "value" for anything else).
 *
 * The clock is a parameter: `today` and `now` are the already formatted
 * `yyyy-MM-dd` and `yyyy-MM-ddTHH:mm:ssZ` texts.
 */
module SampleSynthesis {
  import opened Wrappers
  import opened OpenApi
  import Sequences

  /** The JSON-like value a sample is made of. Numbers other than integers are literal text. */
  datatype Json =
    | JString(str: string)
    | JInteger(num: int)
    | JNumber(literal: string)
    | JBoolean(flag: bool)
    | JDateTime(instant: string)
    | JObject(entries: seq<(string, Json)>)
    | JArray(values: seq<Json>)

  datatype Clock = Clock(today: string, now: string)

  // ---------------------------------------------------------------------------
  // ConvertOpenApiAnyToObject
  // ---------------------------------------------------------------------------

  /** `ConvertOpenApiAnyToObject`: a literal example as a plain value. */
  function ConvertOpenApiAnyToObject(a: Any): (r: Json)
    ensures a.AObject? ==> r.JObject? && Keys(r.entries) == Keys(a.members)
    ensures a.AObject? ==> forall i :: 0 <= i < |a.members| ==> r.entries[i].1 == ConvertOpenApiAnyToObject(a.members[i].1)
    ensures a.AArray? ==> r.JArray? && |r.values| == |a.elements|
    ensures a.AArray? ==> forall k :: 0 <= k < |a.elements| ==> r.values[k] == ConvertOpenApiAnyToObject(a.elements[k])
    ensures a.AString? ==> r == JString(a.text)
    ensures a.AInteger? ==> r == JInteger(a.intValue)
    ensures a.ALong? ==> r == JInteger(a.longValue)
    ensures a.AFloat? ==> r == JNumber(a.floatLiteral)
    ensures a.ADouble? ==> r == JNumber(a.doubleLiteral)
    ensures a.ABoolean? ==> r == JBoolean(a.boolValue)
    ensures a.ADateTime? ==> r == JDateTime(a.stamp)
    ensures a.AOther? ==> r == JString(a.rendered.GetOr("value"))
  {
    match a
    case AString(t) => JString(t)
    case AInteger(n) => JInteger(n)
    case ALong(n) => JInteger(n)
    case AFloat(l) => JNumber(l)
    case ADouble(l) => JNumber(l)
    case ABoolean(b) => JBoolean(b)
    case ADateTime(t) => JDateTime(t)
    case AObject(ms) =>
      JObject(seq(|ms|, i requires 0 <= i < |ms| => (ms[i].0, ConvertOpenApiAnyToObject(ms[i].1))))
    case AArray(es) =>
      JArray(seq(|es|, i requires 0 <= i < |es| => ConvertOpenApiAnyToObject(es[i])))
    case AOther(rendered) => JString(rendered.GetOr("value"))
  }

  /** A literal whose conversion is `j`: every plain value can be written as an example. */
  function AsLiteral(j: Json): Any {
    match j
    case JString(t) => AString(t)
    case JInteger(n) => ALong(n)
    case JNumber(l) => ADouble(l)
    case JBoolean(b) => ABoolean(b)
    case JDateTime(t) => ADateTime(t)
    case JObject(es) => AObject(seq(|es|, i requires 0 <= i < |es| => (es[i].0, AsLiteral(es[i].1))))
    case JArray(vs) => AArray(seq(|vs|, i requires 0 <= i < |vs| => AsLiteral(vs[i])))
  }

  /** Conversion gives back the value a literal was written from, keys and order included. */
  lemma {:induction false} ConvertLiteralRoundTrip(j: Json)
    ensures ConvertOpenApiAnyToObject(AsLiteral(j)) == j
  {
    match j
    case JObject(es) =>
      forall i | 0 <= i < |es| { ConvertLiteralRoundTrip(es[i].1); }
    case JArray(vs) =>
      forall i | 0 <= i < |vs| { ConvertLiteralRoundTrip(vs[i]); }
    case _ =>
  }

  // ---------------------------------------------------------------------------
  // The object being filled: Dictionary<string, object> assignment
  // ---------------------------------------------------------------------------

  /** `obj[key] = value`: replaces the value of an existing key in place, else appends. */
  function Put(d: seq<(string, Json)>, key: string, value: Json): (r: seq<(string, Json)>)
    ensures key in Keys(d) ==> Keys(r) == Keys(d)
    ensures key !in Keys(d) ==> r == d + [(key, value)]
  {
    if d == [] then [(key, value)]
    else if d[0].0 == key then [(key, value)] + d[1..]
    else
      assert Keys(d[1..]) == Keys(d)[1..];
      [d[0]] + Put(d[1..], key, value)
  }

  /**
   * In a dictionary (distinct keys), assigning the key held at position `j`
   * replaces the value at that place and leaves every other entry as it was.
   */
  lemma {:induction false} PutReplaces(d: seq<(string, Json)>, j: nat, value: Json)
    requires DistinctKeys(d) && j < |d|
    ensures Put(d, d[j].0, value) == d[j := (d[j].0, value)]
  {
    var key := d[j].0;
    if j == 0 {
      assert Put(d, key, value) == [(key, value)] + d[1..];
    } else {
      assert d[0].0 != key;
      var t := d[1..];
      DistinctTail(d);
      assert t[j - 1] == d[j];
      PutReplaces(t, j - 1, value);
      assert Put(d, key, value) == [d[0]] + Put(t, key, value);
      Sequences.ConsUpdate(d, j - 1, (key, value));
    }
  }

  lemma DistinctTail(d: seq<(string, Json)>)
    requires DistinctKeys(d) && d != []
    ensures DistinctKeys(d[1..])
  {
    var t := d[1..];
    forall i, k | 0 <= i < k < |t| ensures t[i].0 != t[k].0 { assert t[i] == d[i + 1] && t[k] == d[k + 1]; }
  }

  /** The `foreach` over the properties, assigning each in turn. */
  function Fill(d: seq<(string, Json)>, pairs: seq<(string, Json)>): seq<(string, Json)>
    decreases |pairs|
  {
    if pairs == [] then d else Fill(Put(d, pairs[0].0, pairs[0].1), pairs[1..])
  }

  /** With distinct keys, filling appends every pair in order. */
  lemma {:induction false} FillDistinct(d: seq<(string, Json)>, pairs: seq<(string, Json)>)
    requires DistinctKeys(d + pairs)
    ensures Fill(d, pairs) == d + pairs
    decreases |pairs|
  {
    if pairs != [] {
      var k := pairs[0].0;
      assert k !in Keys(d) by {
        forall i | 0 <= i < |d| ensures d[i].0 != k {
          assert (d + pairs)[i] == d[i] && (d + pairs)[|d|] == pairs[0];
        }
      }
      var d' := d + [pairs[0]];
      assert d' + pairs[1..] == d + pairs;
      FillDistinct(d', pairs[1..]);
    }
  }

  lemma FillFromEmpty(pairs: seq<(string, Json)>)
    ensures DistinctKeys(pairs) ==> Fill([], pairs) == pairs
  {
    if DistinctKeys(pairs) {
      assert [] + pairs == pairs;
      FillDistinct([], pairs);
    }
  }

  // ---------------------------------------------------------------------------
  // GenerateSampleObjectFromSchema
  // ---------------------------------------------------------------------------

  /** The `string` case: the value chosen by the format. */
  function StringSample(format: Option<string>, clock: Clock): (r: string)
    ensures format == Some("date") ==> r == clock.today
    ensures format == Some("date-time") ==> r == clock.now
    ensures format == Some("email") ==> r == "user@example.com"
    ensures format == Some("uri") ==> r == "https://example.com"
    ensures format !in {Some("date"), Some("date-time"), Some("email"), Some("uri")} ==> r == "string"
  {
    if format == Some("date") then clock.today
    else if format == Some("date-time") then clock.now
    else if format == Some("email") then "user@example.com"
    else if format == Some("uri") then "https://example.com"
    else "string"
  }

  /** `GenerateSampleObjectFromSchema`. */
  function GenerateSampleObjectFromSchema(s: Schema, clock: Clock): (r: Json)
    ensures s.example.Some? ==> r == ConvertOpenApiAnyToObject(s.example.value)
    ensures s.example.None? && s.typeName == Some("array") ==>
              r == JArray(if s.items.Some? then [GenerateSampleObjectFromSchema(s.items.value, clock)] else [])
    ensures s.example.None? && s.typeName == Some("object") ==>
              r.JObject? && (DistinctKeys(s.properties) ==> Keys(r.entries) == Keys(s.properties))
    ensures s.example.None? && s.typeName == Some("string") ==> r == JString(StringSample(s.format, clock))
    ensures s.example.None? && s.typeName == Some("integer") ==> r == JInteger(0)
    ensures s.example.None? && s.typeName == Some("number") ==> r == JNumber("0.0")
    ensures s.example.None? && s.typeName == Some("boolean") ==> r == JBoolean(false)
    ensures s.example.None? && s.typeName !in TypeNames() ==> r == JString("value")
    decreases s
  {
    if s.example.Some? then ConvertOpenApiAnyToObject(s.example.value)
    else if s.typeName == Some("object") then
      var pairs := SamplePairs(s, clock);
      FillFromEmpty(pairs);
      JObject(Fill([], pairs))
    else if s.typeName == Some("array") then
      if s.items.Some? then JArray([GenerateSampleObjectFromSchema(s.items.value, clock)]) else JArray([])
    else if s.typeName == Some("string") then JString(StringSample(s.format, clock))
    else if s.typeName == Some("integer") then JInteger(0)
    else if s.typeName == Some("number") then JNumber("0.0")
    else if s.typeName == Some("boolean") then JBoolean(false)
    else JString("value")
  }

  /** Each property with its sample, in declaration order. */
  function SamplePairs(s: Schema, clock: Clock): (r: seq<(string, Json)>)
    ensures Keys(r) == Keys(s.properties)
    ensures DistinctKeys(s.properties) ==> DistinctKeys(r)
    decreases s, 0
  {
    seq(|s.properties|, i requires 0 <= i < |s.properties| =>
      (s.properties[i].0, GenerateSampleObjectFromSchema(s.properties[i].1, clock)))
  }

  /** The type names with a case of their own. */
  function TypeNames(): set<Option<string>> {
    {Some("object"), Some("array"), Some("string"), Some("integer"), Some("number"), Some("boolean")}
  }

  /** `GenerateSampleJsonFromSchema`: "{}" for a missing schema, else the serialised sample. */
  function GenerateSampleJsonFromSchema(schema: Option<Schema>, clock: Clock, serialize: Json -> string): (r: string)
    ensures schema.None? ==> r == "{}"
    ensures schema.Some? ==> r == serialize(GenerateSampleObjectFromSchema(schema.value, clock))
  {
    if schema.None? then "{}" else serialize(GenerateSampleObjectFromSchema(schema.value, clock))
  }

  // ---------------------------------------------------------------------------
  // What a sample is, independently of how it is built
  // ---------------------------------------------------------------------------

  /** Every property dictionary in the tree has distinct keys. */
  predicate WellFormed(s: Schema)
    decreases s
  {
    && DistinctKeys(s.properties)
    && (forall i :: 0 <= i < |s.properties| ==> WellFormed(s.properties[i].1))
    && (s.items.Some? ==> WellFormed(s.items.value))
  }

  /** No node of the tree carries an example. */
  predicate ExampleFree(s: Schema)
    decreases s
  {
    && s.example.None?
    && (forall i :: 0 <= i < |s.properties| ==> ExampleFree(s.properties[i].1))
    && (s.items.Some? ==> ExampleFree(s.items.value))
  }

  /**
   * `j` is an instance of `s`: an object has exactly the declared keys, in
   * order, each an instance of its property schema; an array's elements
   * are instances of the item schema (none without one); the scalar types
   * have values of their kind; an unknown type admits anything.
   */
  predicate Conforms(j: Json, s: Schema)
    decreases s
  {
    if s.typeName == Some("object") then
      && j.JObject?
      && Keys(j.entries) == Keys(s.properties)
      && forall i :: 0 <= i < |s.properties| ==> Conforms(j.entries[i].1, s.properties[i].1)
    else if s.typeName == Some("array") then
      && j.JArray?
      && forall k :: 0 <= k < |j.values| ==> s.items.Some? && Conforms(j.values[k], s.items.value)
    else if s.typeName == Some("string") then j.JString?
    else if s.typeName == Some("integer") then j.JInteger?
    else if s.typeName == Some("number") then j.JNumber?
    else if s.typeName == Some("boolean") then j.JBoolean?
    else true
  }

  /** Without examples, the sample of a schema is an instance of it. */
  lemma {:induction false} SampleConforms(s: Schema, clock: Clock)
    requires WellFormed(s) && ExampleFree(s)
    ensures Conforms(GenerateSampleObjectFromSchema(s, clock), s)
    decreases s
  {
    var r := GenerateSampleObjectFromSchema(s, clock);
    if s.typeName == Some("object") {
      var pairs := SamplePairs(s, clock);
      FillDistinct([], pairs);
      assert r.entries == pairs;
      forall i | 0 <= i < |s.properties|
        ensures Conforms(r.entries[i].1, s.properties[i].1)
      {
        SampleConforms(s.properties[i].1, clock);
      }
    } else if s.typeName == Some("array") && s.items.Some? {
      SampleConforms(s.items.value, clock);
    }
  }

  /** An object's sample holds, under each declared key in order, that property's sample. */
  lemma ObjectSampleEntries(s: Schema, clock: Clock, i: nat)
    requires s.example.None? && s.typeName == Some("object") && DistinctKeys(s.properties)
    requires i < |s.properties|
    ensures var r := GenerateSampleObjectFromSchema(s, clock);
            |r.entries| == |s.properties| && r.entries[i] ==
            (s.properties[i].0, GenerateSampleObjectFromSchema(s.properties[i].1, clock))
  {
    var pairs := SamplePairs(s, clock);
    FillDistinct([], pairs);
    assert [] + pairs == pairs;
    assert GenerateSampleObjectFromSchema(s, clock).entries == pairs;
  }

  /** A schema written with an example reproduces that example structurally, whatever its type. */
  lemma ExampleRoundTrip(s: Schema, j: Json, clock: Clock)
    requires s.example == Some(AsLiteral(j))
    ensures GenerateSampleObjectFromSchema(s, clock) == j
  {
    ConvertLiteralRoundTrip(j);
  }

  /** Only the `date` and `date-time` formats read the clock. */
  predicate ClockFree(s: Schema)
    decreases s
  {
    && (s.example.None? && s.typeName == Some("string") ==> s.format !in {Some("date"), Some("date-time")})
    && (forall i :: 0 <= i < |s.properties| ==> ClockFree(s.properties[i].1))
    && (s.items.Some? ==> ClockFree(s.items.value))
  }

  /** A schema without date formats has the same sample at any time. */
  lemma {:induction false} SampleIgnoresClock(s: Schema, c1: Clock, c2: Clock)
    requires ClockFree(s)
    ensures GenerateSampleObjectFromSchema(s, c1) == GenerateSampleObjectFromSchema(s, c2)
    decreases s
  {
    if s.example.None? {
      if s.typeName == Some("object") {
        forall i | 0 <= i < |s.properties| {
          SampleIgnoresClock(s.properties[i].1, c1, c2);
        }
        assert SamplePairs(s, c1) == SamplePairs(s, c2);
      } else if s.typeName == Some("array") && s.items.Some? {
        SampleIgnoresClock(s.items.value, c1, c2);
      }
    }
  }
}
