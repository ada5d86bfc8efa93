/**
 * The parts of a parsed OpenAPI description that the generator reads:
 * parameters, request bodies, schemas, literal examples, operations,
 * paths and servers. The parser itself is an external library; these are
 * the values it hands over, read-only to the generator.
 */
module OpenApi {
  import opened Wrappers

  /** `ParameterLocation`. */
  datatype Location = Query | Header | Path | Cookie

  /** The enumeration member's name, as `ToString()` renders it. */
  function LocationName(l: Location): string {
    match l
    case Query => "Query"
    case Header => "Header"
    case Path => "Path"
    case Cookie => "Cookie"
  }

  /** A parameter; `location` is `None` when the description gives no `in`. */
  datatype Parameter = Parameter(name: string, location: Option<Location>, description: Option<string>)

  predicate LocatedIn(p: Parameter, locations: set<Location>) {
    p.location.Some? && p.location.value in locations
  }

  /** `parameters.Where(p => p.In is ...)`: the parameters at the given locations, in order. */
  function ParametersAt(ps: seq<Parameter>, locations: set<Location>): (r: seq<Parameter>)
    ensures |r| <= |ps|
    ensures forall i :: 0 <= i < |r| ==> LocatedIn(r[i], locations)
  {
    if ps == [] then []
    else (if LocatedIn(ps[0], locations) then [ps[0]] else []) + ParametersAt(ps[1..], locations)
  }

  /** A parameter is kept exactly when it is one of the input's and sits at one of the locations. */
  lemma {:induction false} ParametersAtMembers(ps: seq<Parameter>, locations: set<Location>, p: Parameter)
    ensures p in ParametersAt(ps, locations) <==> p in ps && LocatedIn(p, locations)
  {
    if ps != [] {
      ParametersAtMembers(ps[1..], locations, p);
      assert p in ps <==> p == ps[0] || p in ps[1..];
    }
  }

  /** Filtering keeps the original order: it distributes over concatenation. */
  lemma {:induction false} ParametersAtAppend(a: seq<Parameter>, b: seq<Parameter>, locations: set<Location>)
    ensures ParametersAt(a + b, locations) == ParametersAt(a, locations) + ParametersAt(b, locations)
  {
    if a != [] {
      assert (a + b)[1..] == a[1..] + b;
      ParametersAtAppend(a[1..], b, locations);
    } else {
      assert a + b == b;
    }
  }

  /**
   * An `IOpenApiAny` literal. Floating-point values are kept as their
   * literal text, and `AOther` stands for every other literal kind (null,
   * binary, byte, date, password), carrying what its `ToString()` gives.
   */
  datatype Any =
    | AString(text: string)
    | AInteger(intValue: int)
    | ALong(longValue: int)
    | AFloat(floatLiteral: string)
    | ADouble(doubleLiteral: string)
    | ABoolean(boolValue: bool)
    | ADateTime(stamp: string)
    | AObject(members: seq<(string, Any)>)
    | AArray(elements: seq<Any>)
    | AOther(rendered: Option<string>)

  /**
   * A schema node. `properties` is the ordered property dictionary (an
   * absent dictionary is the empty one) and `items` the item schema.
   */
  datatype Schema = Schema(
    typeName: Option<string>,
    format: Option<string>,
    properties: seq<(string, Schema)>,
    items: Option<Schema>,
    example: Option<Any>)

  /**
   * An operation: its parameters and its request-body content map from
   * content type to schema, in declaration order (no request body is the
   * empty map).
   */
  datatype Operation = Operation(parameters: seq<Parameter>, requestBodyContent: seq<(string, Schema)>)

  /** `OperationType`. */
  datatype Verb = Get | Put | Post | Delete | Options | Head | Patch | Trace

  /** The enumeration member's name, as `ToString()` renders it. */
  function VerbName(v: Verb): (r: string)
    ensures |r| > 0
  {
    match v
    case Get => "Get"
    case Put => "Put"
    case Post => "Post"
    case Delete => "Delete"
    case Options => "Options"
    case Head => "Head"
    case Patch => "Patch"
    case Trace => "Trace"
  }

  datatype PathItem = PathItem(operations: seq<(Verb, Operation)>)

  /** A document: the server URLs (each possibly absent) and the paths, in order. */
  datatype Document = Document(serverUrls: seq<Option<string>>, paths: seq<(string, PathItem)>)

  /** The keys of an ordered dictionary. */
  function Keys<V>(d: seq<(string, V)>): (r: seq<string>)
    ensures |r| == |d|
    ensures forall i :: 0 <= i < |d| ==> r[i] == d[i].0
  {
    seq(|d|, i requires 0 <= i < |d| => d[i].0)
  }

  /** No key occurs twice, as in a dictionary. */
  predicate DistinctKeys<V>(d: seq<(string, V)>) {
    forall i, j :: 0 <= i < j < |d| ==> d[i].0 != d[j].0
  }
}
