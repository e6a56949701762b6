/** JSON property values as Python sees them after `json.load`, with Python's
    truthiness, `str()` and `int()` on them. */
module Props {
  import opened Wrappers
  import opened Numbers
  import opened Geo

  /** A JSON value; objects are dictionaries keyed by strings. */
  datatype Value =
    | VNull
    | VBool(b: bool)
    | VInt(i: int)
    | VReal(r: real)
    | VStr(s: string)
    | VList(items: seq<Value>)
    | VObj(fields: map<string, Value>)

  type Properties = map<string, Value>

  /** A GeoJSON feature: its geometry and its `properties` dictionary. */
  datatype Feature = Feature(geometry: Geometry, properties: Properties)

  /** `bool(v)` */
  predicate Truthy(v: Value) {
    match v
    case VNull => false
    case VBool(b) => b
    case VInt(i) => i != 0
    case VReal(r) => r != 0.0
    case VStr(s) => s != []
    case VList(items) => items != []
    case VObj(fields) => fields != map[]
  }

  /** A JSON number as Python compares it; `bool` is a subtype of `int`. */
  predicate IsNumber(v: Value) {
    v.VInt? || v.VReal? || v.VBool?
  }

  function NumberValue(v: Value): real
    requires IsNumber(v)
  {
    match v
    case VInt(i) => i as real
    case VReal(r) => r
    case VBool(b) => if b then 1.0 else 0.0
  }

  /** A value `str()` renders without a float or container repr. */
  predicate IsScalarText(v: Value) {
    v.VNull? || v.VBool? || v.VInt? || v.VStr?
  }

  /** The GeoJSON object `{"type": "Point", "coordinates": [lon, lat]}`. */
  function PointValue(lon: real, lat: real): Value {
    VObj(map["type" := VStr("Point"), "coordinates" := VList([VReal(lon), VReal(lat)])])
  }

  /** `props.get(k, default)` */
  function GetOr(p: Properties, k: string, default: Value): Value {
    if k in p then p[k] else default
  }

  /** `props.get(k)`: a missing key reads as `None`. */
  function Get(p: Properties, k: string): Value {
    GetOr(p, k, VNull)
  }

  /** `str(v)` for the values whose rendering the model fixes (floats excluded). */
  function PyStr(v: Value): (r: string)
    requires IsScalarText(v)
  {
    match v
    case VNull => "None"
    case VBool(b) => if b then "True" else "False"
    case VInt(i) => IntToString(i)
    case VStr(s) => s
  }

  /** `int(v)`; `None` where Python raises `ValueError` or `TypeError`. */
  function PyInt(v: Value): (r: Option<int>)
    ensures v.VInt? ==> r == Some(v.i)
    ensures v.VNull? ==> r.None?
  {
    match v
    case VNull => None
    case VBool(b) => Some(if b then 1 else 0)
    case VInt(i) => Some(i)
    case VReal(x) => Some(TruncToward0(x))
    case VStr(s) => ParseInt(s)
    case _ => None
  }

  /** `int(str(i)) == i`: an integer stored as its decimal text reads back unchanged. */
  lemma PyIntOfRenderedInt(i: int)
    ensures PyInt(VStr(PyStr(VInt(i)))) == Some(i)
  {
    ParseIntOfIntToString(i);
  }
}
