/** scripts/fetch_dutch_cities_parking.py: turning the parking-bay features of a city's
    open-data service into facility records, and the counters over them. */
module DutchCities {
  import opened Wrappers
  import opened Numbers
  import opened Text
  import opened Geo
  import opened Props
  import opened Seqs
  import Tally

  /** An entry of `CITY_SOURCES`: the city key, display name and province, and the property
      names of its field mapping; a field the mapping lacks is `""`, as `mapping.get(field, "")`
      gives. */
  datatype Config = Config(
    key: string,
    name: string,
    province: string,
    idField: string,
    typeField: string,
    streetField: string,
    areaField: string)

  const Groningen: Config := Config("groningen", "Groningen", "Groningen", "VAKID", "VAKFUNCTIE", "STRAATNAAM", "GEBIED")

  /** Arnhem's mapping has no area field. */
  const Arnhem: Config := Config("arnhem", "Arnhem", "Gelderland", "OBJECTID", "TYPE", "STRAAT", "")

  // ---- coordinates ----

  /** Where a feature is placed, or `None` when the loop skips it: a Point with at least two
      coordinates, the vertex mean of a Polygon's first ring, or of the first ring of a
      MultiPolygon's first polygon; empty rings and every other geometry are skipped. */
  function Coordinates(g: Geometry): (p: Option<Pos>)
    ensures g.Point? ==> (p.Some? <==> |g.coords| >= 2)
    ensures g.Polygon? ==> (p.Some? <==> g.rings != [] && g.rings[0] != [])
    ensures g.MultiPolygon? ==> (p.Some? <==> g.polygons != [] && g.polygons[0] != [] && g.polygons[0][0] != [])
    ensures g.OtherGeometry? ==> p.None?
    ensures g.Point? && p.Some? ==> p.value == Pos(g.coords[0], g.coords[1])
    ensures g.Polygon? && p.Some? ==> p.value == VertexMean(g.rings[0])
    ensures g.MultiPolygon? && p.Some? ==> p.value == VertexMean(g.polygons[0][0])
  {
    match g
    case Point(coords) =>
      if |coords| >= 2 then Some(Pos(coords[0], coords[1])) else None
    case Polygon(rings) =>
      if rings != [] && rings[0] != [] then Some(VertexMean(rings[0])) else None
    case MultiPolygon(polys) =>
      if polys != [] && polys[0] != [] && polys[0][0] != [] then Some(VertexMean(polys[0][0])) else None
    case OtherGeometry(_) => None
  }

  /** The ring whose vertex mean places a polygonal feature. */
  function FirstRing(g: Geometry): seq<Pos> {
    match g
    case Polygon(rings) => if rings != [] then rings[0] else []
    case MultiPolygon(polys) => if polys != [] && polys[0] != [] then polys[0][0] else []
    case _ => []
  }

  /** A point is placed at its own coordinates; a polygonal feature lands inside every box
      that holds all vertices of the ring it is placed by. */
  lemma CoordinatesInBox(g: Geometry, b: Box)
    requires Coordinates(g).Some?
    requires forall i :: 0 <= i < |FirstRing(g)| ==> InBox(FirstRing(g)[i], b)
    ensures g.Point? ==> Coordinates(g).value == Pos(g.coords[0], g.coords[1])
    ensures !g.Point? ==> InBox(Coordinates(g).value, b)
  {
    if !g.Point? {
      VertexMeanInBox(FirstRing(g), b);
    }
  }

  /** The feature is not skipped by the geometry tests. */
  predicate Placeable(f: Feature) {
    Coordinates(f.geometry).Some?
  }

  // ---- parking type ----

  const CityTypes: set<string> := {
    "street_paid", "permit", "disabled", "loading_zone", "ev_charging", "taxi", "motorcycle", "parking_space"}

  predicate IsPaid(t: string) { Contains(t, "betaald") || Contains(t, "fiscaal") }

  predicate IsPermit(t: string) { Contains(t, "vergunning") || Contains(t, "permit") }

  predicate IsDisabled(t: string) { Contains(t, "invalide") || Contains(t, "gehandicapt") || Contains(t, "miva") }

  predicate IsLoading(t: string) { Contains(t, "laden") || Contains(t, "lossen") }

  predicate IsCharging(t: string) { Contains(t, "elektrisch") || Contains(t, "ev") || Contains(t, "oplaad") }

  /** The parking type of a lower-cased type value: the first rule that matches wins. */
  function ParkingType(t: string): (r: string)
    ensures r in CityTypes
  {
    if IsPaid(t) then "street_paid"
    else if IsPermit(t) then "permit"
    else if IsDisabled(t) then "disabled"
    else if IsLoading(t) then "loading_zone"
    else if IsCharging(t) then "ev_charging"
    else if Contains(t, "taxi") then "taxi"
    else if Contains(t, "motor") then "motorcycle"
    else "parking_space"
  }

  /** Each type is given exactly when its own rule matches and no earlier one does, and the
      generic `parking_space` exactly when no rule matches. */
  lemma ParkingTypeRules(t: string)
    ensures ParkingType(t) == "street_paid" <==> IsPaid(t)
    ensures ParkingType(t) == "permit" <==> !IsPaid(t) && IsPermit(t)
    ensures ParkingType(t) == "disabled" <==> !IsPaid(t) && !IsPermit(t) && IsDisabled(t)
    ensures ParkingType(t) == "loading_zone" <==> !IsPaid(t) && !IsPermit(t) && !IsDisabled(t) && IsLoading(t)
    ensures ParkingType(t) == "ev_charging" <==>
      !IsPaid(t) && !IsPermit(t) && !IsDisabled(t) && !IsLoading(t) && IsCharging(t)
    ensures ParkingType(t) == "taxi" <==>
      !IsPaid(t) && !IsPermit(t) && !IsDisabled(t) && !IsLoading(t) && !IsCharging(t) && Contains(t, "taxi")
    ensures ParkingType(t) == "motorcycle" <==>
      !IsPaid(t) && !IsPermit(t) && !IsDisabled(t) && !IsLoading(t) && !IsCharging(t) &&
      !Contains(t, "taxi") && Contains(t, "motor")
    ensures ParkingType(t) == "parking_space" <==>
      !IsPaid(t) && !IsPermit(t) && !IsDisabled(t) && !IsLoading(t) && !IsCharging(t) &&
      !Contains(t, "taxi") && !Contains(t, "motor")
  {
  }

  // ---- the facility record ----

  /** `props.get(field, "")` */
  function Field(p: Properties, field: string): Value {
    GetOr(p, field, VStr(""))
  }

  /** The values the record renders with `str()` or an f-string (the type value always, the id
      and the street when truthy) are ones whose rendering the model fixes. */
  predicate Renderable(c: Config, p: Properties) {
    IsScalarText(Field(p, c.typeField)) &&
    (Truthy(Field(p, c.idField)) ==> IsScalarText(Field(p, c.idField))) &&
    (Truthy(Field(p, c.streetField)) ==> IsScalarText(Field(p, c.streetField)))
  }

  /** `str(props.get(type_field, "")).lower()` */
  function TypeValue(c: Config, p: Properties): string
    requires Renderable(c, p)
  {
    Lower(PyStr(Field(p, c.typeField)))
  }

  /** `f"{city_key}_{id_value}"` when the id value is truthy, else `f"{city_key}_{n}"` with `n`
      the number of facilities emitted before this one. */
  function FacilityId(c: Config, p: Properties, n: nat): string
    requires Renderable(c, p)
  {
    var idValue := Field(p, c.idField);
    c.key + "_" + (if Truthy(idValue) then PyStr(idValue) else IntToString(n))
  }

  /** `{k: v for k, v in props.items() if v is not None}` */
  function NonNull(p: Properties): (q: Properties)
    ensures forall k :: k in q <==> k in p && p[k] != VNull
    ensures forall k :: k in q ==> q[k] == p[k]
  {
    map k | k in p && p[k] != VNull :: p[k]
  }

  /** The facility built from a placed feature's properties, with `now` as the timestamp. */
  function Facility(c: Config, p: Properties, pos: Pos, n: nat, now: string): (r: Properties)
    requires Renderable(c, p)
    ensures "id" in r && "type" in r && "raw_type" in r && "name" in r && "neighborhood" in r && "original_props" in r
    ensures r["id"] == VStr(FacilityId(c, p, n))
    ensures r["type"] == VStr(ParkingType(TypeValue(c, p))) && r["raw_type"] == VStr(TypeValue(c, p))
    ensures r["name"] == if Truthy(Field(p, c.streetField)) then VStr(PyStr(Field(p, c.streetField))) else VStr("Parkeervak " + c.name)
    ensures r["neighborhood"] == if Truthy(Field(p, c.areaField)) then Field(p, c.areaField) else VNull
    ensures r["original_props"] == VObj(NonNull(p))
  {
    var street := Field(p, c.streetField);
    var area := Field(p, c.areaField);
    var typeValue := TypeValue(c, p);
    var rest := map[
      "source_detail" := VStr(c.name + " Open Data"),
      "geometry" := PointValue(pos.lon, pos.lat),
      "address" := street,
      "last_updated" := VStr(now)];
    rest
      ["id" := VStr(FacilityId(c, p, n))]
      ["source" := VStr(c.key)]
      ["name" := if Truthy(street) then VStr(PyStr(street)) else VStr("Parkeervak " + c.name)]
      ["type" := VStr(ParkingType(typeValue))]
      ["latitude" := VReal(pos.lat)]
      ["longitude" := VReal(pos.lon)]
      ["municipality" := VStr(c.name)]
      ["province" := VStr(c.province)]
      ["neighborhood" := if Truthy(area) then area else VNull]
      ["raw_type" := VStr(typeValue)]
      ["original_props" := VObj(NonNull(p))]
  }

  predicate AllRenderable(c: Config, fs: seq<Feature>) {
    forall i :: 0 <= i < |fs| ==> Renderable(c, fs[i].properties)
  }

  /** The record a placeable feature becomes, given how many facilities precede it. */
  type Builder = (Feature, nat) -> Properties

  /** The builder of `process_features` for a city; features it is never applied to (not
      placeable, or with values the model does not render) get an empty record. */
  function BuilderOf(c: Config, now: string): Builder {
    (f: Feature, n: nat) =>
      if Renderable(c, f.properties) && Placeable(f) then Facility(c, f.properties, Coordinates(f.geometry).value, n, now)
      else map[]
  }

  /** One turn of the loop: a feature with a position appends its record, numbered by the
      facilities already emitted; any other feature is skipped. */
  function Step(build: Builder, p: seq<Properties>, f: Feature): seq<Properties> {
    if Placeable(f) then p + [build(f, |p|)] else p
  }

  /** What the loop has appended after the features `fs`. */
  function ProcessedWith(build: Builder, fs: seq<Feature>): (r: seq<Properties>)
    ensures |r| <= |fs|
  {
    if fs == [] then [] else Step(build, ProcessedWith(build, fs[..|fs| - 1]), fs[|fs| - 1])
  }

  /** What `process_features` returns for a city's features. */
  function Processed(c: Config, fs: seq<Feature>, now: string): seq<Properties> {
    ProcessedWith(BuilderOf(c, now), fs)
  }

  lemma ProcessedSnoc(build: Builder, fs: seq<Feature>, i: nat)
    requires i < |fs|
    ensures ProcessedWith(build, fs[..i + 1]) == Step(build, ProcessedWith(build, fs[..i]), fs[i])
  {
    assert fs[..i + 1][..i] == fs[..i];
  }

  /** The body of the loop: place the feature, and append its facility if it has a position. */
  method AppendFeature(c: Config, facilities0: seq<Properties>, feature: Feature, now: string) returns (facilities: seq<Properties>)
    requires Renderable(c, feature.properties)
    ensures facilities == Step(BuilderOf(c, now), facilities0, feature)
  {
    facilities := facilities0;
    var coords := Coordinates(feature.geometry);
    if coords.Some? {
      facilities := facilities + [Facility(c, feature.properties, coords.value, |facilities|, now)];
    }
  }

  /** `process_features`: every feature in turn, skipping the ones without a position. */
  method ProcessFeatures(c: Config, features: seq<Feature>, now: string) returns (facilities: seq<Properties>)
    requires AllRenderable(c, features)
    ensures facilities == Processed(c, features, now)
  {
    facilities := [];
    var i := 0;
    while i < |features|
      invariant 0 <= i <= |features|
      invariant facilities == ProcessedWith(BuilderOf(c, now), features[..i])
    {
      ProcessedSnoc(BuilderOf(c, now), features, i);
      facilities := AppendFeature(c, facilities, features[i], now);
      i := i + 1;
    }
    assert features[..|features|] == features;
  }

  /** Whatever the builder, the loop's output is the placeable features in input order, the
      `i`-th built with `i` as its number. */
  lemma {:induction false} ProcessedWithIsPlaced(build: Builder, fs: seq<Feature>)
    ensures |ProcessedWith(build, fs)| == |Filter(Placeable, fs)|
    ensures forall i :: 0 <= i < |Filter(Placeable, fs)| ==> ProcessedWith(build, fs)[i] == build(Filter(Placeable, fs)[i], i)
  {
    if fs != [] {
      var p := fs[..|fs| - 1];
      var f := fs[|fs| - 1];
      ProcessedWithIsPlaced(build, p);
      SplitLast(fs);
      FilterSnoc(Placeable, p, f);
      var before := ProcessedWith(build, p);
      var kept := Filter(Placeable, p);
      if Placeable(f) {
        assert ProcessedWith(build, fs) == before + [build(f, |before|)];
        assert Filter(Placeable, fs) == kept + [f];
      } else {
        assert ProcessedWith(build, fs) == before;
        assert Filter(Placeable, fs) == kept;
      }
    }
  }

  /** The output is the placeable features in input order, the `i`-th built with `i` as its
      fallback number: one facility per feature with a position and none for the rest. */
  lemma ProcessedIsPlacedInOrder(c: Config, fs: seq<Feature>, now: string)
    requires AllRenderable(c, fs)
    ensures |Processed(c, fs, now)| == |Filter(Placeable, fs)|
    ensures forall i :: 0 <= i < |Filter(Placeable, fs)| ==>
      Placeable(Filter(Placeable, fs)[i]) && Renderable(c, Filter(Placeable, fs)[i].properties) &&
      Processed(c, fs, now)[i] ==
        Facility(c, Filter(Placeable, fs)[i].properties, Coordinates(Filter(Placeable, fs)[i].geometry).value, i, now)
  {
    var all := Filter(Placeable, fs);
    ProcessedWithIsPlaced(BuilderOf(c, now), fs);
    forall i | 0 <= i < |all| ensures Placeable(all[i]) && Renderable(c, all[i].properties) {
      assert all[i] in all;
      var j :| 0 <= j < |fs| && fs[j] == all[i];
    }
  }

  /** The facilities follow the features they come from, in input order, and every placeable
      feature yields one: the output is exactly as long as the list of placeable features. */
  lemma ProcessedKeepsOrder(c: Config, fs: seq<Feature>, now: string)
    requires AllRenderable(c, fs)
    ensures IsSubsequence(Filter(Placeable, fs), fs)
    ensures |Processed(c, fs, now)| == |Filter(Placeable, fs)| <= |fs|
  {
    FilterIsSubsequence(Placeable, fs);
    ProcessedIsPlacedInOrder(c, fs, now);
  }

  /** `str(i)` is one-to-one, since `int()` reads it back. */
  lemma IntToStringInjective(i: int, j: int)
    requires IntToString(i) == IntToString(j)
    ensures i == j
  {
    ParseIntOfIntToString(i);
    ParseIntOfIntToString(j);
  }

  /** Two facilities that both fall back on their number for an id get different ids, so the
      fallback never makes two records share an id. */
  lemma FallbackIdsDistinct(c: Config, p: Properties, q: Properties, i: nat, j: nat)
    requires Renderable(c, p) && Renderable(c, q)
    requires !Truthy(Field(p, c.idField)) && !Truthy(Field(q, c.idField))
    requires i != j
    ensures FacilityId(c, p, i) != FacilityId(c, q, j)
  {
    var prefix := c.key + "_";
    var a := FacilityId(c, p, i);
    var b := FacilityId(c, q, j);
    assert a == prefix + IntToString(i);
    assert b == prefix + IntToString(j);
    if a == b {
      assert a[|prefix|..] == IntToString(i);
      assert b[|prefix|..] == IntToString(j);
      IntToStringInjective(i, j);
    }
  }

  // ---- counters in main ----

  function TypeOf(f: Properties): Value { Get(f, "type") }

  function SourceOf(f: Properties): Value { Get(f, "source") }

  /** A city's `city_stats` entry: its total and its `by_type` counter. */
  method CityStats(facilities: seq<Properties>) returns (total: nat, byType: Tally.Counter<Value>)
    ensures total == |facilities|
    ensures byType == Tally.CountOf(Map(TypeOf, facilities)) && Tally.Total(byType) == total
  {
    total := |facilities|;
    byType := Tally.CountBy(facilities, TypeOf);
  }

  /** `main`: both cities processed in `CITY_SOURCES` order, then the overall counters. A city
      whose service returned no features contributes nothing. */
  method CombineCities(groningen: seq<Feature>, arnhem: seq<Feature>, now: string)
    returns (all: seq<Properties>, total: nat, bySource: Tally.Counter<Value>, byType: Tally.Counter<Value>)
    requires AllRenderable(Groningen, groningen) && AllRenderable(Arnhem, arnhem)
    ensures all == Processed(Groningen, groningen, now) + Processed(Arnhem, arnhem, now)
    ensures total == |all| <= |groningen| + |arnhem|
    ensures bySource == Tally.CountOf(Map(SourceOf, all)) && Tally.Total(bySource) == total
    ensures byType == Tally.CountOf(Map(TypeOf, all)) && Tally.Total(byType) == total
  {
    var g := ProcessFeatures(Groningen, groningen, now);
    var a := ProcessFeatures(Arnhem, arnhem, now);
    all := g + a;
    total := |all|;
    bySource := Tally.CountBy(all, SourceOf);
    byType := Tally.CountBy(all, TypeOf);
  }
}
