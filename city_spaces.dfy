/** The single-city OpenStreetMap extractions (scripts/fetch_rotterdam_parking.py and
    scripts/fetch_elburg_parking.py, which differ only in their city constants): the
    province-and-bounding-box filter over the national OSM records, the processing of
    `amenity=parking_space` elements, the id de-duplication and the type counter. */
module CitySpaces {
  import opened Wrappers
  import opened Numbers
  import opened Geo
  import opened Props
  import opened Osm
  import opened Seqs
  import Tally

  /** A city's constants: display name, province and bounding box
      (`south`/`north` as latitudes, `west`/`east` as longitudes). */
  datatype City = City(name: string, province: string, bbox: Box)

  function LonOf(f: Properties): Value { GetOr(f, "longitude", VInt(0)) }

  function LatOf(f: Properties): Value { GetOr(f, "latitude", VInt(0)) }

  /** Evaluating the filter condition on `f` raises no `TypeError`: the chained comparisons
      only read the longitude once the province matches, and the latitude once the longitude
      is inside. */
  predicate FilterDefined(c: City, f: Properties) {
    Get(f, "province") == VStr(c.province) ==>
      IsNumber(LonOf(f)) &&
      (c.bbox.minLon < NumberValue(LonOf(f)) < c.bbox.maxLon ==> IsNumber(LatOf(f)))
  }

  /** The filter condition, with a missing coordinate read as 0. */
  predicate InCity(c: City, f: Properties) {
    Get(f, "province") == VStr(c.province) &&
    IsNumber(LonOf(f)) && c.bbox.minLon < NumberValue(LonOf(f)) < c.bbox.maxLon &&
    IsNumber(LatOf(f)) && c.bbox.minLat < NumberValue(LatOf(f)) < c.bbox.maxLat
  }

  /** The comprehension in `extract_<city>_from_osm`: exactly the records of the city's
      province strictly inside its box, in their original order. */
  function ExtractFromOsm(c: City, features: seq<Properties>): (r: seq<Properties>)
    requires forall f :: f in features ==> FilterDefined(c, f)
    ensures IsSubsequence(r, features)
    ensures forall f :: f in r <==> f in features && InCity(c, f)
    ensures forall f :: f in r ==>
      IsNumber(LonOf(f)) && IsNumber(LatOf(f)) && InBoxStrict(Pos(NumberValue(LonOf(f)), NumberValue(LatOf(f))), c.bbox)
  {
    FilterIsSubsequence(f => InCity(c, f), features);
    Filter(f => InCity(c, f), features)
  }

  /** The city filter never keeps a record without coordinates, since 0 lies outside every
      box with positive bounds. */
  lemma MissingCoordinatesExcluded(c: City, f: Properties)
    requires c.bbox.minLon >= 0.0 && c.bbox.minLat >= 0.0
    requires "longitude" !in f || "latitude" !in f
    ensures !InCity(c, f)
  {
  }

  /** Processing an element raises no uncaught error: a node carries `lat` and `lon`, and a
      non-empty `capacity` tag is an integer. */
  predicate SpaceDefined(e: Element) {
    (e.kind == "node" ==> e.lat.Some? && e.lon.Some?) &&
    (TagOr(e.tags, "capacity", "") != "" ==> ParseInt(e.tags["capacity"]).Some?)
  }

  /** `int(tags.get("capacity", 1)) if tags.get("capacity") else 1` */
  function CapacityTotal(tags: map<string, string>): (n: int)
    requires TagOr(tags, "capacity", "") != "" ==> ParseInt(tags["capacity"]).Some?
    ensures TagOr(tags, "capacity", "") != "" ==> Some(n) == ParseInt(tags["capacity"])
    ensures TagOr(tags, "capacity", "") == "" ==> n == 1
  {
    if TagOr(tags, "capacity", "") != "" then ParseInt(tags["capacity"]).value else 1
  }

  /** The coordinates read from an element: a node's own, otherwise its `center`'s (`None`
      when there is no center). */
  function SpaceLatLon(e: Element): (r: (Option<real>, Option<real>))
    requires e.kind == "node" ==> e.lat.Some? && e.lon.Some?
  {
    if e.kind == "node" then (e.lat, e.lon)
    else if e.center.Some? then (Some(e.center.value.lat), Some(e.center.value.lon))
    else (None, None)
  }

  /** `not lat` for an optional coordinate. */
  predicate Falsy(x: Option<real>) {
    x.None? || x.value == 0.0
  }

  /** `process_parking_space(element)`: `None` exactly when a coordinate is missing or zero;
      otherwise a `parking_space` record of the city with the capacity and payment rules. */
  function ProcessParkingSpace(c: City, e: Element): (r: Option<Properties>)
    requires SpaceDefined(e)
    ensures r.None? <==> Falsy(SpaceLatLon(e).0) || Falsy(SpaceLatLon(e).1)
    ensures r.Some? ==> {"id", "type", "capacity", "is_paid", "municipality", "province"} <= r.value.Keys
    ensures r.Some? ==> r.value["id"] == VStr(KindId("osm_space_", e))
    ensures r.Some? ==> r.value["type"] == VStr("parking_space")
    ensures r.Some? ==> r.value["capacity"] == VObj(map["total" := VInt(CapacityTotal(e.tags))])
    ensures r.Some? ==> r.value["is_paid"] == VBool(TagOr(e.tags, "fee", "unknown") != "no")
    ensures r.Some? ==> r.value["municipality"] == VStr(c.name) && r.value["province"] == VStr(c.province)
  {
    var (lat, lon) := SpaceLatLon(e);
    if Falsy(lat) || Falsy(lon) then None
    else
      var tags := e.tags;
      var rest := map[
        "osm_id" := VInt(e.id),
        "source" := VStr("osm"),
        "name" := VStr(TagOr(tags, "name", TagOr(tags, "ref", ""))),
        "geometry" := PointValue(lon.value, lat.value),
        "latitude" := VReal(lat.value),
        "longitude" := VReal(lon.value),
        "access" := VStr(TagOr(tags, "access", "yes"))];
      Some(rest
        ["id" := VStr(KindId("osm_space_", e))]
        ["type" := VStr("parking_space")]
        ["capacity" := VObj(map["total" := VInt(CapacityTotal(tags))])]
        ["is_paid" := VBool(TagOr(tags, "fee", "unknown") != "no")]
        ["municipality" := VStr(c.name)]
        ["province" := VStr(c.province)])
  }

  /** The zero or one records an element turns into. */
  function SpaceRecord(c: City, e: Element): (rs: seq<Properties>)
    ensures |rs| <= 1
  {
    if SpaceDefined(e) then
      match ProcessParkingSpace(c, e)
      case Some(r) => [r]
      case None => []
    else []
  }

  /** Every processed space has an id, a `parking_space` type and the city's municipality. */
  lemma {:induction false} SpaceRecordsShape(c: City, raw: seq<Element>)
    ensures forall r :: r in FlatMap(e => SpaceRecord(c, e), raw) ==>
      "id" in r && "municipality" in r && r["municipality"] == VStr(c.name) &&
      "type" in r && r["type"] == VStr("parking_space")
  {
    if raw != [] {
      SpaceRecordsShape(c, raw[..|raw| - 1]);
    }
  }

  /** A record's `f["id"]`. */
  function IdOf(f: Properties): Value { Get(f, "id") }

  /** No two records share an id. */
  predicate DistinctIds(fs: seq<Properties>) {
    DistinctBy(fs, IdOf)
  }

  /** `f.get("type", "other")` */
  function TypeOrOther(f: Properties): Value { GetOr(f, "type", VStr("other")) }

  /** `main`: areas from the national records, then the processed spaces; the first record
      per id is kept, in order; `by_type` counts the kept records. */
  method CombineSources(c: City, osmFeatures: seq<Properties>, spacesRaw: seq<Element>)
    returns (unique: seq<Properties>, total: nat, byType: Tally.Counter<Value>, parkingAreas: nat, parkingSpaces: nat)
    requires forall f :: f in osmFeatures ==> FilterDefined(c, f)
    requires forall f :: f in osmFeatures && InCity(c, f) ==> "id" in f
    requires forall e :: e in spacesRaw ==> SpaceDefined(e)
    ensures parkingAreas == |ExtractFromOsm(c, osmFeatures)|
    ensures parkingSpaces == |FlatMap(e => SpaceRecord(c, e), spacesRaw)|
    ensures unique == KeepFirst(ExtractFromOsm(c, osmFeatures) + FlatMap(e => SpaceRecord(c, e), spacesRaw), IdOf)
    ensures DistinctIds(unique)
    ensures KeySet(unique, IdOf) == KeySet(ExtractFromOsm(c, osmFeatures) + FlatMap(e => SpaceRecord(c, e), spacesRaw), IdOf)
    ensures IsSubsequence(unique, ExtractFromOsm(c, osmFeatures) + FlatMap(e => SpaceRecord(c, e), spacesRaw))
    ensures forall f :: f in unique ==>
      (f in osmFeatures && InCity(c, f)) ||
      ("municipality" in f && f["municipality"] == VStr(c.name) && "type" in f && f["type"] == VStr("parking_space"))
    ensures total == |unique| <= parkingAreas + parkingSpaces
    ensures byType == Tally.CountOf(Map(TypeOrOther, unique)) && Tally.Total(byType) == total
  {
    var cityParking := ExtractFromOsm(c, osmFeatures);
    var parkingSpacesList := CollectAll(spacesRaw, e => SpaceRecord(c, e));
    var all := cityParking + parkingSpacesList;
    unique := DedupBy(all, IdOf);
    KeepFirstKeys(all, IdOf);
    KeepFirstIsSubsequence(all, IdOf);
    SubsequenceLength(unique, all);
    SubsequenceMembers(unique, all);
    SpaceRecordsShape(c, spacesRaw);
    total := |unique|;
    byType := Tally.CountBy(unique, TypeOrOther);
    parkingAreas := |cityParking|;
    parkingSpaces := |parkingSpacesList|;
  }
}
