/** Parking locations from OpenStreetMap per province (scripts/fetch_osm_parking.py):
    tag classification, capacity extraction, element processing, the `seen_ids`
    de-duplication and the summary counters. */
module OsmParking {
  import opened Wrappers
  import opened Text
  import opened Numbers
  import opened Geo
  import opened Props
  import opened Osm
  import opened Seqs
  import opened Tally

  const ParkingTypes: set<string> := {"garage", "surface", "street_paid", "p_and_r", "parking_space", "street_free"}

  /** None of the `parking` and `park_ride` rules applies. */
  predicate NoParkingRule(tags: map<string, string>) {
    TagOr(tags, "parking", "") !in {"multi-storey", "underground", "surface", "street_side", "lane", "park_and_ride"}
    && !TagIs(tags, "park_ride", "yes")
  }

  /** `classify_parking_type`: ordered tag rules, first match wins. */
  function ClassifyParkingType(tags: map<string, string>): (t: string)
    ensures t in ParkingTypes
    ensures t == "garage" <==> TagOr(tags, "parking", "") in {"multi-storey", "underground"}
    ensures t == "street_paid" <==> TagOr(tags, "parking", "") in {"street_side", "lane"}
    ensures t == "p_and_r" <==>
      TagOr(tags, "parking", "") !in {"multi-storey", "underground", "surface", "street_side", "lane"} &&
      (TagOr(tags, "parking", "") == "park_and_ride" || TagIs(tags, "park_ride", "yes"))
    ensures t == "parking_space" <==> NoParkingRule(tags) && TagOr(tags, "amenity", "") == "parking_space"
    ensures t == "street_free" <==> NoParkingRule(tags) && TagOr(tags, "amenity", "") != "parking_space" && TagIs(tags, "fee", "no")
    ensures t == "surface" <==>
      TagOr(tags, "parking", "") == "surface" ||
      (NoParkingRule(tags) && TagOr(tags, "amenity", "") != "parking_space" && !TagIs(tags, "fee", "no"))
  {
    var parking := TagOr(tags, "parking", "");
    var amenity := TagOr(tags, "amenity", "");
    if parking in {"multi-storey", "underground"} then "garage"
    else if parking == "surface" then "surface"
    else if parking in {"street_side", "lane"} then "street_paid"
    else if parking == "park_and_ride" || TagIs(tags, "park_ride", "yes") then "p_and_r"
    else if amenity == "parking_space" then "parking_space"
    else if TagIs(tags, "fee", "no") then "street_free"
    else "surface"
  }

  /** `int(tags[k])` when the tag is present and parses. */
  function ParsedTag(tags: map<string, string>, k: string): Option<int> {
    if k in tags then ParseInt(tags[k]) else None
  }

  /** `capacity[key] = int(tags[tag])` when the tag parses. */
  function PutParsed(c: map<string, int>, key: string, v: Option<int>): (r: map<string, int>)
    ensures v.None? ==> r == c
    ensures v.Some? ==> r == c[key := v.value]
  {
    if v.Some? then c[key := v.value] else c
  }

  /** `extract_capacity`: the keys `total`, `disabled`, `ev_charging`, each present exactly
      when its tag parses as an integer; `None` once none does. */
  function ExtractCapacity(tags: map<string, string>): (r: Option<map<string, int>>)
    ensures r.None? <==> ParsedTag(tags, "capacity").None? && ParsedTag(tags, "capacity:disabled").None?
                         && ParsedTag(tags, "capacity:charging").None?
    ensures r.Some? ==> r.value.Keys <= {"total", "disabled", "ev_charging"}
    ensures r.Some? ==> ("total" in r.value <==> ParsedTag(tags, "capacity").Some?)
    ensures r.Some? ==> ("disabled" in r.value <==> ParsedTag(tags, "capacity:disabled").Some?)
    ensures r.Some? ==> ("ev_charging" in r.value <==> ParsedTag(tags, "capacity:charging").Some?)
    ensures r.Some? && "total" in r.value ==> r.value["total"] == ParsedTag(tags, "capacity").value
    ensures r.Some? && "disabled" in r.value ==> r.value["disabled"] == ParsedTag(tags, "capacity:disabled").value
    ensures r.Some? && "ev_charging" in r.value ==> r.value["ev_charging"] == ParsedTag(tags, "capacity:charging").value
  {
    var total := ParsedTag(tags, "capacity");
    var disabled := ParsedTag(tags, "capacity:disabled");
    var charging := ParsedTag(tags, "capacity:charging");
    var c := PutParsed(PutParsed(PutParsed(map[], "total", total), "disabled", disabled), "ev_charging", charging);
    if total.None? && disabled.None? && charging.None? then None else Some(c)
  }

  /** The capacity value stored under `"capacity"`. */
  function CapacityValue(c: Option<map<string, int>>): Value {
    match c
    case None => VNull
    case Some(m) => VObj(map k | k in m :: VInt(m[k]))
  }

  /** `fee == "yes" or (fee == "unknown" and parking_type == "garage")`, with a missing fee read as "unknown". */
  predicate IsPaid(tags: map<string, string>) {
    var fee := TagOr(tags, "fee", "unknown");
    fee == "yes" || (fee == "unknown" && ClassifyParkingType(tags) == "garage")
  }

  /** What `process_element` does: raise (a node without coordinates), return `None`, or a record. */
  datatype Processed = Raised | Skipped | Kept(record: Properties)

  /** The coordinates `process_element` reads, `None` where it raises `KeyError`. */
  function ElementLatLon(e: Element): (r: Option<(real, real)>)
    ensures r.None? <==> e.kind == "node" && (e.lat.None? || e.lon.None?)
    ensures e.kind == "node" && r.Some? ==> r.value == (e.lat.value, e.lon.value)
    ensures e.kind != "node" && e.center.Some? ==> r == Some((e.center.value.lat, e.center.value.lon))
    ensures e.kind != "node" && e.center.None? ==> r == Some((OrElse(e.lat, 0.0), OrElse(e.lon, 0.0)))
  {
    if e.kind == "node" then
      if e.lat.Some? && e.lon.Some? then Some((e.lat.value, e.lon.value)) else None
    else
      var lat := if e.center.Some? then e.center.value.lat else OrElse(e.lat, 0.0);
      var lon := if e.center.Some? then e.center.value.lon else OrElse(e.lon, 0.0);
      Some((lat, lon))
  }

  /** The fields of a processed element other than its id, type, province, capacity and payment. */
  function OtherFields(e: Element, lat: real, lon: real): (p: Properties)
    ensures {"latitude", "longitude", "geometry", "osm_id", "name"} <= p.Keys
    ensures p["latitude"] == VReal(lat) && p["longitude"] == VReal(lon) && p["geometry"] == PointValue(lon, lat)
    ensures p["osm_id"] == VInt(e.id) && p["name"] == VStr(TagOr(e.tags, "name", TagOr(e.tags, "description", "")))
  {
    var tags := e.tags;
    map[
      "osm_type" := VStr(e.kind),
      "source" := VStr("osm"),
      "fee" := VStr(TagOr(tags, "fee", "unknown")),
      "access" := VStr(TagOr(tags, "access", "yes")),
      "operator" := VStr(TagOr(tags, "operator", "")),
      "opening_hours" := VStr(TagOr(tags, "opening_hours", "")),
      "surface" := VStr(TagOr(tags, "surface", "")),
      "covered" := VBool(TagOr(tags, "covered", "") == "yes"),
      "lit" := VBool(TagOr(tags, "lit", "") == "yes"),
      "wheelchair" := VStr(TagOr(tags, "wheelchair", "")),
      "maxstay" := VStr(TagOr(tags, "maxstay", "")),
      "osm_id" := VInt(e.id),
      "name" := VStr(TagOr(tags, "name", TagOr(tags, "description", ""))),
      "geometry" := PointValue(lon, lat),
      "latitude" := VReal(lat),
      "longitude" := VReal(lon)]
  }

  /** The keys `Record` adds differ from the ones `OtherFields` sets that it states. */
  lemma RecordKeysDiffer()
    ensures forall k :: k in ["latitude", "longitude", "geometry", "osm_id", "name"] ==> k !in ["id", "type", "province", "capacity", "is_paid"]
  {
    assert "latitude"[0] != "province"[0] && "latitude"[0] != "capacity"[0];
    assert "geometry"[0] != "province"[0] && "geometry"[0] != "capacity"[0];
    assert "name"[0] != "type"[0];
  }

  /** The dictionary `process_element` returns for an element at (`lat`, `lon`), given the
      type, the payment rule and the capacity it computed from the tags. */
  function Record(e: Element, province: string, lat: real, lon: real, ptype: string, paid: bool, capacity: Value): (p: Properties)
    ensures {"id", "type", "province", "capacity", "is_paid"} <= p.Keys
    ensures p["id"] == VStr(KindId("osm_", e))
    ensures p["type"] == VStr(ptype) && p["province"] == VStr(province)
    ensures p["is_paid"] == VBool(paid) && p["capacity"] == capacity
  {
    OtherFields(e, lat, lon)
      ["id" := VStr(KindId("osm_", e))]
      ["type" := VStr(ptype)]
      ["province" := VStr(province)]
      ["capacity" := capacity]
      ["is_paid" := VBool(paid)]
  }

  /** The record is placed at (`lat`, `lon`), as a GeoJSON point `[lon, lat]`. */
  lemma RecordPosition(e: Element, province: string, lat: real, lon: real, ptype: string, paid: bool, capacity: Value)
    ensures var p := Record(e, province, lat, lon, ptype, paid, capacity);
      && "latitude" in p && p["latitude"] == VReal(lat)
      && "longitude" in p && p["longitude"] == VReal(lon)
      && "geometry" in p && p["geometry"] == PointValue(lon, lat)
  {
    RecordKeysDiffer();
  }

  /** The record keeps the element's id and takes its name, or failing that its description. */
  lemma RecordIdentity(e: Element, province: string, lat: real, lon: real, ptype: string, paid: bool, capacity: Value)
    ensures var p := Record(e, province, lat, lon, ptype, paid, capacity);
      && "osm_id" in p && p["osm_id"] == VInt(e.id)
      && "name" in p && p["name"] == VStr(TagOr(e.tags, "name", TagOr(e.tags, "description", "")))
  {
    RecordKeysDiffer();
  }

  /** `process_element(element, province)` */
  function ProcessElement(e: Element, province: string): (r: Processed)
    ensures r.Raised? <==> e.kind == "node" && (e.lat.None? || e.lon.None?)
    ensures r.Skipped? ==> var ll := ElementLatLon(e).value; ll.0 == 0.0 || ll.1 == 0.0
    ensures r.Kept? ==> var ll := ElementLatLon(e).value;
      && ll.0 != 0.0 && ll.1 != 0.0
      && r.record == Record(e, province, ll.0, ll.1, ClassifyParkingType(e.tags), IsPaid(e.tags), CapacityValue(ExtractCapacity(e.tags)))
  {
    match ElementLatLon(e)
    case None => Raised
    case Some(ll) =>
      var (lat, lon) := ll;
      if lat == 0.0 || lon == 0.0 then Skipped
      else
        var tags := e.tags;
        Kept(Record(e, province, lat, lon, ClassifyParkingType(tags), IsPaid(tags), CapacityValue(ExtractCapacity(tags))))
  }

  /** An element of a province's response, with that province's name. */
  type Fetched = (string, Element)

  /** `f"{element['type']}_{element['id']}"` */
  function ElemKey(p: Fetched): string {
    KindId("", p.1)
  }

  /** The record `process_element` returns for one fetched element, if any. */
  function KeptOf(p: Fetched): (rs: seq<Properties>)
    ensures |rs| <= 1
    ensures |rs| == 1 <==> ProcessElement(p.1, p.0).Kept?
    ensures |rs| == 1 ==> "province" in rs[0] && rs[0]["province"] == VStr(p.0)
  {
    match ProcessElement(p.1, p.0)
    case Kept(r) => [r]
    case _ => []
  }

  /** The element loop of `main`: an element id already seen is skipped; otherwise it is
      marked seen before processing, so an element whose processing fails or returns nothing
      still shadows later copies. Errors are caught and the element dropped. */
  method CollectParking(fetched: seq<Fetched>) returns (allParking: seq<Properties>)
    ensures allParking == FlatMap(KeptOf, KeepFirst(fetched, ElemKey))
  {
    allParking := CollectFirst(fetched, ElemKey, KeptOf);
  }

  /** Only the first copy of an element id can contribute a record. */
  lemma CollectedIdsDistinct(fetched: seq<Fetched>)
    ensures DistinctBy(KeepFirst(fetched, ElemKey), ElemKey)
    ensures KeySet(KeepFirst(fetched, ElemKey), ElemKey) == KeySet(fetched, ElemKey)
    ensures |KeepFirst(fetched, ElemKey)| <= |fetched|
  {
    KeepFirstKeys(fetched, ElemKey);
    KeepFirstIsSubsequence(fetched, ElemKey);
    SubsequenceLength(KeepFirst(fetched, ElemKey), fetched);
  }

  function TypeOf(r: Properties): Value { Props.Get(r, "type") }

  function ProvinceOf(r: Properties): Value { GetOr(r, "province", VStr("Unknown")) }

  predicate HasCapacity(r: Properties) { Truthy(Props.Get(r, "capacity")) }

  predicate HasName(r: Properties) { Truthy(Props.Get(r, "name")) }

  lemma StatisticsSnoc(all: seq<Properties>, i: nat)
    requires i < |all|
    ensures CountOf(Map(TypeOf, all[..i + 1])) == Bump(CountOf(Map(TypeOf, all[..i])), TypeOf(all[i]))
    ensures CountOf(Map(ProvinceOf, all[..i + 1])) == Bump(CountOf(Map(ProvinceOf, all[..i])), ProvinceOf(all[i]))
    ensures CountWhere(HasCapacity, all[..i + 1]) == CountWhere(HasCapacity, all[..i]) + (if HasCapacity(all[i]) then 1 else 0)
    ensures CountWhere(HasName, all[..i + 1]) == CountWhere(HasName, all[..i]) + (if HasName(all[i]) then 1 else 0)
  {
    var p := all[i];
    PrefixSnoc(all, i);
    MapSnoc(TypeOf, all[..i], p);
    MapSnoc(ProvinceOf, all[..i], p);
    CountOfSnoc(Map(TypeOf, all[..i]), TypeOf(p));
    CountOfSnoc(Map(ProvinceOf, all[..i]), ProvinceOf(p));
    CountWhereSnoc(HasCapacity, all[..i], p);
    CountWhereSnoc(HasName, all[..i], p);
  }

  /** The body of the statistics loop for record `i`. */
  method CountOne(all: seq<Properties>, i: nat, byType: Counter<Value>, byProvince: Counter<Value>, withCapacity: nat, withName: nat)
    returns (byType': Counter<Value>, byProvince': Counter<Value>, withCapacity': nat, withName': nat)
    requires i < |all|
    requires byType == CountOf(Map(TypeOf, all[..i])) && byProvince == CountOf(Map(ProvinceOf, all[..i]))
    requires withCapacity == CountWhere(HasCapacity, all[..i]) && withName == CountWhere(HasName, all[..i])
    ensures byType' == CountOf(Map(TypeOf, all[..i + 1])) && byProvince' == CountOf(Map(ProvinceOf, all[..i + 1]))
    ensures withCapacity' == CountWhere(HasCapacity, all[..i + 1]) && withName' == CountWhere(HasName, all[..i + 1])
  {
    var p := all[i];
    StatisticsSnoc(all, i);
    byType' := Bump(byType, TypeOf(p));
    byProvince' := Bump(byProvince, ProvinceOf(p));
    withCapacity' := withCapacity + if HasCapacity(p) then 1 else 0;
    withName' := withName + if HasName(p) then 1 else 0;
  }

  /** The summary counters of `main`. */
  method Statistics(all: seq<Properties>)
    returns (total: nat, byType: Counter<Value>, byProvince: Counter<Value>, withCapacity: nat, withName: nat)
    ensures total == |all|
    ensures byType == CountOf(Map(TypeOf, all)) && Tally.Total(byType) == total
    ensures byProvince == CountOf(Map(ProvinceOf, all)) && Tally.Total(byProvince) == total
    ensures withCapacity == CountWhere(HasCapacity, all) <= total
    ensures withName == CountWhere(HasName, all) <= total
  {
    total := |all|;
    byType, byProvince := [], [];
    withCapacity, withName := 0, 0;
    var i := 0;
    while i < |all|
      invariant 0 <= i <= |all|
      invariant byType == CountOf(Map(TypeOf, all[..i]))
      invariant byProvince == CountOf(Map(ProvinceOf, all[..i]))
      invariant withCapacity == CountWhere(HasCapacity, all[..i])
      invariant withName == CountWhere(HasName, all[..i])
    {
      byType, byProvince, withCapacity, withName := CountOne(all, i, byType, byProvince, withCapacity, withName);
      i := i + 1;
    }
    assert all[..|all|] == all;
    TotalCountOf(Map(TypeOf, all));
    TotalCountOf(Map(ProvinceOf, all));
  }
}
