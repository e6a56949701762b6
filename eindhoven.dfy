/** scripts/fetch_eindhoven_parking.py: turning the records of Eindhoven's parking-place dataset
    into facilities, adding the garages that are not already present, and the counters. */
module Eindhoven {
  import opened Wrappers
  import opened Numbers
  import opened Text
  import opened Geo
  import opened Props
  import opened Seqs
  import Tally

  /** `record.get("geo_shape", {})`: missing or empty, a bare geometry, or a GeoJSON Feature
      around one (`geo_shape.get("geometry", geo_shape)` unwraps it). */
  datatype Shape = NoShape | Bare(geometry: Geometry) | Wrapped(geometry: Geometry)

  /** A record of the dataset: the `lat` and `lon` of `geo_point_2d` (absent keys are `None`),
      its `geo_shape`, and its other fields. */
  datatype Record = Record(pointLat: Option<real>, pointLon: Option<real>, shape: Shape, fields: Properties)

  /** `not x` for an optional coordinate. */
  predicate Falsy(x: Option<real>) {
    x.None? || x.value == 0.0
  }

  /** The geometry `geo_shape` holds, if it is not empty. */
  function ShapeGeometry(s: Shape): Option<Geometry> {
    match s
    case NoShape => None
    case Bare(g) => Some(g)
    case Wrapped(g) => Some(g)
  }

  /** `(lat, lon)`: those of `geo_point_2d`, unless one is missing or zero and `geo_shape` is a
      Point with at least two coordinates, which then gives both. */
  function Coordinates(r: Record): (ll: (Option<real>, Option<real>))
    ensures !Falsy(r.pointLat) && !Falsy(r.pointLon) ==> ll == (r.pointLat, r.pointLon)
    ensures (Falsy(r.pointLat) || Falsy(r.pointLon)) ==>
      match ShapeGeometry(r.shape)
      case Some(Point(c)) => ll == if |c| >= 2 then (Some(c[1]), Some(c[0])) else (r.pointLat, r.pointLon)
      case _ => ll == (r.pointLat, r.pointLon)
  {
    if Falsy(r.pointLat) || Falsy(r.pointLon) then
      match r.shape
      case NoShape => (r.pointLat, r.pointLon)
      case Bare(g) => ShapePoint(g, r.pointLat, r.pointLon)
      case Wrapped(g) => ShapePoint(g, r.pointLat, r.pointLon)
    else (r.pointLat, r.pointLon)
  }

  function ShapePoint(g: Geometry, lat: Option<real>, lon: Option<real>): (Option<real>, Option<real>) {
    if g.Point? && |g.coords| >= 2 then (Some(g.coords[1]), Some(g.coords[0])) else (lat, lon)
  }

  /** `(record.get(k, "") or "")` raises nothing when `.lower()` is applied: a truthy value is a
      string. */
  predicate TextOrFalsy(v: Value) {
    Truthy(v) ==> v.VStr?
  }

  /** `(record.get(k, "") or "").lower()` */
  function LowerText(p: Properties, k: string): string
    requires TextOrFalsy(GetOr(p, k, VStr("")))
  {
    var v := GetOr(p, k, VStr(""));
    if Truthy(v) then Lower(v.s) else ""
  }

  /** The record is processed without raising: `type_en_merk` and `straat` lower-case, and the
      `objectid` renders in the id. */
  predicate Processable(r: Record) {
    TextOrFalsy(GetOr(r.fields, "type_en_merk", VStr(""))) &&
    TextOrFalsy(GetOr(r.fields, "straat", VStr(""))) &&
    IsScalarText(GetOr(r.fields, "objectid", VStr("")))
  }

  // ---- the record loop of fetch_parkeerplaatsen ----

  /** The parking type of a lower-cased `type_en_merk`, first rule that matches wins; bicycle
      parking gives `None` and is dropped. */
  function ParkingType(typeMerk: string): (t: Option<string>)
    ensures t.None? <==>
      !Contains(typeMerk, "garage") && !Contains(typeMerk, "terrein") &&
      !Contains(typeMerk, "gehandicapt") && !Contains(typeMerk, "invalide") && Contains(typeMerk, "fiets")
    ensures t == Some("garage") <==> Contains(typeMerk, "garage")
    ensures t == Some("surface") <==> !Contains(typeMerk, "garage") && Contains(typeMerk, "terrein")
    ensures t == Some("disabled") <==>
      !Contains(typeMerk, "garage") && !Contains(typeMerk, "terrein") &&
      (Contains(typeMerk, "gehandicapt") || Contains(typeMerk, "invalide"))
    ensures t.Some? ==> t.value in {"garage", "surface", "disabled", "parking_space"}
  {
    if Contains(typeMerk, "garage") then Some("garage")
    else if Contains(typeMerk, "terrein") then Some("surface")
    else if Contains(typeMerk, "gehandicapt") || Contains(typeMerk, "invalide") then Some("disabled")
    else if Contains(typeMerk, "fiets") then None
    else Some("parking_space")
  }

  /** `{"total": int(cap_value)}` when `aantal` is truthy and `int()` accepts it, else `None`. */
  function Capacity(p: Properties): (c: Value)
    ensures c != VNull <==> Truthy(Get(p, "aantal")) && PyInt(Get(p, "aantal")).Some?
    ensures c != VNull ==> c == VObj(map["total" := VInt(PyInt(Get(p, "aantal")).value)])
  {
    var capValue := Get(p, "aantal");
    if Truthy(capValue) then
      match PyInt(capValue)
      case Some(n) => VObj(map["total" := VInt(n)])
      case None => VNull
    else VNull
  }

  /** The facility of a placed, non-bicycle record. */
  function Facility(r: Record, t: string, lat: real, lon: real, now: string): (f: Properties)
    requires Processable(r)
    ensures Located(f) && f["latitude"] == VReal(lat) && f["longitude"] == VReal(lon)
    ensures "type" in f && f["type"] == VStr(t)
    ensures "capacity" in f && f["capacity"] == Capacity(r.fields)
    ensures "name" in f && f["name"] ==
      if Truthy(GetOr(r.fields, "straat", VStr(""))) then GetOr(r.fields, "straat", VStr("")) else VStr("Parkeerplaats Eindhoven")
    ensures "id" in f && f["id"] == VStr("eindhoven_" + PyStr(GetOr(r.fields, "objectid", VStr(""))))
  {
    var street := GetOr(r.fields, "straat", VStr(""));
    var rest := map[
      "source" := VStr("eindhoven"),
      "source_detail" := VStr("Eindhoven Open Data - Parkeerplaatsen"),
      "geometry" := PointValue(lon, lat),
      "municipality" := VStr("Eindhoven"),
      "province" := VStr("Noord-Brabant"),
      "address" := street,
      "type_en_merk" := GetOr(r.fields, "type_en_merk", VStr("")),
      "last_updated" := VStr(now)];
    rest
      ["id" := VStr("eindhoven_" + PyStr(GetOr(r.fields, "objectid", VStr(""))))]
      ["name" := if Truthy(street) then street else VStr("Parkeerplaats Eindhoven")]
      ["type" := VStr(t)]
      ["latitude" := VReal(lat)]
      ["longitude" := VReal(lon)]
      ["capacity" := Capacity(r.fields)]
  }

  /** What one record adds to `facilities`: nothing when it has no position or is bicycle
      parking, else its facility. */
  function RecordFacilities(r: Record, now: string): (fs: seq<Properties>)
    requires Processable(r)
    ensures |fs| <= 1
    ensures |fs| == 1 <==>
      !Falsy(Coordinates(r).0) && !Falsy(Coordinates(r).1) &&
      ParkingType(LowerText(r.fields, "type_en_merk")).Some?
    ensures fs != [] ==> Located(fs[0]) && "type" in fs[0] && "capacity" in fs[0] && fs[0]["capacity"] == Capacity(r.fields)
  {
    var (lat, lon) := Coordinates(r);
    if Falsy(lat) || Falsy(lon) then []
    else
      match ParkingType(LowerText(r.fields, "type_en_merk"))
      case None => []
      case Some(t) => [Facility(r, t, lat.value, lon.value, now)]
  }

  /** `RecordFacilities` as a total function value; only processable records reach it. */
  function Records(r: Record, now: string): (fs: seq<Properties>)
    ensures AllLocated(fs) && AllTyped(fs)
  {
    if Processable(r) then RecordFacilities(r, now) else []
  }

  /** The facilities of the parking-place records, in record order. */
  function Parked(records: seq<Record>, now: string): (fs: seq<Properties>)
    ensures AllLocated(fs) && AllTyped(fs)
  {
    FlatMapAll(r => Records(r, now), records);
    FlatMap(r => Records(r, now), records)
  }

  /** The record loop of `fetch_parkeerplaatsen`. */
  method ProcessRecords(records: seq<Record>, now: string) returns (facilities: seq<Properties>)
    requires forall r :: r in records ==> Processable(r)
    ensures facilities == Parked(records, now)
  {
    facilities := CollectAll(records, r => Records(r, now));
  }

  lemma {:induction false} FlatMapAll(g: Record -> seq<Properties>, records: seq<Record>)
    requires forall r :: AllLocated(g(r)) && AllTyped(g(r))
    ensures AllLocated(FlatMap(g, records)) && AllTyped(FlatMap(g, records))
  {
    if records != [] {
      var p := records[..|records| - 1];
      FlatMapAll(g, p);
      var a, b := FlatMap(g, p), g(records[|records| - 1]);
      assert FlatMap(g, records) == a + b;
      assert forall i :: |a| <= i < |a| + |b| ==> (a + b)[i] == b[i - |a|];
    }
  }

  // ---- the garage proximity check in main ----

  /** `f["latitude"]` and `f["longitude"]` are numbers: the subtraction in the check raises
      otherwise. */
  predicate Located(f: Properties) {
    "latitude" in f && "longitude" in f && IsNumber(f["latitude"]) && IsNumber(f["longitude"])
  }

  predicate AllLocated(fs: seq<Properties>) {
    forall i :: 0 <= i < |fs| ==> Located(fs[i])
  }

  function Abs(x: real): real { if x < 0.0 then -x else x }

  /** Within 0.0001 degrees in latitude and in longitude, both strictly. */
  predicate Near(g: Properties, e: Properties)
    requires Located(g) && Located(e)
  {
    Abs(NumberValue(g["latitude"]) - NumberValue(e["latitude"])) < 0.0001 &&
    Abs(NumberValue(g["longitude"]) - NumberValue(e["longitude"])) < 0.0001
  }

  /** Some facility of `fs` is near `g`. */
  predicate NearAny(g: Properties, fs: seq<Properties>)
    requires Located(g) && AllLocated(fs)
  {
    exists i :: 0 <= i < |fs| && Near(g, fs[i])
  }

  /** The list after the garages `gs` went through the check: a garage is appended unless a
      facility already in the list, garages appended before it included, is near it. */
  function WithGarages(all: seq<Properties>, gs: seq<Properties>): (r: seq<Properties>)
    requires AllLocated(all) && AllLocated(gs)
    ensures AllLocated(r)
    ensures AllTyped(all) && AllTyped(gs) ==> AllTyped(r)
    ensures |all| <= |r| <= |all| + |gs|
  {
    if gs == [] then all
    else
      var acc := WithGarages(all, gs[..|gs| - 1]);
      var g := gs[|gs| - 1];
      if NearAny(g, acc) then acc else acc + [g]
  }

  /** The inner loop: `is_duplicate` with its `break`. */
  method IsDuplicate(garage: Properties, all: seq<Properties>) returns (isDuplicate: bool)
    requires Located(garage) && AllLocated(all)
    ensures isDuplicate <==> NearAny(garage, all)
  {
    isDuplicate := false;
    var i := 0;
    while i < |all|
      invariant 0 <= i <= |all|
      invariant !isDuplicate
      invariant forall k :: 0 <= k < i ==> !Near(garage, all[k])
    {
      var existing := all[i];
      if Abs(NumberValue(garage["latitude"]) - NumberValue(existing["latitude"])) < 0.0001 &&
         Abs(NumberValue(garage["longitude"]) - NumberValue(existing["longitude"])) < 0.0001 {
        isDuplicate := true;
        break;
      }
      i := i + 1;
    }
  }

  lemma WithGaragesSnoc(all: seq<Properties>, gs: seq<Properties>, i: nat)
    requires i < |gs| && AllLocated(all) && AllLocated(gs)
    ensures AllLocated(gs[..i]) && AllLocated(gs[..i + 1])
    ensures WithGarages(all, gs[..i + 1]) ==
      if NearAny(gs[i], WithGarages(all, gs[..i])) then WithGarages(all, gs[..i]) else WithGarages(all, gs[..i]) + [gs[i]]
  {
    assert gs[..i + 1][..i] == gs[..i];
  }

  /** The outer loop over the garages. */
  method AddGarages(facilities: seq<Properties>, garages: seq<Properties>) returns (all: seq<Properties>)
    requires AllLocated(facilities) && AllLocated(garages)
    ensures all == WithGarages(facilities, garages)
  {
    all := facilities;
    var i := 0;
    while i < |garages|
      invariant 0 <= i <= |garages|
      invariant AllLocated(garages[..i])
      invariant all == WithGarages(facilities, garages[..i])
    {
      WithGaragesSnoc(facilities, garages, i);
      var isDuplicate := IsDuplicate(garages[i], all);
      if !isDuplicate {
        all := all + [garages[i]];
      }
      i := i + 1;
    }
    assert garages[..|garages|] == garages;
  }

  /** The facilities come first, unchanged, and every garage added after them is one of the
      garages. */
  lemma {:induction false} WithGaragesExtends(all: seq<Properties>, gs: seq<Properties>)
    requires AllLocated(all) && AllLocated(gs)
    ensures WithGarages(all, gs)[..|all|] == all
    ensures forall k :: |all| <= k < |WithGarages(all, gs)| ==> WithGarages(all, gs)[k] in gs
  {
    if gs != [] {
      var p := gs[..|gs| - 1];
      assert AllLocated(p);
      WithGaragesExtends(all, p);
      var acc := WithGarages(all, p);
      forall k | |all| <= k < |WithGarages(all, gs)| ensures WithGarages(all, gs)[k] in gs {
        if k < |acc| {
          assert WithGarages(all, gs)[k] == acc[k];
          assert acc[k] in p;
        }
      }
    }
  }

  /** No garage is lost without a reason: every garage lies near some facility of the result,
      itself when it was added. */
  lemma {:induction false} EveryGarageCovered(all: seq<Properties>, gs: seq<Properties>)
    requires AllLocated(all) && AllLocated(gs)
    ensures forall j :: 0 <= j < |gs| ==> NearAny(gs[j], WithGarages(all, gs))
  {
    if gs != [] {
      var p := gs[..|gs| - 1];
      var g := gs[|gs| - 1];
      assert AllLocated(p);
      EveryGarageCovered(all, p);
      var acc := WithGarages(all, p);
      var r := WithGarages(all, gs);
      assert r[..|acc|] == acc;
      forall j | 0 <= j < |gs| ensures NearAny(gs[j], r) {
        if j < |p| {
          assert gs[j] == p[j];
          var i :| 0 <= i < |acc| && Near(p[j], acc[i]);
          assert r[i] == acc[i];
        } else if !NearAny(g, acc) {
          assert r[|acc|] == g;
          assert Near(g, g);
        } else {
          var i :| 0 <= i < |acc| && Near(g, acc[i]);
          assert r[i] == acc[i];
        }
      }
    }
  }

  /** Every added garage is away from everything before it in the list. */
  lemma {:induction false} AddedGaragesApart(all: seq<Properties>, gs: seq<Properties>)
    requires AllLocated(all) && AllLocated(gs)
    ensures forall k, i :: |all| <= k < |WithGarages(all, gs)| && 0 <= i < k ==>
      !Near(WithGarages(all, gs)[k], WithGarages(all, gs)[i])
  {
    if gs != [] {
      var p := gs[..|gs| - 1];
      var g := gs[|gs| - 1];
      assert AllLocated(p);
      AddedGaragesApart(all, p);
      var acc := WithGarages(all, p);
      var r := WithGarages(all, gs);
      forall k, i | |all| <= k < |r| && 0 <= i < k ensures !Near(r[k], r[i]) {
        if k < |acc| {
          assert r[k] == acc[k] && r[i] == acc[i];
        } else {
          assert r[k] == g && r[i] == acc[i];
        }
      }
    }
  }

  // ---- statistics ----

  /** `f["type"]`; every facility and garage carries one. */
  function TypeOf(f: Properties): Value { Get(f, "type") }

  predicate AllTyped(fs: seq<Properties>) {
    forall i :: 0 <= i < |fs| ==> "type" in fs[i]
  }

  /** `if f.get("capacity"):` */
  predicate HasCapacity(f: Properties) { Truthy(Get(f, "capacity")) }

  /** One more facility counted. */
  lemma StatisticsSnoc(all: seq<Properties>, i: nat)
    requires i < |all|
    ensures Tally.CountOf(Map(TypeOf, all[..i + 1])) == Tally.Bump(Tally.CountOf(Map(TypeOf, all[..i])), TypeOf(all[i]))
    ensures CountWhere(HasCapacity, all[..i + 1]) == CountWhere(HasCapacity, all[..i]) + (if HasCapacity(all[i]) then 1 else 0)
  {
    var f := all[i];
    assert all[..i + 1] == all[..i] + [f];
    MapSnoc(TypeOf, all[..i], f);
    CountWhereSnoc(HasCapacity, all[..i], f);
    Tally.CountOfSnoc(Map(TypeOf, all[..i]), TypeOf(f));
  }

  /** The body of the statistics loop for facility `i`. */
  method CountOne(all: seq<Properties>, i: nat, byType: Tally.Counter<Value>, withCapacity: nat)
    returns (byType': Tally.Counter<Value>, withCapacity': nat)
    requires i < |all|
    requires byType == Tally.CountOf(Map(TypeOf, all[..i])) && withCapacity == CountWhere(HasCapacity, all[..i])
    ensures byType' == Tally.CountOf(Map(TypeOf, all[..i + 1])) && withCapacity' == CountWhere(HasCapacity, all[..i + 1])
  {
    var f := all[i];
    StatisticsSnoc(all, i);
    byType' := Tally.Bump(byType, TypeOf(f));
    withCapacity' := withCapacity + if Truthy(Get(f, "capacity")) then 1 else 0;
  }

  /** The statistics loop of `main`: `total`, `by_type` and `with_capacity`. */
  method Statistics(all: seq<Properties>) returns (total: nat, byType: Tally.Counter<Value>, withCapacity: nat)
    requires AllTyped(all)
    ensures total == |all|
    ensures byType == Tally.CountOf(Map(TypeOf, all)) && Tally.Total(byType) == total
    ensures withCapacity == CountWhere(HasCapacity, all) <= total
  {
    total := |all|;
    byType := [];
    withCapacity := 0;
    var i := 0;
    while i < |all|
      invariant 0 <= i <= |all|
      invariant byType == Tally.CountOf(Map(TypeOf, all[..i]))
      invariant withCapacity == CountWhere(HasCapacity, all[..i])
    {
      byType, withCapacity := CountOne(all, i, byType, withCapacity);
      i := i + 1;
    }
    WholePrefix(all);
    Tally.TotalCountOf(Map(TypeOf, all));
  }

  /** `main`: the parking places, then the garages that pass the proximity check, then the
      counters. */
  method CombineSources(records: seq<Record>, garages: seq<Properties>, now: string)
    returns (all: seq<Properties>, total: nat, byType: Tally.Counter<Value>, withCapacity: nat)
    requires forall r :: r in records ==> Processable(r)
    requires AllLocated(garages) && AllTyped(garages)
    ensures all == WithGarages(Parked(records, now), garages)
    ensures all[..|Parked(records, now)|] == Parked(records, now)
    ensures forall j :: 0 <= j < |garages| ==> NearAny(garages[j], all)
    ensures forall k, i :: |Parked(records, now)| <= k < |all| && 0 <= i < k ==> !Near(all[k], all[i])
    ensures total == |all| && Tally.Total(byType) == total && withCapacity <= total
  {
    var facilities := ProcessRecords(records, now);
    all := AddGarages(facilities, garages);
    WithGaragesExtends(facilities, garages);
    EveryGarageCovered(facilities, garages);
    AddedGaragesApart(facilities, garages);
    total, byType, withCapacity := Statistics(all);
  }
}
