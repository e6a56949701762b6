/** scripts/fetch_amsterdam_parking.py: classifying and processing Amsterdam's parking bays
    (parkeervakken), the filter that drops bays without a position, and the summary counters. */
module Amsterdam {
  import opened Wrappers
  import opened Numbers
  import opened Text
  import opened Geo
  import opened Props
  import opened Seqs
  import Tally

  /** `properties.get(k, "")` */
  function Field(p: Properties, k: string): Value {
    GetOr(p, k, VStr(""))
  }

  // ---- classify_spot_type ----

  /** `classify_spot_type` runs without raising: `type` and `soort` are strings, as
      `.upper()` and `.lower()` demand. */
  predicate Classifiable(p: Properties) {
    Field(p, "type").VStr? && Field(p, "soort").VStr?
  }

  /** The values rendered with `str()` (a truthy `e_type`, the id value) are ones whose
      rendering the model fixes. */
  predicate Rendered(p: Properties) {
    (Truthy(Field(p, "e_type")) ==> IsScalarText(Field(p, "e_type"))) &&
    IsScalarText(IdValue(p))
  }

  const SpotTypes: set<string> := {"disabled", "ev_charging", "loading_zone", "permit", "street_paid"}

  predicate IsDisabledSpot(spotType: string, soort: string) {
    spotType == "MULDER" || Contains(soort, "gehandicapt")
  }

  predicate IsChargingSpot(eType: Value)
    requires Truthy(eType) ==> IsScalarText(eType)
  {
    Truthy(eType) && Contains(Upper(PyStr(eType)), "E")
  }

  predicate IsLoadingSpot(soort: string) {
    Contains(soort, "laden") || Contains(soort, "lossen")
  }

  /** The type of a bay, first rule that matches wins; fiscal bays and all others are paid. */
  function ClassifySpotType(p: Properties): (t: string)
    requires Classifiable(p) && Rendered(p)
    ensures t in SpotTypes
  {
    var spotType := Upper(Field(p, "type").s);
    var soort := Lower(Field(p, "soort").s);
    var eType := Field(p, "e_type");
    if IsDisabledSpot(spotType, soort) then "disabled"
    else if IsChargingSpot(eType) then "ev_charging"
    else if IsLoadingSpot(soort) then "loading_zone"
    else if Contains(soort, "vergunning") then "permit"
    else if spotType == "FISCAAL" then "street_paid"
    else "street_paid"
  }

  /** Each type is given exactly when its own rule matches and no earlier one does; street_paid
      is everything no rule claims, fiscal or not. */
  lemma ClassifySpotTypeRules(p: Properties)
    requires Classifiable(p) && Rendered(p)
    ensures var spotType, soort := Upper(Field(p, "type").s), Lower(Field(p, "soort").s);
      && (ClassifySpotType(p) == "disabled" <==> IsDisabledSpot(spotType, soort))
      && (ClassifySpotType(p) == "ev_charging" <==> !IsDisabledSpot(spotType, soort) && IsChargingSpot(Field(p, "e_type")))
      && (ClassifySpotType(p) == "loading_zone" <==>
           !IsDisabledSpot(spotType, soort) && !IsChargingSpot(Field(p, "e_type")) && IsLoadingSpot(soort))
      && (ClassifySpotType(p) == "permit" <==>
           !IsDisabledSpot(spotType, soort) && !IsChargingSpot(Field(p, "e_type")) && !IsLoadingSpot(soort) &&
           Contains(soort, "vergunning"))
      && (ClassifySpotType(p) == "street_paid" <==>
           !IsDisabledSpot(spotType, soort) && !IsChargingSpot(Field(p, "e_type")) && !IsLoadingSpot(soort) &&
           !Contains(soort, "vergunning"))
  {
  }

  /** The `FISCAAL` test decides nothing: replacing one non-MULDER type value by another never
      changes the classification. */
  lemma FiscalTestIsRedundant(p: Properties, a: string, b: string)
    requires Classifiable(p) && Rendered(p)
    requires Upper(a) != "MULDER" && Upper(b) != "MULDER"
    ensures Classifiable(p["type" := VStr(a)]) && Classifiable(p["type" := VStr(b)])
    ensures Rendered(p["type" := VStr(a)]) && Rendered(p["type" := VStr(b)])
    ensures ClassifySpotType(p["type" := VStr(a)]) == ClassifySpotType(p["type" := VStr(b)])
  {
    assert Field(p["type" := VStr(a)], "soort") == Field(p, "soort");
    assert Field(p["type" := VStr(b)], "soort") == Field(p, "soort");
    assert Field(p["type" := VStr(a)], "e_type") == Field(p, "e_type");
    assert Field(p["type" := VStr(b)], "e_type") == Field(p, "e_type");
  }

  // ---- coordinates ----

  /** The tuple `(None, None)`, which `json` writes as a two-element list. */
  const NoneTuple: Value := VList([VNull, VNull])

  /** The mean of a ring's vertices as `(lat, lon)` values, or `(None, None)` for an empty ring. */
  function RingMean(ring: seq<Pos>): (Value, Value) {
    if ring != [] then
      var m := VertexMean(ring);
      (VReal(m.lat), VReal(m.lon))
    else (VNull, VNull)
  }

  /** `(lat, lon)` as `process_feature` computes it, with `None` where it raises: a Point with
      no coordinate raises `IndexError`. Line 102,
      `lon, lat = coords[0], coords[1] if len(coords) >= 2 else (None, None)`, groups as
      `lon, lat = coords[0], (coords[1] if ... else (None, None))`, so a Point with a single
      coordinate gets that coordinate as `lon` and the tuple `(None, None)` as `lat`. */
  function CoordinatesAsWritten(g: Geometry): (r: Option<(Value, Value)>)
    ensures r.None? <==> g.Point? && g.coords == []
  {
    match g
    case Point(coords) =>
      if coords == [] then None
      else if |coords| >= 2 then Some((VReal(coords[1]), VReal(coords[0])))
      else Some((NoneTuple, VReal(coords[0])))
    case Polygon(rings) =>
      Some(if rings != [] then RingMean(rings[0]) else (VNull, VNull))
    case MultiPolygon(polys) =>
      Some(if polys != [] then RingMean(if polys[0] != [] then polys[0][0] else []) else (VNull, VNull))
    case OtherGeometry(_) => Some((VNull, VNull))
  }

  /** The coordinates as the line evidently means them: a Point with fewer than two coordinates
      has neither, like every other geometry without a usable position. */
  function Coordinates(g: Geometry): (r: (Value, Value))
    ensures g.Point? ==> r == if |g.coords| >= 2 then (VReal(g.coords[1]), VReal(g.coords[0])) else (VNull, VNull)
    ensures g.Polygon? ==> r == if g.rings != [] && g.rings[0] != [] then
      (VReal(VertexMean(g.rings[0]).lat), VReal(VertexMean(g.rings[0]).lon)) else (VNull, VNull)
    ensures g.MultiPolygon? ==> r == if g.polygons != [] && g.polygons[0] != [] && g.polygons[0][0] != [] then
      (VReal(VertexMean(g.polygons[0][0]).lat), VReal(VertexMean(g.polygons[0][0]).lon)) else (VNull, VNull)
    ensures g.OtherGeometry? ==> r == (VNull, VNull)
    ensures r.0 == VNull <==> r.1 == VNull
    ensures r.0 != VNull ==> r.0.VReal? && r.1.VReal?
  {
    match g
    case Point(coords) =>
      if |coords| >= 2 then (VReal(coords[1]), VReal(coords[0])) else (VNull, VNull)
    case _ => CoordinatesAsWritten(g).value
  }

  // ---- process_feature ----

  /** `props.get("id", props.get("volgnummer", ""))` */
  function IdValue(p: Properties): Value {
    GetOr(p, "id", GetOr(p, "volgnummer", VStr("")))
  }

  /** `int(props.get("aantal", 1))`, with 1 where `int()` raises. */
  function Aantal(p: Properties): (n: int)
    ensures GetOr(p, "aantal", VInt(1)).VInt? ==> n == GetOr(p, "aantal", VInt(1)).i
    ensures PyInt(GetOr(p, "aantal", VInt(1))).None? ==> n == 1
  {
    match PyInt(GetOr(p, "aantal", VInt(1)))
    case Some(n) => n
    case None => 1
  }

  /** The processed bay: its geometry, kept as it came, and the record's other fields. */
  function Spot(f: Feature, lat: Value, lon: Value, now: string): (s: Feature)
    requires Classifiable(f.properties) && Rendered(f.properties)
    ensures s.geometry == f.geometry
    ensures "type" in s.properties && s.properties["type"] == VStr(ClassifySpotType(f.properties))
    ensures "latitude" in s.properties && s.properties["latitude"] == lat
    ensures "longitude" in s.properties && s.properties["longitude"] == lon
    ensures "spot_count" in s.properties && s.properties["spot_count"] == VInt(Aantal(f.properties))
    ensures "capacity" in s.properties &&
      s.properties["capacity"] == if Aantal(f.properties) != 0 then VObj(map["total" := VInt(Aantal(f.properties))]) else VNull
    ensures "is_paid" in s.properties &&
      s.properties["is_paid"] == VBool(ClassifySpotType(f.properties) in {"street_paid", "permit"})
    ensures "soort" in s.properties && s.properties["soort"] == Field(f.properties, "soort")
  {
    var p := f.properties;
    var spotType := ClassifySpotType(p);
    var aantal := Aantal(p);
    var rest := map[
      "id" := VStr("ams_" + PyStr(IdValue(p))),
      "source" := VStr("amsterdam"),
      "name" := Field(p, "straatnaam"),
      "municipality" := VStr("Amsterdam"),
      "province" := VStr("Noord-Holland"),
      "fiscal_type" := Field(p, "type"),
      "e_type" := Field(p, "e_type"),
      "buurtcode" := Field(p, "buurtcode"),
      "straatnaam" := Field(p, "straatnaam"),
      "last_updated" := VStr(now)];
    Feature(f.geometry, rest
      ["type" := VStr(spotType)]
      ["latitude" := lat]
      ["longitude" := lon]
      ["capacity" := if aantal != 0 then VObj(map["total" := VInt(aantal)]) else VNull]
      ["spot_count" := VInt(aantal)]
      ["is_paid" := VBool(spotType in {"street_paid", "permit"})]
      ["soort" := Field(p, "soort")])
  }

  /** `process_feature` as written, `None` where it raises: on properties that do not classify
      and on a Point without coordinates. Otherwise the record keeps the geometry, carries the
      classified type and the coordinates as the line binds them. */
  function ProcessFeatureAsWritten(f: Feature, now: string): (r: Option<Feature>)
    requires Rendered(f.properties)
    ensures r.None? <==> !Classifiable(f.properties) || (f.geometry.Point? && f.geometry.coords == [])
    ensures r.Some? ==>
      && r.value.geometry == f.geometry
      && "type" in r.value.properties && r.value.properties["type"] == VStr(ClassifySpotType(f.properties))
      && "latitude" in r.value.properties && r.value.properties["latitude"] == CoordinatesAsWritten(f.geometry).value.0
      && "longitude" in r.value.properties && r.value.properties["longitude"] == CoordinatesAsWritten(f.geometry).value.1
  {
    if !Classifiable(f.properties) then None
    else
      match CoordinatesAsWritten(f.geometry)
      case Some((lat, lon)) => Some(Spot(f, lat, lon, now))
      case None => None
  }

  /** `process_feature` with the coordinate line corrected, `None` exactly where it raises, on
      properties that do not classify. The record keeps the geometry, carries the classified
      type and the corrected coordinates, and has a position only when both are non-zero
      numbers. */
  function ProcessFeature(f: Feature, now: string): (r: Option<Feature>)
    requires Rendered(f.properties)
    ensures r.None? <==> !Classifiable(f.properties)
    ensures r.Some? ==>
      && r.value.geometry == f.geometry
      && "type" in r.value.properties && r.value.properties["type"] == VStr(ClassifySpotType(f.properties))
      && "latitude" in r.value.properties && r.value.properties["latitude"] == Coordinates(f.geometry).0
      && "longitude" in r.value.properties && r.value.properties["longitude"] == Coordinates(f.geometry).1
    ensures r.Some? && HasPosition(r.value) ==> NumericPosition(r.value)
  {
    if !Classifiable(f.properties) then None
    else
      var (lat, lon) := Coordinates(f.geometry);
      Some(Spot(f, lat, lon, now))
  }

  /** `processed["latitude"] and processed["longitude"]` */
  predicate HasPosition(s: Feature) {
    "latitude" in s.properties && "longitude" in s.properties &&
    Truthy(s.properties["latitude"]) && Truthy(s.properties["longitude"])
  }

  /** Both coordinates are non-zero numbers. */
  predicate NumericPosition(s: Feature) {
    "latitude" in s.properties && s.properties["latitude"].VReal? && s.properties["latitude"].r != 0.0 &&
    "longitude" in s.properties && s.properties["longitude"].VReal? && s.properties["longitude"].r != 0.0
  }

  /** What one feature adds to `all_spots` in `main`: its processed bay when processing did
      not raise and the bay has a position. The branch for properties that do not render
      only makes the function total: `CollectSpots` requires every feature to render. */
  function KeptAsWritten(f: Feature, now: string): (rs: seq<Feature>)
    ensures |rs| <= 1
  {
    if Rendered(f.properties) then
      match ProcessFeatureAsWritten(f, now)
      case Some(s) => if HasPosition(s) then [s] else []
      case None => []
    else []
  }

  /** The same with the corrected coordinates; its non-rendering branch, too, only makes
      the function total. */
  function Kept(f: Feature, now: string): (rs: seq<Feature>)
    ensures |rs| <= 1
  {
    if Rendered(f.properties) then
      match ProcessFeature(f, now)
      case Some(s) => if HasPosition(s) then [s] else []
      case None => []
    else []
  }

  /** As written, a Point with a single non-zero coordinate is kept, with the tuple
      `(None, None)` as its latitude. */
  lemma AsWrittenKeepsOneCoordinatePoint(x: real, now: string)
    requires x != 0.0
    ensures var f := Feature(Point([x]), map["type" := VStr(""), "soort" := VStr("")]);
      |KeptAsWritten(f, now)| == 1 && KeptAsWritten(f, now)[0].properties["latitude"] == NoneTuple
  {
    var f := Feature(Point([x]), map["type" := VStr(""), "soort" := VStr("")]);
    assert IdValue(f.properties) == VStr("");
    assert Classifiable(f.properties);
  }

  /** Corrected, the same bay is dropped. */
  lemma CorrectedDropsOneCoordinatePoint(x: real, now: string)
    ensures Kept(Feature(Point([x]), map["type" := VStr(""), "soort" := VStr("")]), now) == []
  {
    var f := Feature(Point([x]), map["type" := VStr(""), "soort" := VStr("")]);
    assert IdValue(f.properties) == VStr("");
    assert Classifiable(f.properties);
  }

  /** Corrected, every kept bay has a non-zero number as its latitude and as its longitude. */
  lemma KeptHasNumericPosition(f: Feature, now: string)
    ensures forall s :: s in Kept(f, now) ==>
      NumericPosition(s)
  {
  }

  /** The two versions agree on every geometry but the Point with a single coordinate. */
  lemma CorrectionOnlyTouchesShortPoints(g: Geometry)
    requires !(g.Point? && |g.coords| == 1)
    ensures CoordinatesAsWritten(g).Some? ==> CoordinatesAsWritten(g).value == Coordinates(g)
  {
  }

  // ---- summary counters ----

  function TypeOf(s: Feature): Value { Get(s.properties, "type") }

  /** `s.get("soort", "unknown")` */
  function SoortOf(s: Feature): Value { GetOr(s.properties, "soort", VStr("unknown")) }

  /** `if soort:` */
  predicate HasSoort(s: Feature) { Truthy(SoortOf(s)) }

  /** `s.get("spot_count", 1)` */
  function SpotCountOf(s: Feature): Value { GetOr(s.properties, "spot_count", VInt(1)) }

  /** The sum adds numbers; a `spot_count` of another kind makes it raise. */
  predicate AllCounted(spots: seq<Feature>) {
    forall i :: 0 <= i < |spots| ==> SpotCountOf(spots[i]).VInt?
  }

  /** `sum(s.get("spot_count", 1) for s in all_spots)` */
  function TotalCapacity(spots: seq<Feature>): int
    requires AllCounted(spots)
  {
    if spots == [] then 0 else TotalCapacity(spots[..|spots| - 1]) + SpotCountOf(spots[|spots| - 1]).i
  }

  /** The `soort` values the loop counts, truthy ones only, in order. */
  function Soorts(spots: seq<Feature>): (r: seq<Value>)
    ensures |r| == CountWhere(HasSoort, spots)
  {
    if spots == [] then []
    else Soorts(spots[..|spots| - 1]) + (if Truthy(SoortOf(spots[|spots| - 1])) then [SoortOf(spots[|spots| - 1])] else [])
  }

  /** The counters of `main`'s statistics loop. */
  datatype Stats = Stats(total: nat, totalCapacity: int, byType: Tally.Counter<Value>, bySoort: Tally.Counter<Value>)

  /** One turn of the loop over the spots. */
  function StatStep(st: Stats, s: Feature): Stats
    requires SpotCountOf(s).VInt?
  {
    Stats(
      st.total + 1,
      st.totalCapacity + SpotCountOf(s).i,
      Tally.Bump(st.byType, TypeOf(s)),
      if HasSoort(s) then Tally.Bump(st.bySoort, SoortOf(s)) else st.bySoort)
  }

  /** The counters after the spots `spots`. */
  function StatsOf(spots: seq<Feature>): Stats
    requires AllCounted(spots)
  {
    if spots == [] then Stats(0, 0, [], []) else StatStep(StatsOf(spots[..|spots| - 1]), spots[|spots| - 1])
  }

  /** The loop's counters are the four statistics: the number of spots, the sum of their
      `spot_count`, the type counter and the counter of the truthy `soort` values. */
  lemma StatsOfParts(spots: seq<Feature>)
    requires AllCounted(spots)
    ensures StatsOf(spots).total == |spots|
    ensures StatsOf(spots).totalCapacity == TotalCapacity(spots)
    ensures StatsOf(spots).byType == Tally.CountOf(Map(TypeOf, spots))
    ensures StatsOf(spots).bySoort == Tally.CountOf(Soorts(spots))
  {
    StatsTotal(spots);
    StatsCapacity(spots);
    StatsByType(spots);
    StatsBySoort(spots);
  }

  lemma {:induction false} StatsTotal(spots: seq<Feature>)
    requires AllCounted(spots)
    ensures StatsOf(spots).total == |spots|
  {
    if spots != [] {
      StatsTotal(spots[..|spots| - 1]);
    }
  }

  lemma {:induction false} StatsCapacity(spots: seq<Feature>)
    requires AllCounted(spots)
    ensures StatsOf(spots).totalCapacity == TotalCapacity(spots)
  {
    if spots != [] {
      StatsCapacity(spots[..|spots| - 1]);
    }
  }

  lemma {:induction false} StatsByType(spots: seq<Feature>)
    requires AllCounted(spots)
    ensures StatsOf(spots).byType == Tally.CountOf(Map(TypeOf, spots))
  {
    if spots != [] {
      var p := spots[..|spots| - 1];
      var s := spots[|spots| - 1];
      StatsByType(p);
      assert spots == p + [s];
      MapSnoc(TypeOf, p, s);
      Tally.CountOfSnoc(Map(TypeOf, p), TypeOf(s));
    }
  }

  lemma {:induction false} StatsBySoort(spots: seq<Feature>)
    requires AllCounted(spots)
    ensures StatsOf(spots).bySoort == Tally.CountOf(Soorts(spots))
  {
    if spots != [] {
      var p := spots[..|spots| - 1];
      var s := spots[|spots| - 1];
      StatsBySoort(p);
      assert StatsOf(spots) == StatStep(StatsOf(p), s);
      if HasSoort(s) {
        assert Soorts(spots) == Soorts(p) + [SoortOf(s)];
        Tally.CountOfSnoc(Soorts(p), SoortOf(s));
      } else {
        assert Soorts(spots) == Soorts(p) + [];
        assert Soorts(p) + [] == Soorts(p);
      }
    }
  }

  /** The counters add up: `by_type` to the total, `by_soort` to the bays with a `soort`. */
  lemma StatsConsistent(spots: seq<Feature>)
    requires AllCounted(spots)
    ensures Tally.Total(StatsOf(spots).byType) == StatsOf(spots).total == |spots|
    ensures Tally.Total(StatsOf(spots).bySoort) == CountWhere(HasSoort, spots) <= StatsOf(spots).total
    ensures forall v :: Tally.Get(StatsOf(spots).byType, v) == multiset(Map(TypeOf, spots))[v]
    ensures StatsOf(spots).totalCapacity == TotalCapacity(spots)
  {
    StatsOfParts(spots);
    Tally.TotalCountOf(Map(TypeOf, spots));
    Tally.TotalCountOf(Soorts(spots));
    forall v ensures Tally.Get(StatsOf(spots).byType, v) == multiset(Map(TypeOf, spots))[v] {
      Tally.GetCountOf(Map(TypeOf, spots), v);
    }
  }

  lemma StatsSnoc(spots: seq<Feature>, i: nat)
    requires i < |spots| && AllCounted(spots)
    ensures AllCounted(spots[..i]) && AllCounted(spots[..i + 1])
    ensures StatsOf(spots[..i + 1]) == StatStep(StatsOf(spots[..i]), spots[i])
  {
    assert spots[..i + 1][..i] == spots[..i];
  }

  /** The body of the statistics loop. */
  method CountSpot(st0: Stats, s: Feature) returns (st: Stats)
    requires SpotCountOf(s).VInt?
    ensures st == StatStep(st0, s)
  {
    st := st0;
    st := st.(totalCapacity := st.totalCapacity + SpotCountOf(s).i);
    st := st.(byType := Tally.Bump(st.byType, TypeOf(s)));
    var soort := SoortOf(s);
    if Truthy(soort) {
      st := st.(bySoort := Tally.Bump(st.bySoort, soort));
    }
    st := st.(total := st.total + 1);
  }

  /** The statistics loop of `main`. */
  method Statistics(spots: seq<Feature>) returns (stats: Stats)
    requires AllCounted(spots)
    ensures stats == StatsOf(spots)
  {
    stats := Stats(0, 0, [], []);
    var i := 0;
    while i < |spots|
      invariant 0 <= i <= |spots|
      invariant stats == StatsOf(spots[..i])
    {
      StatsSnoc(spots, i);
      stats := CountSpot(stats, spots[i]);
      i := i + 1;
    }
    assert spots[..|spots|] == spots;
  }

  /** Every bay `main` builds carries an integer `spot_count`. */
  lemma {:induction false} KeptCounted(features: seq<Feature>, now: string)
    ensures AllCounted(FlatMap(f => Kept(f, now), features))
    ensures forall s :: s in FlatMap(f => Kept(f, now), features) ==>
      NumericPosition(s)
  {
    if features != [] {
      var p := features[..|features| - 1];
      var f := features[|features| - 1];
      KeptCounted(p, now);
      FlatMapSnoc(f => Kept(f, now), p, f);
      assert features == p + [f];
      KeptHasNumericPosition(f, now);
    }
  }

  /** `main`, with the corrected coordinates: the bays that process and have a position, in
      order, and the statistics over them. */
  method CollectSpots(features: seq<Feature>, now: string) returns (allSpots: seq<Feature>, stats: Stats)
    requires forall f :: f in features ==> Rendered(f.properties)
    ensures allSpots == FlatMap(f => Kept(f, now), features)
    ensures |allSpots| <= |features|
    ensures forall s :: s in allSpots ==>
      NumericPosition(s)
    ensures AllCounted(allSpots) && stats == StatsOf(allSpots)
    ensures Tally.Total(stats.byType) == stats.total == |allSpots|
    ensures Tally.Total(stats.bySoort) <= stats.total
  {
    allSpots := CollectAll(features, f => Kept(f, now));
    KeptAtMostOne(features, now);
    KeptCounted(features, now);
    stats := Statistics(allSpots);
    StatsConsistent(allSpots);
  }

  /** Each feature adds at most one bay. */
  lemma KeptAtMostOne(features: seq<Feature>, now: string)
    ensures |FlatMap(f => Kept(f, now), features)| <= |features|
  {
    Seqs.FlatMapAtMostOne(f => Kept(f, now), features);
  }
}
