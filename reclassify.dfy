/** Size-based truck/car reclassification of mapped parking spaces
    (scripts/reclassify_osm_parking_by_size.py). The metre distance between two
    positions is a parameter: its trigonometric body is not part of this model. */
module Reclassify {
  import opened Wrappers
  import opened Geo
  import opened Props
  import opened Numbers

  /** CROW ASVV 2021 minimum truck bay, in metres. */
  const TruckMinWidth: real := 3.5
  const TruckMinLength: real := 13.0

  const SizeBased: string := "size-based (CROW ASVV 2021)"
  const TagBased: string := "tag-based"

  datatype Dimensions = Dimensions(width: real, length: real, area: real)

  /** `calculate_polygon_dimensions`: `None` for fewer than four points; otherwise the
      shorter and the longer of the first two edges and their product. */
  function PolygonDimensions(dist: (Pos, Pos) -> real, ring: seq<Pos>): (r: Option<Dimensions>)
    ensures r.None? <==> |ring| < 4
    ensures r.Some? ==> r.value.width <= r.value.length
    ensures r.Some? ==> r.value.area == r.value.width * r.value.length
    ensures r.Some? ==> {r.value.width, r.value.length} == {dist(ring[0], ring[1]), dist(ring[1], ring[2])}
  {
    if |ring| < 4 then None
    else
      var e1 := dist(ring[0], ring[1]);
      var e2 := dist(ring[1], ring[2]);
      var w := if e1 <= e2 then e1 else e2;
      var l := if e1 <= e2 then e2 else e1;
      Some(Dimensions(w, l, w * l))
  }

  /** `width and length and area`: all three non-zero. */
  predicate Usable(d: Dimensions) {
    d.width != 0.0 && d.length != 0.0 && d.area != 0.0
  }

  /** Both minimums must be met for a truck bay. */
  predicate IsTruckSize(d: Dimensions) {
    d.width >= TruckMinWidth && d.length >= TruckMinLength
  }

  /** What the loop does with one feature. */
  datatype Outcome = PointTruck | PointCar | SizedTruck | SizedCar | Untouched

  /** The features the loop can index without raising: a Polygon has an outer ring,
      a Point has a `vehicle_type`. */
  predicate Processable(f: Feature) {
    match f.geometry
    case Polygon(rings) => |rings| > 0
    case Point(_) => "vehicle_type" in f.properties
    case _ => true
  }

  function OutcomeOf(dist: (Pos, Pos) -> real, f: Feature): (o: Outcome)
    requires Processable(f)
    ensures o == SizedTruck <==> f.geometry.Polygon? && PolygonDimensions(dist, f.geometry.rings[0]).Some?
                                 && Usable(PolygonDimensions(dist, f.geometry.rings[0]).value)
                                 && IsTruckSize(PolygonDimensions(dist, f.geometry.rings[0]).value)
    ensures o in {SizedTruck, SizedCar} <==>
      f.geometry.Polygon? && PolygonDimensions(dist, f.geometry.rings[0]).Some? && Usable(PolygonDimensions(dist, f.geometry.rings[0]).value)
    ensures o == PointTruck <==> f.geometry.Point? && f.properties["vehicle_type"] == VStr("truck")
    ensures o == PointCar <==> f.geometry.Point? && f.properties["vehicle_type"] != VStr("truck")
    ensures o == Untouched ==> !f.geometry.Point?
  {
    match f.geometry
    case Polygon(rings) =>
      var d := PolygonDimensions(dist, rings[0]);
      if d.Some? && Usable(d.value) then (if IsTruckSize(d.value) then SizedTruck else SizedCar)
      else Untouched
    case Point(_) => if f.properties["vehicle_type"] == VStr("truck") then PointTruck else PointCar
    case _ => Untouched
  }

  /** The feature after the loop body: sized polygons get their rounded dimensions, the
      new `vehicle_type` and the size-based method; points get the tag-based method. */
  function Reclassified(dist: (Pos, Pos) -> real, f: Feature): (g: Feature)
    requires Processable(f)
    ensures g.geometry == f.geometry
    ensures OutcomeOf(dist, f) == Untouched ==> g == f
    ensures OutcomeOf(dist, f) in {SizedTruck, SizedCar} ==>
      var d := PolygonDimensions(dist, f.geometry.rings[0]).value;
      g.properties == f.properties["width_m" := VReal(RoundTo(d.width, 2))]
                                  ["length_m" := VReal(RoundTo(d.length, 2))]
                                  ["area_m2" := VReal(RoundTo(d.area, 1))]
                                  ["vehicle_type" := VStr(if OutcomeOf(dist, f) == SizedTruck then "truck" else "car")]
                                  ["classification_method" := VStr(SizeBased)]
    ensures f.geometry.Point? ==>
      g.properties == f.properties["classification_method" := VStr(TagBased)]
  {
    match OutcomeOf(dist, f)
    case Untouched => f
    case PointTruck => f.(properties := f.properties["classification_method" := VStr(TagBased)])
    case PointCar => f.(properties := f.properties["classification_method" := VStr(TagBased)])
    case _ =>
      var d := PolygonDimensions(dist, f.geometry.rings[0]).value;
      var p := f.properties["width_m" := VReal(RoundTo(d.width, 2))]
                           ["length_m" := VReal(RoundTo(d.length, 2))]
                           ["area_m2" := VReal(RoundTo(d.area, 1))]
                           ["vehicle_type" := VStr(if IsTruckSize(d) then "truck" else "car")]
                           ["classification_method" := VStr(SizeBased)];
      f.(properties := p)
  }

  function CountWhere(dist: (Pos, Pos) -> real, fs: seq<Feature>, os: set<Outcome>): (n: nat)
    requires forall i :: 0 <= i < |fs| ==> Processable(fs[i])
    ensures n <= |fs|
  {
    if fs == [] then 0
    else CountWhere(dist, fs[..|fs| - 1], os) + (if OutcomeOf(dist, fs[|fs| - 1]) in os then 1 else 0)
  }

  lemma CountWhereSnoc(dist: (Pos, Pos) -> real, fs: seq<Feature>, i: nat, os: set<Outcome>)
    requires i < |fs| && forall j :: 0 <= j < |fs| ==> Processable(fs[j])
    ensures CountWhere(dist, fs[..i + 1], os) == CountWhere(dist, fs[..i], os) + (if OutcomeOf(dist, fs[i]) in os then 1 else 0)
  {
    assert fs[..i + 1][..i] == fs[..i];
  }

  /** The counter increments of one pass of the loop body: a sized polygon adds to `sized`
      and to the truck or car count, a point to `point_count` and to the truck or car count
      by its tag. */
  method CountFeature(dist: (Pos, Pos) -> real, f: Feature) returns (truck: nat, car: nat, point: nat, sized: nat)
    requires Processable(f)
    ensures truck == if OutcomeOf(dist, f) in {PointTruck, SizedTruck} then 1 else 0
    ensures car == if OutcomeOf(dist, f) in {PointCar, SizedCar} then 1 else 0
    ensures point == if OutcomeOf(dist, f) in {PointTruck, PointCar} then 1 else 0
    ensures sized == if OutcomeOf(dist, f) in {SizedTruck, SizedCar} then 1 else 0
    ensures truck + car == point + sized
  {
    truck, car, point, sized := 0, 0, 0, 0;
    match f.geometry {
      case Polygon(rings) =>
        var d := PolygonDimensions(dist, rings[0]);
        if d.Some? && Usable(d.value) {
          sized := 1;
          if IsTruckSize(d.value) {
            truck := 1;
          } else {
            car := 1;
          }
        }
      case Point(_) =>
        point := 1;
        if f.properties["vehicle_type"] == VStr("truck") {
          truck := 1;
        } else {
          car := 1;
        }
      case _ =>
    }
  }

  /** The counters once the loop body has seen `features[i]`. */
  method CountThrough(dist: (Pos, Pos) -> real, features: seq<Feature>, i: nat, truckCount: nat, carCount: nat, pointCount: nat, sized: nat)
    returns (truckCount': nat, carCount': nat, pointCount': nat, sized': nat)
    requires i < |features| && forall j :: 0 <= j < |features| ==> Processable(features[j])
    requires truckCount == CountWhere(dist, features[..i], {PointTruck, SizedTruck})
    requires carCount == CountWhere(dist, features[..i], {PointCar, SizedCar})
    requires pointCount == CountWhere(dist, features[..i], {PointTruck, PointCar})
    requires sized == CountWhere(dist, features[..i], {SizedTruck, SizedCar})
    requires truckCount + carCount == pointCount + sized
    ensures truckCount' == CountWhere(dist, features[..i + 1], {PointTruck, SizedTruck})
    ensures carCount' == CountWhere(dist, features[..i + 1], {PointCar, SizedCar})
    ensures pointCount' == CountWhere(dist, features[..i + 1], {PointTruck, PointCar})
    ensures sized' == CountWhere(dist, features[..i + 1], {SizedTruck, SizedCar})
    ensures truckCount' + carCount' == pointCount' + sized'
  {
    CountWhereSnoc(dist, features, i, {PointTruck, SizedTruck});
    CountWhereSnoc(dist, features, i, {PointCar, SizedCar});
    CountWhereSnoc(dist, features, i, {PointTruck, PointCar});
    CountWhereSnoc(dist, features, i, {SizedTruck, SizedCar});
    var truck, car, point, size := CountFeature(dist, features[i]);
    truckCount', carCount', pointCount', sized' := truckCount + truck, carCount + car, pointCount + point, sized + size;
  }

  /** The loop of `reclassify_parking_spaces`, on values: the updated feature list and the
      three counters. Every point and every sized polygon is counted exactly once. */
  method ReclassifySpaces(dist: (Pos, Pos) -> real, features: seq<Feature>)
    returns (out: seq<Feature>, truckCount: nat, carCount: nat, pointCount: nat)
    requires forall i :: 0 <= i < |features| ==> Processable(features[i])
    ensures |out| == |features|
    ensures forall i :: 0 <= i < |features| ==> out[i] == Reclassified(dist, features[i])
    ensures truckCount == CountWhere(dist, features, {PointTruck, SizedTruck})
    ensures carCount == CountWhere(dist, features, {PointCar, SizedCar})
    ensures pointCount == CountWhere(dist, features, {PointTruck, PointCar})
    ensures truckCount + carCount == pointCount + CountWhere(dist, features, {SizedTruck, SizedCar})
  {
    out := [];
    truckCount, carCount, pointCount := 0, 0, 0;
    var sized := 0;
    var i := 0;
    while i < |features|
      invariant 0 <= i <= |features|
      invariant |out| == i
      invariant forall j :: 0 <= j < i ==> out[j] == Reclassified(dist, features[j])
      invariant truckCount == CountWhere(dist, features[..i], {PointTruck, SizedTruck})
      invariant carCount == CountWhere(dist, features[..i], {PointCar, SizedCar})
      invariant pointCount == CountWhere(dist, features[..i], {PointTruck, PointCar})
      invariant sized == CountWhere(dist, features[..i], {SizedTruck, SizedCar})
      invariant truckCount + carCount == pointCount + sized
    {
      truckCount, carCount, pointCount, sized := CountThrough(dist, features, i, truckCount, carCount, pointCount, sized);
      out := out + [Reclassified(dist, features[i])];
      i := i + 1;
    }
    assert features[..|features|] == features;
  }

  /** A sized polygon is a truck bay exactly when it meets both minimums; it does not
      matter which of the two edges came first. */
  lemma TruckIffBothMinimums(dist: (Pos, Pos) -> real, f: Feature)
    requires Processable(f) && f.geometry.Polygon?
    requires OutcomeOf(dist, f) in {SizedTruck, SizedCar}
    ensures var r := f.geometry.rings[0];
            var e1, e2 := dist(r[0], r[1]), dist(r[1], r[2]);
            OutcomeOf(dist, f) == SizedTruck <==>
              (e1 <= e2 ==> e1 >= TruckMinWidth && e2 >= TruckMinLength) &&
              (e2 < e1 ==> e2 >= TruckMinWidth && e1 >= TruckMinLength)
  {
  }
}
