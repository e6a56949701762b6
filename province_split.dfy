/** Splitting the national parking-space layer into one bucket per province by
    first-matching bounding box (scripts/split_parking_by_province.py). */
module ProvinceSplit {
  import opened Wrappers
  import opened Geo
  import opened Props

  datatype Province = Province(key: string, name: string, bounds: Box)

  /** The twelve approximate province boxes, in declaration order. */
  const Provinces: seq<Province> := [
    Province("groningen", "Groningen", Box(53.15, 53.55, 6.20, 7.25)),
    Province("friesland", "Friesland", Box(52.85, 53.40, 5.35, 6.30)),
    Province("drenthe", "Drenthe", Box(52.65, 53.15, 6.30, 7.05)),
    Province("overijssel", "Overijssel", Box(52.20, 52.75, 6.00, 7.00)),
    Province("flevoland", "Flevoland", Box(52.35, 52.75, 5.25, 5.80)),
    Province("gelderland", "Gelderland", Box(51.75, 52.25, 5.35, 6.70)),
    Province("utrecht", "Utrecht", Box(51.95, 52.25, 4.90, 5.45)),
    Province("noord-holland", "Noord-Holland", Box(52.25, 53.00, 4.60, 5.25)),
    Province("zuid-holland", "Zuid-Holland", Box(51.75, 52.25, 3.90, 4.90)),
    Province("zeeland", "Zeeland", Box(51.28, 51.70, 3.40, 4.25)),
    Province("noord-brabant", "Noord-Brabant", Box(51.35, 51.85, 4.50, 5.90)),
    Province("limburg", "Limburg", Box(50.75, 51.50, 5.70, 6.25))
  ]

  /** `point_in_bounds(lon, lat, bounds)` */
  predicate PointInBounds(lon: real, lat: real, b: Box) {
    InBox(Pos(lon, lat), b)
  }

  /** Every edge belongs to the box: the four corners are inside. */
  lemma PointInBoundsInclusive(b: Box)
    requires b.minLat <= b.maxLat && b.minLon <= b.maxLon
    ensures PointInBounds(b.minLon, b.minLat, b) && PointInBounds(b.maxLon, b.maxLat, b)
    ensures PointInBounds(b.minLon, b.maxLat, b) && PointInBounds(b.maxLon, b.minLat, b)
  {
  }

  /** The geometries `get_feature_centroid` handles without raising: a Point unpacks
      into exactly two numbers, a Polygon has a non-empty outer ring. */
  predicate HasCentroid(g: Geometry) {
    match g
    case Point(cs) => |cs| == 2
    case Polygon(rings) => |rings| > 0 && |rings[0]| > 0
    case _ => true
  }

  /** `get_feature_centroid` */
  function Centroid(g: Geometry): (c: Pos)
    requires HasCentroid(g)
    ensures g.Point? ==> c == Pos(g.coords[0], g.coords[1])
    ensures g.Polygon? ==> c == VertexMean(g.rings[0])
    ensures !g.Point? && !g.Polygon? ==> c == Pos(0.0, 0.0)
  {
    match g
    case Point(cs) => Pos(cs[0], cs[1])
    case Polygon(rings) => VertexMean(rings[0])
    case _ => Pos(0.0, 0.0)
  }

  /** A polygon whose outer ring lies in a box has its centroid in that box. */
  lemma PolygonCentroidInBox(g: Geometry, b: Box)
    requires g.Polygon? && HasCentroid(g)
    requires forall i :: 0 <= i < |g.rings[0]| ==> InBox(g.rings[0][i], b)
    ensures InBox(Centroid(g), b)
  {
    VertexMeanInBox(g.rings[0], b);
  }

  /** The province the assignment loop picks: the first in declaration order whose box holds `c`. */
  function FirstProvince(c: Pos): (r: Option<nat>)
    ensures r.Some? ==> r.value < |Provinces| && InBox(c, Provinces[r.value].bounds)
    ensures r.Some? ==> forall j :: 0 <= j < r.value ==> !InBox(c, Provinces[j].bounds)
    ensures r.None? ==> forall j :: 0 <= j < |Provinces| ==> !InBox(c, Provinces[j].bounds)
  {
    FirstFrom(c, 0)
  }

  function FirstFrom(c: Pos, k: nat): (r: Option<nat>)
    requires k <= |Provinces|
    ensures r.Some? ==> k <= r.value < |Provinces| && InBox(c, Provinces[r.value].bounds)
    ensures r.Some? ==> forall j :: k <= j < r.value ==> !InBox(c, Provinces[j].bounds)
    ensures r.None? ==> forall j :: k <= j < |Provinces| ==> !InBox(c, Provinces[j].bounds)
    decreases |Provinces| - k
  {
    if k == |Provinces| then None
    else if InBox(c, Provinces[k].bounds) then Some(k)
    else FirstFrom(c, k + 1)
  }

  /** The inner `for province_key, province_info in PROVINCES.items(): ... break`. */
  method FindProvince(lon: real, lat: real) returns (r: Option<nat>)
    ensures r == FirstProvince(Pos(lon, lat))
  {
    var k := 0;
    while k < |Provinces|
      invariant 0 <= k <= |Provinces|
      invariant FirstProvince(Pos(lon, lat)) == FirstFrom(Pos(lon, lat), k)
    {
      if PointInBounds(lon, lat, Provinces[k].bounds) {
        return Some(k);
      }
      k := k + 1;
    }
    return None;
  }

  /** No province box holds the origin. */
  lemma OriginInNoProvince()
    ensures FirstProvince(Pos(0.0, 0.0)) == None
  {
    assert forall j :: 0 <= j < |Provinces| ==> !InBox(Pos(0.0, 0.0), Provinces[j].bounds);
  }

  /** A feature that is neither a Point nor a Polygon always ends up unassigned. */
  lemma OtherGeometryUnassigned(f: Feature)
    requires !f.geometry.Point? && !f.geometry.Polygon?
    ensures FirstProvince(Centroid(f.geometry)) == None
  {
    OriginInNoProvince();
  }

  /** `feature['properties']['province'] = name` */
  function Tagged(f: Feature, k: nat): (t: Feature)
    requires k < |Provinces|
    ensures t.geometry == f.geometry
    ensures t.properties.Keys == f.properties.Keys + {"province"}
    ensures t.properties["province"] == VStr(Provinces[k].name)
    ensures forall key :: key in f.properties && key != "province" ==> t.properties[key] == f.properties[key]
  {
    f.(properties := f.properties["province" := VStr(Provinces[k].name)])
  }

  predicate AllHaveCentroid(fs: seq<Feature>) {
    forall i :: 0 <= i < |fs| ==> HasCentroid(fs[i].geometry)
  }

  function Dest(f: Feature): Option<nat>
    requires HasCentroid(f.geometry)
  {
    FirstProvince(Centroid(f.geometry))
  }

  /** The buckets after the assignment loop has seen `fs`, one per province. */
  function Buckets(fs: seq<Feature>): (b: seq<seq<Feature>>)
    requires AllHaveCentroid(fs)
    ensures |b| == |Provinces|
  {
    if fs == [] then seq(|Provinces|, _ => [])
    else
      var b := Buckets(fs[..|fs| - 1]);
      var f := fs[|fs| - 1];
      match Dest(f)
      case Some(k) => b[k := b[k] + [Tagged(f, k)]]
      case None => b
  }

  /** `unassigned` after the assignment loop has seen `fs`. */
  function Unassigned(fs: seq<Feature>): seq<Feature>
    requires AllHaveCentroid(fs)
  {
    if fs == [] then []
    else
      var u := Unassigned(fs[..|fs| - 1]);
      var f := fs[|fs| - 1];
      if Dest(f).None? then u + [f] else u
  }

  /** The assignment loop of `split_by_province`. */
  method SplitByProvince(features: seq<Feature>) returns (buckets: seq<seq<Feature>>, unassigned: seq<Feature>)
    requires AllHaveCentroid(features)
    ensures buckets == Buckets(features)
    ensures unassigned == Unassigned(features)
  {
    buckets := seq(|Provinces|, _ => []);
    unassigned := [];
    var i := 0;
    while i < |features|
      invariant 0 <= i <= |features|
      invariant buckets == Buckets(features[..i])
      invariant unassigned == Unassigned(features[..i])
    {
      var f := features[i];
      assert features[..i + 1][..i] == features[..i];
      var c := Centroid(f.geometry);
      var k := FindProvince(c.lon, c.lat);
      if k.Some? {
        buckets := buckets[k.value := buckets[k.value] + [Tagged(f, k.value)]];
      } else {
        unassigned := unassigned + [f];
      }
      i := i + 1;
    }
    assert features[..|features|] == features;
  }

  function TotalLength<T>(bs: seq<seq<T>>): nat {
    if bs == [] then 0 else |bs[0]| + TotalLength(bs[1..])
  }

  lemma {:induction false} TotalLengthUpdate<T>(bs: seq<seq<T>>, k: nat, x: T)
    requires k < |bs|
    ensures TotalLength(bs[k := bs[k] + [x]]) == TotalLength(bs) + 1
  {
    if k > 0 {
      assert bs[k := bs[k] + [x]][1..] == bs[1..][k - 1 := bs[k] + [x]];
      TotalLengthUpdate(bs[1..], k - 1, x);
    } else {
      assert bs[0 := bs[0] + [x]][1..] == bs[1..];
    }
  }

  lemma {:induction false} TotalLengthEmpty<T>(n: nat)
    ensures TotalLength(seq<seq<T>>(n, _ => [])) == 0
  {
    if n > 0 {
      assert seq<seq<T>>(n, _ => [])[1..] == seq<seq<T>>(n - 1, _ => []);
      TotalLengthEmpty<T>(n - 1);
    }
  }

  /** Every feature has exactly one destination: the bucket sizes plus the
      unassigned count equal `total_features`. */
  lemma {:induction false} EveryFeatureOnce(fs: seq<Feature>)
    requires AllHaveCentroid(fs)
    ensures TotalLength(Buckets(fs)) + |Unassigned(fs)| == |fs|
  {
    if fs == [] {
      TotalLengthEmpty<Feature>(|Provinces|);
    } else {
      var p := fs[..|fs| - 1];
      assert AllHaveCentroid(p);
      EveryFeatureOnce(p);
      var f := fs[|fs| - 1];
      if Dest(f).Some? {
        TotalLengthUpdate(Buckets(p), Dest(f).value, Tagged(f, Dest(f).value));
      }
    }
  }

  /** Bucket `k` holds, in input order, exactly the features whose first matching
      province is `k`, each tagged with that province's name. */
  lemma {:induction false} BucketContents(fs: seq<Feature>, k: nat)
    requires AllHaveCentroid(fs)
    requires k < |Provinces|
    ensures Buckets(fs)[k] == BucketOf(fs, k)
  {
    if fs != [] {
      var p := fs[..|fs| - 1];
      assert AllHaveCentroid(p);
      BucketContents(p, k);
    }
  }

  /** `[tagged(f) for f in fs if first_province(f) == k]` */
  function BucketOf(fs: seq<Feature>, k: nat): seq<Feature>
    requires AllHaveCentroid(fs)
    requires k < |Provinces|
  {
    if fs == [] then []
    else
      var f := fs[|fs| - 1];
      BucketOf(fs[..|fs| - 1], k) + (if Dest(f) == Some(k) then [Tagged(f, k)] else [])
  }

  /** One entry of `province_stats`. */
  datatype ProvinceStat = ProvinceStat(name: string, key: string, total: nat, truck: nat, car: nat)

  /** `len([f for f in features if f['properties']['vehicle_type'] == v])` */
  function CountVehicle(fs: seq<Feature>, v: string): (n: nat)
    requires forall i :: 0 <= i < |fs| ==> "vehicle_type" in fs[i].properties
    ensures n <= |fs|
  {
    if fs == [] then 0
    else CountVehicle(fs[..|fs| - 1], v) + (if fs[|fs| - 1].properties["vehicle_type"] == VStr(v) then 1 else 0)
  }

  /** Trucks and cars are disjoint categories: together they never exceed the bucket. */
  lemma {:induction false} TruckPlusCarAtMostTotal(fs: seq<Feature>)
    requires forall i :: 0 <= i < |fs| ==> "vehicle_type" in fs[i].properties
    ensures CountVehicle(fs, "truck") + CountVehicle(fs, "car") <= |fs|
  {
    if fs != [] {
      TruckPlusCarAtMostTotal(fs[..|fs| - 1]);
    }
  }

  predicate VehicleTyped(bs: seq<seq<Feature>>) {
    forall k, i :: 0 <= k < |bs| && 0 <= i < |bs[k]| ==> "vehicle_type" in bs[k][i].properties
  }

  /** `province_stats`: one entry per province that received features, in province order. */
  function ProvinceStats(bs: seq<seq<Feature>>): (st: seq<ProvinceStat>)
    requires |bs| == |Provinces|
    requires VehicleTyped(bs)
    ensures |st| <= |bs|
  {
    StatsFrom(bs, 0)
  }

  function StatsFrom(bs: seq<seq<Feature>>, k: nat): (st: seq<ProvinceStat>)
    requires |bs| == |Provinces| && k <= |bs|
    requires VehicleTyped(bs)
    ensures |st| <= |bs| - k
    ensures forall s :: s in st ==> s.truck + s.car <= s.total
    decreases |bs| - k
  {
    if k == |bs| then []
    else if bs[k] == [] then StatsFrom(bs, k + 1)
    else
      TruckPlusCarAtMostTotal(bs[k]);
      [ProvinceStat(Provinces[k].name, Provinces[k].key, |bs[k]|,
                    CountVehicle(bs[k], "truck"), CountVehicle(bs[k], "car"))] + StatsFrom(bs, k + 1)
  }

  /** The stats entry for a key, `next((s for s in stats if s['key'] == key), None)`. */
  function StatFor(st: seq<ProvinceStat>, key: string): Option<ProvinceStat> {
    if st == [] then None else if st[0].key == key then Some(st[0]) else StatFor(st[1..], key)
  }

  lemma {:induction false} StatForFrom(bs: seq<seq<Feature>>, k: nat, j: nat)
    requires |bs| == |Provinces| && k <= j < |bs|
    requires VehicleTyped(bs)
    ensures StatFor(StatsFrom(bs, k), Provinces[j].key).Some? <==> bs[j] != []
    ensures bs[j] != [] ==> StatFor(StatsFrom(bs, k), Provinces[j].key).value.total == |bs[j]|
    decreases |bs| - k
  {
    DistinctProvinceKeys();
    if k < |bs| && k != j {
      StatForFrom(bs, k + 1, j);
    }
    if k == j && bs[k] == [] {
      StatForAbsent(bs, k + 1, j);
    }
  }

  lemma {:induction false} StatForAbsent(bs: seq<seq<Feature>>, k: nat, j: nat)
    requires |bs| == |Provinces| && j < k <= |bs|
    requires VehicleTyped(bs)
    ensures StatFor(StatsFrom(bs, k), Provinces[j].key).None?
    decreases |bs| - k
  {
    DistinctProvinceKeys();
    if k < |bs| {
      StatForAbsent(bs, k + 1, j);
    }
  }

  lemma DistinctProvinceKeys()
    ensures forall i, j :: 0 <= i < j < |Provinces| ==> Provinces[i].key != Provinces[j].key
  {
  }

  /** One entry of `province_index`. */
  datatype IndexEntry = IndexEntry(name: string, bounds: Box, file: string, stats: Option<ProvinceStat>)

  /** `province_index`: every province with its file path; `stats` is `None` exactly for
      the provinces that received no features. */
  function ProvinceIndex(bs: seq<seq<Feature>>): (idx: map<string, IndexEntry>)
    requires |bs| == |Provinces|
    requires VehicleTyped(bs)
    ensures forall k :: 0 <= k < |Provinces| ==> Provinces[k].key in idx
    ensures forall key :: key in idx ==> exists k :: 0 <= k < |Provinces| && Provinces[k].key == key
  {
    map k | 0 <= k < |Provinces| :: Provinces[k].key :=
      IndexEntry(Provinces[k].name, Provinces[k].bounds,
                 "/provinces/" + Provinces[k].key + "_parking_spaces.geojson.gz",
                 StatFor(ProvinceStats(bs), Provinces[k].key))
  }

  /** What the index says about province `k`. */
  lemma ProvinceIndexEntry(bs: seq<seq<Feature>>, k: nat)
    requires |bs| == |Provinces| && VehicleTyped(bs)
    requires k < |Provinces|
    ensures ProvinceIndex(bs)[Provinces[k].key].file == "/provinces/" + Provinces[k].key + "_parking_spaces.geojson.gz"
    ensures ProvinceIndex(bs)[Provinces[k].key].stats.None? <==> bs[k] == []
    ensures bs[k] != [] ==> ProvinceIndex(bs)[Provinces[k].key].stats.value.total == |bs[k]|
  {
    DistinctProvinceKeys();
    StatForFrom(bs, 0, k);
  }
}
