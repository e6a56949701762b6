/** GeoJSON geometries with coordinates as exact reals, bounding boxes, and the
    vertex-mean "centroid" several scripts compute. */
module Geo {

  /** A GeoJSON position `[lon, lat]`. */
  datatype Pos = Pos(lon: real, lat: real)

  /** The geometry kinds the pipeline distinguishes; a `Point` keeps its raw coordinate
      list because scripts test its length. */
  datatype Geometry =
    | Point(coords: seq<real>)
    | Polygon(rings: seq<seq<Pos>>)
    | MultiPolygon(polygons: seq<seq<seq<Pos>>>)
    | OtherGeometry(kind: string)

  /** An axis-aligned bounding box in degrees. */
  datatype Box = Box(minLat: real, maxLat: real, minLon: real, maxLon: real)

  /** Inclusive on all four edges. */
  predicate InBox(p: Pos, b: Box) {
    b.minLat <= p.lat <= b.maxLat && b.minLon <= p.lon <= b.maxLon
  }

  /** Exclusive on all four edges. */
  predicate InBoxStrict(p: Pos, b: Box) {
    b.minLat < p.lat < b.maxLat && b.minLon < p.lon < b.maxLon
  }

  function SumLon(ring: seq<Pos>): real {
    if ring == [] then 0.0 else SumLon(ring[..|ring| - 1]) + ring[|ring| - 1].lon
  }

  function SumLat(ring: seq<Pos>): real {
    if ring == [] then 0.0 else SumLat(ring[..|ring| - 1]) + ring[|ring| - 1].lat
  }

  /** `(sum(c[0] for c in ring) / len(ring), sum(c[1] for c in ring) / len(ring))` */
  function VertexMean(ring: seq<Pos>): Pos
    requires |ring| > 0
  {
    Pos(SumLon(ring) / |ring| as real, SumLat(ring) / |ring| as real)
  }

  lemma {:induction false} SumLonBounded(ring: seq<Pos>, lo: real, hi: real)
    requires forall i :: 0 <= i < |ring| ==> lo <= ring[i].lon <= hi
    ensures |ring| as real * lo <= SumLon(ring) <= |ring| as real * hi
  {
    if ring != [] {
      var p := ring[..|ring| - 1];
      SumLonBounded(p, lo, hi);
      var m := |p| as real;
      assert |ring| as real * lo == m * lo + lo;
      assert |ring| as real * hi == m * hi + hi;
      assert lo <= ring[|ring| - 1].lon <= hi;
    }
  }

  lemma {:induction false} SumLatBounded(ring: seq<Pos>, lo: real, hi: real)
    requires forall i :: 0 <= i < |ring| ==> lo <= ring[i].lat <= hi
    ensures |ring| as real * lo <= SumLat(ring) <= |ring| as real * hi
  {
    if ring != [] {
      var p := ring[..|ring| - 1];
      SumLatBounded(p, lo, hi);
      var m := |p| as real;
      assert |ring| as real * lo == m * lo + lo;
      assert |ring| as real * hi == m * hi + hi;
      assert lo <= ring[|ring| - 1].lat <= hi;
    }
  }

  /** A box is convex: when every vertex lies in it, so does the vertex mean. */
  lemma VertexMeanInBox(ring: seq<Pos>, b: Box)
    requires |ring| > 0
    requires forall i :: 0 <= i < |ring| ==> InBox(ring[i], b)
    ensures InBox(VertexMean(ring), b)
  {
    MeanLonBounded(ring, b.minLon, b.maxLon);
    MeanLatBounded(ring, b.minLat, b.maxLat);
  }

  lemma MeanLonBounded(ring: seq<Pos>, lo: real, hi: real)
    requires |ring| > 0
    requires forall i :: 0 <= i < |ring| ==> lo <= ring[i].lon <= hi
    ensures lo <= VertexMean(ring).lon <= hi
  {
    SumLonBounded(ring, lo, hi);
    DivBounds(SumLon(ring), |ring| as real, lo, hi);
  }

  lemma MeanLatBounded(ring: seq<Pos>, lo: real, hi: real)
    requires |ring| > 0
    requires forall i :: 0 <= i < |ring| ==> lo <= ring[i].lat <= hi
    ensures lo <= VertexMean(ring).lat <= hi
  {
    SumLatBounded(ring, lo, hi);
    DivBounds(SumLat(ring), |ring| as real, lo, hi);
  }

  lemma DivBounds(s: real, n: real, lo: real, hi: real)
    requires n > 0.0
    requires n * lo <= s <= n * hi
    ensures lo <= s / n <= hi
  {
    var q := s / n;
    assert q * n == s;
    if q < lo {
      PosProduct(lo - q, n);
    }
    if q > hi {
      PosProduct(q - hi, n);
    }
  }

  lemma PosProduct(a: real, b: real)
    requires a > 0.0 && b > 0.0
    ensures a * b > 0.0
  {
  }

  /** The vertex mean of a single vertex is that vertex. */
  lemma VertexMeanSingleton(p: Pos)
    ensures VertexMean([p]) == p
  {
    assert [p][..0] == [];
    assert SumLon([p]) == p.lon;
    assert SumLat([p]) == p.lat;
  }
}
