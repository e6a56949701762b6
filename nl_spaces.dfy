/** Extraction of individual parking spaces (`amenity=parking_space`) for the whole
    country (scripts/extract_osm_parking_spaces_netherlands.py): the regional query grid,
    element-to-feature conversion and de-duplication by OSM id. */
module NlSpaces {
  import opened Wrappers
  import opened Text
  import opened Numbers
  import opened Geo
  import opened Props
  import opened Osm
  import opened Seqs

  /** The national box with a buffer. */
  const NetherlandsBounds: Box := Box(50.70, 53.60, 3.25, 7.25)

  datatype Region = Region(name: string, box: Box)

  /** `min + k * ((max - min) / n)`: the `k`-th of `n` equal steps from `min` to `max`. */
  function Edge(lo: real, hi: real, n: int, k: nat): real
    requires n != 0
  {
    lo + k as real * ((hi - lo) / n as real)
  }

  /** The region in row `r`, column `c`. */
  function RegionAt(b: Box, rows: int, cols: int, r: nat, c: nat): Region
    requires rows != 0 && cols != 0
  {
    Region("Region_" + IntToString(r + 1) + "_" + IntToString(c + 1),
           Box(Edge(b.minLat, b.maxLat, rows, r), Edge(b.minLat, b.maxLat, rows, r + 1),
               Edge(b.minLon, b.maxLon, cols, c), Edge(b.minLon, b.maxLon, cols, c + 1)))
  }

  /** The first `n` regions of row `r`. */
  function Row(b: Box, rows: int, cols: int, r: nat, n: nat): (s: seq<Region>)
    requires rows != 0 && cols != 0
    ensures |s| == n
  {
    if n == 0 then [] else Row(b, rows, cols, r, n - 1) + [RegionAt(b, rows, cols, r, n - 1)]
  }

  /** The first `m` complete rows. */
  function Grid(b: Box, rows: int, cols: nat, m: nat): seq<Region>
    requires rows != 0 && cols != 0
  {
    if m == 0 then [] else Grid(b, rows, cols, m - 1) + Row(b, rows, cols, m - 1, cols)
  }

  lemma {:induction false} RowAt(b: Box, rows: int, cols: int, r: nat, n: nat, c: nat)
    requires rows != 0 && cols != 0 && c < n
    ensures Row(b, rows, cols, r, n)[c] == RegionAt(b, rows, cols, r, c)
  {
    if c < n - 1 {
      RowAt(b, rows, cols, r, n - 1, c);
    }
  }

  /** After `m` complete rows, the list holds `m * cols` regions and region `(r, c)` sits at
      index `r * cols + c`. */
  lemma {:induction false} GridAt(b: Box, rows: int, cols: nat, m: nat, r: nat, c: nat)
    requires rows != 0 && cols != 0 && r < m && c < cols
    ensures |Grid(b, rows, cols, m)| == m * cols
    ensures r * cols + c < m * cols
    ensures Grid(b, rows, cols, m)[r * cols + c] == RegionAt(b, rows, cols, r, c)
  {
    GridLength(b, rows, cols, m - 1);
    assert m * cols == (m - 1) * cols + cols;
    if r < m - 1 {
      GridAt(b, rows, cols, m - 1, r, c);
    } else {
      RowAt(b, rows, cols, r, cols, c);
    }
  }

  lemma {:induction false} GridLength(b: Box, rows: int, cols: nat, m: nat)
    requires rows != 0 && cols != 0
    ensures |Grid(b, rows, cols, m)| == m * cols
  {
    if m > 0 {
      GridLength(b, rows, cols, m - 1);
      assert m * cols == (m - 1) * cols + cols;
    }
  }

  /** `create_regional_grid`: all rows of the grid, row by row (`GridAt` with `m == rows` gives the
      row-major layout). A zero row or column count divides by zero in the source; a
      negative one gives an empty range. */
  method CreateRegionalGrid(b: Box, rows: int, cols: int) returns (regions: seq<Region>)
    requires rows != 0 && cols != 0
    ensures rows > 0 && cols > 0 ==> regions == Grid(b, rows, cols, rows)
    ensures rows < 0 || cols < 0 ==> regions == []
  {
    regions := [];
    if rows < 0 || cols < 0 {
      return;
    }
    var row := 0;
    while row < rows
      invariant 0 <= row <= rows
      invariant regions == Grid(b, rows, cols, row)
    {
      regions := AppendRow(regions, b, rows, cols, row);
      row := row + 1;
    }
  }

  /** The inner `for col in range(cols)` loop of `create_regional_grid`. */
  method AppendRow(regions: seq<Region>, b: Box, rows: int, cols: nat, row: nat) returns (out: seq<Region>)
    requires rows != 0 && cols != 0
    ensures out == regions + Row(b, rows, cols, row, cols)
  {
    out := regions;
    var col := 0;
    while col < cols
      invariant 0 <= col <= cols
      invariant out == regions + Row(b, rows, cols, row, col)
    {
      out := out + [RegionAt(b, rows, cols, row, col)];
      col := col + 1;
    }
  }

  lemma StepsCover(lo: real, hi: real, n: int)
    requires n > 0
    ensures Edge(lo, hi, n, n) == hi
  {
  }

  /** The regions tile the bounds: row 0 starts at `min_lat`, the last row ends at
      `max_lat`, neighbours share their edges; likewise for columns and longitude. */
  lemma GridTilesBounds(b: Box, rows: int, cols: int, r: nat, c: nat)
    requires rows > 0 && cols > 0 && r < rows && c < cols
    ensures r == 0 ==> RegionAt(b, rows, cols, r, c).box.minLat == b.minLat
    ensures r == rows - 1 ==> RegionAt(b, rows, cols, r, c).box.maxLat == b.maxLat
    ensures c == 0 ==> RegionAt(b, rows, cols, r, c).box.minLon == b.minLon
    ensures c == cols - 1 ==> RegionAt(b, rows, cols, r, c).box.maxLon == b.maxLon
    ensures r + 1 < rows ==> RegionAt(b, rows, cols, r, c).box.maxLat == RegionAt(b, rows, cols, r + 1, c).box.minLat
    ensures c + 1 < cols ==> RegionAt(b, rows, cols, r, c).box.maxLon == RegionAt(b, rows, cols, r, c + 1).box.minLon
    ensures RegionAt(b, rows, cols, r, c).box.minLon == RegionAt(b, rows, cols, 0, c).box.minLon
    ensures RegionAt(b, rows, cols, r, c).box.minLat == RegionAt(b, rows, cols, r, 0).box.minLat
  {
    StepsCover(b.minLat, b.maxLat, rows);
    StepsCover(b.minLon, b.maxLon, cols);
  }

  /** `tags.get('capacity:disabled', tags.get('capacity:hgv', ''))` lower-cased contains "hgv". */
  function VehicleType(tags: map<string, string>): (v: string)
    ensures v == "truck" <==> Contains(Lower(TagOr(tags, "capacity:disabled", TagOr(tags, "capacity:hgv", ""))), "hgv")
    ensures v == "truck" || v == "car"
  {
    if Contains(Lower(TagOr(tags, "capacity:disabled", TagOr(tags, "capacity:hgv", ""))), "hgv") then "truck" else "car"
  }

  /** Elements whose conversion does not raise: a parking-space way's references that the
      table knows are located nodes. */
  predicate Convertible(e: Element, t: map<int, Element>) {
    TagIs(e.tags, "amenity", "parking_space") && e.kind == "way" && e.nodes.Some? ==> RefsLocated(e.nodes.value, t)
  }

  /** The geometry the loop builds for an element, if any. */
  function SpaceGeometry(e: Element, t: map<int, Element>): (g: Option<Geometry>)
    requires Convertible(e, t)
    requires TagIs(e.tags, "amenity", "parking_space")
    ensures e.kind == "node" && e.lat.Some? && e.lon.Some? ==> g == Some(Point([e.lon.value, e.lat.value]))
    ensures g.Some? && g.value.Polygon? ==> e.kind == "way" && |g.value.rings| == 1 && |g.value.rings[0]| >= 3
    ensures g.Some? ==> g.value.Point? || g.value.Polygon?
    ensures e.kind != "node" && e.kind != "way" ==> g.None?
    ensures e.kind == "way" && e.nodes.Some? ==> (g.Some? <==> |Resolved(e.nodes.value, t)| >= 3)
    ensures e.kind == "way" && e.nodes.Some? && g.Some? ==> g.value == Polygon([Resolved(e.nodes.value, t)])
    ensures e.kind == "node" && (e.lat.None? || e.lon.None?) ==> g.None?
    ensures e.kind == "way" && e.nodes.None? ==> g.None?
  {
    if e.kind == "node" && e.lat.Some? && e.lon.Some? then Some(Point([e.lon.value, e.lat.value]))
    else if e.kind == "way" && e.nodes.Some? then
      var coords := Resolved(e.nodes.value, t);
      if |coords| >= 3 then Some(Polygon([coords])) else None
    else None
  }

  /** The feature dictionary a parking space becomes; missing tags read "N/A". */
  function SpaceFeature(e: Element, g: Geometry): (f: Feature)
    ensures f.geometry == g
    ensures f.properties.Keys == {"feature_type", "osm_id", "osm_type", "vehicle_type", "capacity_type",
                                  "access", "orientation", "parking", "surface"}
    ensures f.properties["osm_id"] == VInt(e.id)
    ensures f.properties["vehicle_type"] == VStr(VehicleType(e.tags))
    ensures forall k :: k in {"access", "orientation", "parking", "surface"} ==>
              f.properties[k] == VStr(TagOr(e.tags, k, "N/A"))
    ensures f.properties["capacity_type"] == VStr(TagOr(e.tags, "capacity", "N/A"))
  {
    Feature(g, map[
      "feature_type" := VStr("osm_parking_space"),
      "osm_id" := VInt(e.id),
      "osm_type" := VStr(e.kind),
      "vehicle_type" := VStr(VehicleType(e.tags)),
      "capacity_type" := VStr(TagOr(e.tags, "capacity", "N/A")),
      "access" := VStr(TagOr(e.tags, "access", "N/A")),
      "orientation" := VStr(TagOr(e.tags, "orientation", "N/A")),
      "parking" := VStr(TagOr(e.tags, "parking", "N/A")),
      "surface" := VStr(TagOr(e.tags, "surface", "N/A"))])
  }

  /** One step of the extraction loop. */
  function ExtractOne(e: Element, t: map<int, Element>): (r: Option<Feature>)
    requires Convertible(e, t)
    ensures r.Some? <==> TagIs(e.tags, "amenity", "parking_space") && SpaceGeometry(e, t).Some?
    ensures r.Some? ==> r.value.geometry == SpaceGeometry(e, t).value && "osm_id" in r.value.properties && r.value.properties["osm_id"] == VInt(e.id)
  {
    if !TagIs(e.tags, "amenity", "parking_space") then None
    else
      match SpaceGeometry(e, t)
      case None => None
      case Some(g) => Some(SpaceFeature(e, g))
  }

  predicate AllConvertible(es: seq<Element>, t: map<int, Element>) {
    forall i :: 0 <= i < |es| ==> Convertible(es[i], t)
  }

  /** The features the loop has appended after seeing `es`. */
  function Extracted(es: seq<Element>, t: map<int, Element>): (fs: seq<Feature>)
    requires AllConvertible(es, t)
    ensures |fs| <= |es|
  {
    if es == [] then []
    else
      var e := es[|es| - 1];
      Extracted(es[..|es| - 1], t) + (match ExtractOne(e, t) case Some(f) => [f] case None => [])
  }

  lemma ExtractedSnoc(es: seq<Element>, i: nat, t: map<int, Element>)
    requires i < |es| && AllConvertible(es, t)
    ensures AllConvertible(es[..i], t) && AllConvertible(es[..i + 1], t)
    ensures Extracted(es[..i + 1], t) == Extracted(es[..i], t) + (match ExtractOne(es[i], t) case Some(f) => [f] case None => [])
  {
    assert es[..i + 1][..i] == es[..i];
  }

  /** The body of the element loop: the feature of one element, if any. */
  method ExtractElement(e: Element, nodes: map<int, Element>) returns (feature: Option<Feature>)
    requires Convertible(e, nodes)
    ensures feature == ExtractOne(e, nodes)
  {
    feature := None;
    if TagIs(e.tags, "amenity", "parking_space") {
      var geometry: Option<Geometry> := None;
      if e.kind == "node" && e.lat.Some? && e.lon.Some? {
        geometry := Some(Point([e.lon.value, e.lat.value]));
      } else if e.kind == "way" && e.nodes.Some? {
        var coords := ResolveRefs(e.nodes.value, nodes);
        if |coords| >= 3 {
          geometry := Some(Polygon([coords]));
        }
      }
      assert geometry == SpaceGeometry(e, nodes);
      if geometry.Some? {
        feature := Some(SpaceFeature(e, geometry.value));
      }
    }
  }

  /** `extract_parking_spaces` */
  method ExtractParkingSpaces(elements: seq<Element>) returns (spaces: seq<Feature>)
    requires AllConvertible(elements, NodeTable(elements))
    ensures spaces == Extracted(elements, NodeTable(elements))
  {
    var nodes := NodeTable(elements);
    spaces := [];
    var i := 0;
    while i < |elements|
      invariant 0 <= i <= |elements|
      invariant spaces == Extracted(elements[..i], nodes)
    {
      ExtractedSnoc(elements, i, nodes);
      var feature := ExtractElement(elements[i], nodes);
      if feature.Some? {
        spaces := spaces + [feature.value];
      }
      i := i + 1;
    }
    assert elements[..|elements|] == elements;
  }

  /** Every extracted feature comes from an element tagged `amenity=parking_space`,
      and carries that element's id. */
  lemma {:induction false} ExtractedFromParkingSpaces(es: seq<Element>, t: map<int, Element>, k: nat)
    requires AllConvertible(es, t)
    requires k < |Extracted(es, t)|
    ensures exists i :: 0 <= i < |es| && TagIs(es[i].tags, "amenity", "parking_space")
                        && OsmIdOf(Extracted(es, t)[k]) == VInt(es[i].id)
  {
    var p := es[..|es| - 1];
    var e := es[|es| - 1];
    assert AllConvertible(p, t);
    var before := Extracted(p, t);
    var r := ExtractOne(e, t);
    assert Extracted(es, t) == before + (match r case Some(f) => [f] case None => []);
    if k < |before| {
      ExtractedFromParkingSpaces(p, t, k);
      var i :| 0 <= i < |p| && TagIs(p[i].tags, "amenity", "parking_space")
               && OsmIdOf(before[k]) == VInt(p[i].id);
      assert es[i] == p[i];
      assert Extracted(es, t)[k] == before[k];
    } else {
      assert r.Some? && Extracted(es, t)[k] == r.value;
      assert OsmIdOf(r.value) == VInt(e.id);
    }
  }

  /** `space['properties']['osm_id']` */
  function OsmIdOf(f: Feature): Value {
    Get(f.properties, "osm_id")
  }

  /** `deduplicate_parking_spaces`: the first feature per OSM id, in input order. */
  method DeduplicateParkingSpaces(all: seq<Feature>) returns (unique: seq<Feature>)
    requires forall i :: 0 <= i < |all| ==> "osm_id" in all[i].properties
    ensures unique == KeepFirst(all, OsmIdOf)
    ensures DistinctBy(unique, OsmIdOf)
    ensures KeySet(unique, OsmIdOf) == KeySet(all, OsmIdOf)
    ensures IsSubsequence(unique, all)
  {
    unique := DedupBy(all, OsmIdOf);
    KeepFirstKeys(all, OsmIdOf);
    KeepFirstIsSubsequence(all, OsmIdOf);
  }

  /** Running the de-duplication on its own output changes nothing. */
  lemma DeduplicateIdempotent(all: seq<Feature>)
    ensures KeepFirst(KeepFirst(all, OsmIdOf), OsmIdOf) == KeepFirst(all, OsmIdOf)
  {
    KeepFirstIdempotent(all, OsmIdOf);
  }
}
