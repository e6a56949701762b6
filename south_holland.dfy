/** OSM parking spaces and areas around the South Holland truck parking facilities
    (extract_osm_parking_south_holland.py): the HGV/LZV classification of tags, the
    per-facility extraction with its counters, and the GeoJSON overlay. */
module SouthHolland {
  import opened Wrappers
  import opened Text
  import opened Numbers
  import opened Geo
  import opened Props
  import opened Osm
  import opened Seqs

  /** `classify_parking_from_osm`'s result. `isHgv` is the value of the `or` chain, which
      is a `bool` or the text of a `capacity:*` tag. */
  datatype Classification = Classification(vehicleType: string, vehicleLabel: string, color: string, isHgv: Value)

  function NameLower(tags: map<string, string>): string {
    Lower(TagOr(tags, "name", ""))
  }

  /** The `is_hgv` expression: the first truthy operand of the `or` chain, else its last operand. */
  function IsHgv(tags: map<string, string>): (v: Value)
    ensures v.VBool? || v.VStr?
    ensures Truthy(v) <==>
      TagIs(tags, "hgv", "designated") || TagIs(tags, "hgv", "yes") ||
      TagOr(tags, "capacity:hgv", "") != "" || TagOr(tags, "capacity:truck", "") != "" ||
      Contains(NameLower(tags), "truck") || Contains(NameLower(tags), "hgv") || Contains(NameLower(tags), "vrachtwagen")
  {
    if TagIs(tags, "hgv", "designated") || TagIs(tags, "hgv", "yes") then VBool(true)
    else if TagOr(tags, "capacity:hgv", "") != "" then VStr(tags["capacity:hgv"])
    else if TagOr(tags, "capacity:truck", "") != "" then VStr(tags["capacity:truck"])
    else VBool(Contains(NameLower(tags), "truck") || Contains(NameLower(tags), "hgv") || Contains(NameLower(tags), "vrachtwagen"))
  }

  /** The `is_lzv` expression. */
  predicate IsLzv(tags: map<string, string>) {
    Contains(NameLower(tags), "lzv") || Contains(NameLower(tags), "lang zwaar") || TagOr(tags, "maxlength", "0") == "25.25"
  }

  /** `classify_parking_from_osm(tags)`: never "car" (a non-HGV space in the truck dataset is a
      truck space); "lzv" exactly for HGV spaces with an LZV name or a 25.25 m maximum length;
      the label and colour follow the vehicle type alone. */
  function ClassifyParkingFromOsm(tags: map<string, string>): (c: Classification)
    ensures c.vehicleType == "truck" || c.vehicleType == "lzv"
    ensures c.vehicleType == "lzv" <==> Truthy(IsHgv(tags)) && IsLzv(tags)
    ensures c.vehicleType == "lzv" ==> c.vehicleLabel == "LZV Parking Space" && c.color == "#7c2d12"
    ensures c.vehicleType == "truck" ==> c.vehicleLabel == "Truck Parking Space" && c.color == "#ef4444"
    ensures c.isHgv == IsHgv(tags)
  {
    var isHgv := IsHgv(tags);
    if Truthy(isHgv) && IsLzv(tags) then Classification("lzv", "LZV Parking Space", "#7c2d12", isHgv)
    else Classification("truck", "Truck Parking Space", "#ef4444", isHgv)
  }

  /** An `amenity=parking_space` element as the extraction stores it. */
  datatype Space = Space(osmId: int, osmType: string, classification: Classification,
                         tags: map<string, string>, geometry: Option<Geometry>)

  /** An `amenity=parking` element as the extraction stores it. */
  datatype Area = Area(osmId: int, osmType: string, name: string, operator: string, capacity: int,
                       classification: Classification, tags: map<string, string>, geometry: Option<Geometry>)

  /** The `result` dictionary of `extract_parking_from_osm`. */
  datatype Extraction = Extraction(facilityId: string, facilityName: string, areas: seq<Area>, spaces: seq<Space>,
                                   totalCapacity: int, individualSpacesCount: int, hasOsmData: bool)

  predicate IsSpaceElement(e: Element) { TagIs(e.tags, "amenity", "parking_space") }

  predicate IsAreaElement(e: Element) { !IsSpaceElement(e) && TagIs(e.tags, "amenity", "parking") }

  /** Processing `e` raises no `KeyError`: a node space has `lat` and `lon`, and the nodes a
      space or area way references are located. */
  predicate Extractable(e: Element, t: map<int, Element>) {
    (IsSpaceElement(e) && e.kind == "node" ==> e.lat.Some? && e.lon.Some?) &&
    ((IsSpaceElement(e) || IsAreaElement(e)) && e.kind == "way" && e.nodes.Some? ==> RefsLocated(e.nodes.value, t))
  }

  predicate AllExtractable(es: seq<Element>, t: map<int, Element>) {
    forall i :: 0 <= i < |es| ==> Extractable(es[i], t)
  }

  /** The polygon of a way: attached only when at least three references resolve. */
  function WayGeometry(e: Element, t: map<int, Element>): (g: Option<Geometry>)
    requires e.kind == "way" && e.nodes.Some? ==> RefsLocated(e.nodes.value, t)
    ensures g.Some? <==> e.kind == "way" && e.nodes.Some? && |Resolved(e.nodes.value, t)| >= 3
    ensures g.Some? ==> g.value == Polygon([Resolved(e.nodes.value, t)])
  {
    if e.kind == "way" && e.nodes.Some? && |Resolved(e.nodes.value, t)| >= 3 then Some(Polygon([Resolved(e.nodes.value, t)]))
    else None
  }

  /** A space's geometry: a way's polygon, or a node's point. */
  function SpaceGeometry(e: Element, t: map<int, Element>): (g: Option<Geometry>)
    requires Extractable(e, t) && IsSpaceElement(e)
    ensures e.kind == "node" ==> g == Some(Point([e.lon.value, e.lat.value]))
    ensures e.kind != "node" ==> g == WayGeometry(e, t)
  {
    if e.kind == "node" then Some(Point([e.lon.value, e.lat.value])) else WayGeometry(e, t)
  }

  /** `int(tags.get('capacity', 0))`, with an unparsable value read as 0. */
  function AreaCapacity(tags: map<string, string>): (n: int)
    ensures "capacity" !in tags ==> n == 0
    ensures "capacity" in tags ==> n == OrElse(ParseInt(tags["capacity"]), 0)
  {
    if "capacity" in tags then OrElse(ParseInt(tags["capacity"]), 0) else 0
  }

  function SpaceOf(e: Element, t: map<int, Element>): Space
    requires Extractable(e, t) && IsSpaceElement(e)
  {
    Space(e.id, e.kind, ClassifyParkingFromOsm(e.tags), e.tags, SpaceGeometry(e, t))
  }

  function AreaOf(e: Element, t: map<int, Element>): Area
    requires Extractable(e, t) && IsAreaElement(e)
  {
    Area(e.id, e.kind, TagOr(e.tags, "name", "Unnamed Parking"), TagOr(e.tags, "operator", "Unknown"),
         AreaCapacity(e.tags), ClassifyParkingFromOsm(e.tags), e.tags, if e.kind == "way" then WayGeometry(e, t) else None)
  }

  /** One pass of the element loop over `result`. */
  function Step(r: Extraction, e: Element, t: map<int, Element>): Extraction
    requires Extractable(e, t)
  {
    if IsSpaceElement(e) then
      r.(hasOsmData := true, individualSpacesCount := r.individualSpacesCount + 1, spaces := r.spaces + [SpaceOf(e, t)])
    else if IsAreaElement(e) then
      r.(hasOsmData := true, totalCapacity := r.totalCapacity + AreaCapacity(e.tags), areas := r.areas + [AreaOf(e, t)])
    else r
  }

  /** The `result` after the loop has seen `es`. */
  function Extracted(es: seq<Element>, t: map<int, Element>, facilityId: string, facilityName: string): Extraction
    requires AllExtractable(es, t)
  {
    if es == [] then Extraction(facilityId, facilityName, [], [], 0, 0, false)
    else Step(Extracted(es[..|es| - 1], t, facilityId, facilityName), es[|es| - 1], t)
  }

  lemma ExtractedSnoc(es: seq<Element>, i: nat, t: map<int, Element>, facilityId: string, facilityName: string)
    requires i < |es| && AllExtractable(es, t)
    ensures AllExtractable(es[..i], t) && AllExtractable(es[..i + 1], t)
    ensures Extracted(es[..i + 1], t, facilityId, facilityName) == Step(Extracted(es[..i], t, facilityId, facilityName), es[i], t)
  {
    assert es[..i + 1][..i] == es[..i];
  }

  /** The body of the element loop of `extract_parking_from_osm`. */
  method ExtractElement(result0: Extraction, e: Element, nodes: map<int, Element>) returns (result: Extraction)
    requires Extractable(e, nodes)
    ensures result == Step(result0, e, nodes)
  {
    result := result0;
    if IsSpaceElement(e) {
      result := result.(hasOsmData := true, individualSpacesCount := result.individualSpacesCount + 1);
      var geometry := None;
      if e.kind == "way" && e.nodes.Some? {
        var coords := ResolveRefs(e.nodes.value, nodes);
        if |coords| >= 3 {
          geometry := Some(Polygon([coords]));
        }
      } else if e.kind == "node" {
        geometry := Some(Point([e.lon.value, e.lat.value]));
      }
      assert geometry == SpaceGeometry(e, nodes);
      result := result.(spaces := result.spaces + [Space(e.id, e.kind, ClassifyParkingFromOsm(e.tags), e.tags, geometry)]);
    } else if TagIs(e.tags, "amenity", "parking") {
      result := result.(hasOsmData := true);
      var capacity := AreaCapacity(e.tags);
      result := result.(totalCapacity := result.totalCapacity + capacity);
      var geometry := None;
      if e.kind == "way" && e.nodes.Some? {
        var coords := ResolveRefs(e.nodes.value, nodes);
        if |coords| >= 3 {
          geometry := Some(Polygon([coords]));
        }
      }
      assert geometry == AreaOf(e, nodes).geometry;
      var area := Area(e.id, e.kind, TagOr(e.tags, "name", "Unnamed Parking"), TagOr(e.tags, "operator", "Unknown"),
                       capacity, ClassifyParkingFromOsm(e.tags), e.tags, geometry);
      result := result.(areas := result.areas + [area]);
    }
  }

  /** `extract_parking_from_osm(osm_data, facility_id, facility_name)` */
  method ExtractParkingFromOsm(elements: seq<Element>, facilityId: string, facilityName: string) returns (result: Extraction)
    requires AllExtractable(elements, NodeTable(elements))
    ensures result == Extracted(elements, NodeTable(elements), facilityId, facilityName)
  {
    result := Extraction(facilityId, facilityName, [], [], 0, 0, false);
    var nodes := NodeTable(elements);
    var i := 0;
    while i < |elements|
      invariant 0 <= i <= |elements|
      invariant result == Extracted(elements[..i], nodes, facilityId, facilityName)
    {
      ExtractedSnoc(elements, i, nodes, facilityId, facilityName);
      result := ExtractElement(result, elements[i], nodes);
      i := i + 1;
    }
    assert elements[..|elements|] == elements;
  }

  function SumCapacity(areas: seq<Area>): int {
    if areas == [] then 0 else SumCapacity(areas[..|areas| - 1]) + areas[|areas| - 1].capacity
  }

  lemma SumCapacitySnoc(areas: seq<Area>, a: Area)
    ensures SumCapacity(areas + [a]) == SumCapacity(areas) + a.capacity
  {
    assert (areas + [a])[..|areas|] == areas;
  }

  /** What the counters mean: `individual_spaces_count` is the number of spaces and
      `total_capacity` the sum of the areas' capacities. */
  lemma {:induction false} ExtractedCounters(es: seq<Element>, t: map<int, Element>, facilityId: string, facilityName: string)
    requires AllExtractable(es, t)
    ensures Extracted(es, t, facilityId, facilityName).individualSpacesCount == |Extracted(es, t, facilityId, facilityName).spaces|
    ensures Extracted(es, t, facilityId, facilityName).totalCapacity == SumCapacity(Extracted(es, t, facilityId, facilityName).areas)
  {
    if es != [] {
      var p := es[..|es| - 1];
      ExtractedCounters(p, t, facilityId, facilityName);
      var r := Extracted(p, t, facilityId, facilityName);
      var e := es[|es| - 1];
      if IsAreaElement(e) {
        SumCapacitySnoc(r.areas, AreaOf(e, t));
      }
    }
  }

  /** `has_osm_data` holds exactly when some element was a parking space or a parking area. */
  lemma {:induction false} ExtractedHasData(es: seq<Element>, t: map<int, Element>, facilityId: string, facilityName: string)
    requires AllExtractable(es, t)
    ensures Extracted(es, t, facilityId, facilityName).hasOsmData <==>
      exists i :: 0 <= i < |es| && (IsSpaceElement(es[i]) || IsAreaElement(es[i]))
  {
    if es != [] {
      var p := es[..|es| - 1];
      ExtractedHasData(p, t, facilityId, facilityName);
      if exists i :: 0 <= i < |p| && (IsSpaceElement(p[i]) || IsAreaElement(p[i])) {
        var i :| 0 <= i < |p| && (IsSpaceElement(p[i]) || IsAreaElement(p[i]));
        assert es[i] == p[i];
      }
      if exists i :: 0 <= i < |es| && (IsSpaceElement(es[i]) || IsAreaElement(es[i])) {
        var i :| 0 <= i < |es| && (IsSpaceElement(es[i]) || IsAreaElement(es[i]));
        if i < |p| { assert p[i] == es[i]; }
      }
    }
  }

  /** Every polygon attached to a space or an area has a ring of at least three vertices. */
  lemma {:induction false} ExtractedPolygons(es: seq<Element>, t: map<int, Element>, facilityId: string, facilityName: string)
    requires AllExtractable(es, t)
    ensures forall s :: s in Extracted(es, t, facilityId, facilityName).spaces && s.geometry.Some? && s.geometry.value.Polygon? ==>
      |s.geometry.value.rings| == 1 && |s.geometry.value.rings[0]| >= 3
    ensures forall a :: a in Extracted(es, t, facilityId, facilityName).areas ==>
      a.geometry.Some? ==> a.geometry.value.Polygon? && |a.geometry.value.rings| == 1 && |a.geometry.value.rings[0]| >= 3
  {
    if es != [] {
      ExtractedPolygons(es[..|es| - 1], t, facilityId, facilityName);
    }
  }

  /** `feature['properties']['feature_type']` */
  function FeatureType(f: Feature): Value {
    Get(f.properties, "feature_type")
  }

  /** The overlay feature of a space with a geometry. */
  function SpaceFeature(r: Extraction, s: Space): (f: Feature)
    requires s.geometry.Some?
    ensures f.geometry == s.geometry.value
    ensures FeatureType(f) == VStr("parking_space")
  {
    var c := s.classification;
    Feature(s.geometry.value, map[
      "facility_id" := VStr(r.facilityId),
      "facility_name" := VStr(r.facilityName),
      "osm_id" := VInt(s.osmId),
      "osm_type" := VStr(s.osmType),
      "vehicle_type" := VStr(c.vehicleType),
      "vehicle_label" := VStr(c.vehicleLabel),
      "color" := VStr(c.color),
      "is_hgv" := c.isHgv]["feature_type" := VStr("parking_space")])
  }

  /** The overlay feature of an area with a geometry. */
  function AreaFeature(r: Extraction, a: Area): (f: Feature)
    requires a.geometry.Some?
    ensures f.geometry == a.geometry.value
    ensures FeatureType(f) == VStr("parking_area")
  {
    var c := a.classification;
    Feature(a.geometry.value, map[
      "facility_id" := VStr(r.facilityId),
      "facility_name" := VStr(r.facilityName),
      "osm_id" := VInt(a.osmId),
      "osm_type" := VStr(a.osmType),
      "name" := VStr(a.name),
      "operator" := VStr(a.operator),
      "capacity" := VInt(a.capacity),
      "vehicle_type" := VStr(c.vehicleType),
      "vehicle_label" := VStr(c.vehicleLabel),
      "color" := VStr(c.color),
      "is_hgv" := c.isHgv]["feature_type" := VStr("parking_area")])
  }

  /** The features of one facility's spaces that have a geometry, in order. */
  function SpaceFeatures(r: Extraction, ss: seq<Space>): (fs: seq<Feature>)
    ensures |fs| <= |ss|
    ensures forall f :: f in fs ==> FeatureType(f) == VStr("parking_space")
  {
    if ss == [] then []
    else
      var s := ss[|ss| - 1];
      SpaceFeatures(r, ss[..|ss| - 1]) + (if s.geometry.Some? then [SpaceFeature(r, s)] else [])
  }

  /** The features of one facility's areas that have a geometry, in order. */
  function AreaFeatures(r: Extraction, as_: seq<Area>): (fs: seq<Feature>)
    ensures |fs| <= |as_|
    ensures forall f :: f in fs ==> FeatureType(f) == VStr("parking_area")
  {
    if as_ == [] then []
    else
      var a := as_[|as_| - 1];
      AreaFeatures(r, as_[..|as_| - 1]) + (if a.geometry.Some? then [AreaFeature(r, a)] else [])
  }

  /** `'geometry' in space` */
  predicate SpacePlaced(s: Space) { s.geometry.Some? }

  /** `'geometry' in area` */
  predicate AreaPlaced(a: Area) { a.geometry.Some? }

  /** The space features are exactly the features of the spaces with a geometry, in order:
      the `k`-th is built from the `k`-th such space. */
  lemma {:induction false} SpaceFeaturesPlaced(r: Extraction, ss: seq<Space>)
    ensures |SpaceFeatures(r, ss)| == |Filter(SpacePlaced, ss)|
    ensures forall k :: 0 <= k < |Filter(SpacePlaced, ss)| ==>
      SpacePlaced(Filter(SpacePlaced, ss)[k]) && SpaceFeatures(r, ss)[k] == SpaceFeature(r, Filter(SpacePlaced, ss)[k])
  {
    if ss != [] {
      var p := ss[..|ss| - 1];
      var s := ss[|ss| - 1];
      SpaceFeaturesPlaced(r, p);
      SplitLast(ss);
      FilterSnoc(SpacePlaced, p, s);
      var before := SpaceFeatures(r, p);
      var kept := Filter(SpacePlaced, p);
      if s.geometry.Some? {
        assert SpaceFeatures(r, ss) == before + [SpaceFeature(r, s)];
        assert Filter(SpacePlaced, ss) == kept + [s];
      } else {
        assert SpaceFeatures(r, ss) == before;
        assert Filter(SpacePlaced, ss) == kept;
      }
    }
  }

  /** The area features are exactly the features of the areas with a geometry, in order. */
  lemma {:induction false} AreaFeaturesPlaced(r: Extraction, as_: seq<Area>)
    ensures |AreaFeatures(r, as_)| == |Filter(AreaPlaced, as_)|
    ensures forall k :: 0 <= k < |Filter(AreaPlaced, as_)| ==>
      AreaPlaced(Filter(AreaPlaced, as_)[k]) && AreaFeatures(r, as_)[k] == AreaFeature(r, Filter(AreaPlaced, as_)[k])
  {
    if as_ != [] {
      var p := as_[..|as_| - 1];
      var a := as_[|as_| - 1];
      AreaFeaturesPlaced(r, p);
      SplitLast(as_);
      FilterSnoc(AreaPlaced, p, a);
      var before := AreaFeatures(r, p);
      var kept := Filter(AreaPlaced, p);
      if a.geometry.Some? {
        assert AreaFeatures(r, as_) == before + [AreaFeature(r, a)];
        assert Filter(AreaPlaced, as_) == kept + [a];
      } else {
        assert AreaFeatures(r, as_) == before;
        assert Filter(AreaPlaced, as_) == kept;
      }
    }
  }

  /** A facility's overlay features: none without OSM data, otherwise its spaces, then its areas. */
  function FacilityFeatures(r: Extraction): seq<Feature> {
    if r.hasOsmData then SpaceFeatures(r, r.spaces) + AreaFeatures(r, r.areas) else []
  }

  function Overlay(results: seq<Extraction>): seq<Feature> {
    FlatMap(FacilityFeatures, results)
  }

  /** Within a facility every space feature precedes every area feature, and a facility
      contributes at most one feature per space and area. */
  lemma FacilityFeaturesOrder(r: Extraction)
    ensures |FacilityFeatures(r)| <= |r.spaces| + |r.areas|
    ensures !r.hasOsmData ==> FacilityFeatures(r) == []
    ensures forall i, j ::
      (0 <= i < j < |FacilityFeatures(r)| && FeatureType(FacilityFeatures(r)[j]) == VStr("parking_space")) ==>
      FeatureType(FacilityFeatures(r)[i]) == VStr("parking_space")
  {
    if r.hasOsmData {
      var ss: seq<Feature> := SpaceFeatures(r, r.spaces);
      var as_: seq<Feature> := AreaFeatures(r, r.areas);
      forall j | |ss| <= j < |ss + as_|
        ensures FeatureType((ss + as_)[j]) == VStr("parking_area")
      {
        assert (ss + as_)[j] == as_[j - |ss|];
      }
      forall i | 0 <= i < |ss|
        ensures FeatureType((ss + as_)[i]) == VStr("parking_space")
      {
        assert (ss + as_)[i] == ss[i];
      }
    }
  }

  lemma SpaceFeaturesSnoc(r: Extraction, ss: seq<Space>, i: nat)
    requires i < |ss|
    ensures SpaceFeatures(r, ss[..i + 1]) ==
      SpaceFeatures(r, ss[..i]) + (if ss[i].geometry.Some? then [SpaceFeature(r, ss[i])] else [])
  {
    assert ss[..i + 1][..i] == ss[..i];
  }

  lemma AreaFeaturesSnoc(r: Extraction, as_: seq<Area>, i: nat)
    requires i < |as_|
    ensures AreaFeatures(r, as_[..i + 1]) ==
      AreaFeatures(r, as_[..i]) + (if as_[i].geometry.Some? then [AreaFeature(r, as_[i])] else [])
  {
    assert as_[..i + 1][..i] == as_[..i];
  }

  /** The loop `for space in result['spaces']: if space['geometry']: features.append(...)`. */
  method AppendSpaces(features: seq<Feature>, r: Extraction) returns (out: seq<Feature>)
    ensures out == features + SpaceFeatures(r, r.spaces)
  {
    out := features;
    var i := 0;
    while i < |r.spaces|
      invariant 0 <= i <= |r.spaces|
      invariant out == features + SpaceFeatures(r, r.spaces[..i])
    {
      SpaceFeaturesSnoc(r, r.spaces, i);
      var space := r.spaces[i];
      if space.geometry.Some? {
        out := out + [SpaceFeature(r, space)];
      }
      i := i + 1;
    }
    assert r.spaces[..|r.spaces|] == r.spaces;
  }

  /** The loop `for area in result['areas']: if area['geometry']: features.append(...)`. */
  method AppendAreas(features: seq<Feature>, r: Extraction) returns (out: seq<Feature>)
    ensures out == features + AreaFeatures(r, r.areas)
  {
    out := features;
    var j := 0;
    while j < |r.areas|
      invariant 0 <= j <= |r.areas|
      invariant out == features + AreaFeatures(r, r.areas[..j])
    {
      AreaFeaturesSnoc(r, r.areas, j);
      var area := r.areas[j];
      if area.geometry.Some? {
        out := out + [AreaFeature(r, area)];
      }
      j := j + 1;
    }
    assert r.areas[..|r.areas|] == r.areas;
  }

  /** The inner loops of `create_geojson_overlay`: a facility's spaces, then its areas,
      skipping items without geometry. */
  method AppendFacility(features: seq<Feature>, r: Extraction) returns (out: seq<Feature>)
    requires r.hasOsmData
    ensures out == features + FacilityFeatures(r)
  {
    var mid := AppendSpaces(features, r);
    out := AppendAreas(mid, r);
  }

  /** `create_geojson_overlay(facility_results)`: the feature list. */
  method CreateGeojsonOverlay(results: seq<Extraction>) returns (features: seq<Feature>)
    ensures features == Overlay(results)
  {
    features := [];
    var i := 0;
    while i < |results|
      invariant 0 <= i <= |results|
      invariant features == Overlay(results[..i])
    {
      PrefixSnoc(results, i);
      FlatMapSnoc(FacilityFeatures, results[..i], results[i]);
      if results[i].hasOsmData {
        features := AppendFacility(features, results[i]);
      }
      i := i + 1;
    }
    assert results[..|results|] == results;
  }

  /** Every overlay feature is a parking space or a parking area. */
  lemma {:induction false} OverlayKinds(results: seq<Extraction>)
    ensures forall f :: f in Overlay(results) ==>
      FeatureType(f) == VStr("parking_space") || FeatureType(f) == VStr("parking_area")
  {
    if results != [] {
      var p := results[..|results| - 1];
      OverlayKinds(p);
      assert results == p + [results[|results| - 1]];
      FlatMapSnoc(FacilityFeatures, p, results[|results| - 1]);
    }
  }
}
