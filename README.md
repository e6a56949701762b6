# Dutch parking data pipeline, modelled in Dafny

The pipeline collects parking facilities in the Netherlands from several open-data sources: the RDW
national register, OpenStreetMap through Overpass, and the municipal portals of Amsterdam,
Groningen, Arnhem, Eindhoven, Utrecht, Rotterdam and Elburg. It turns each source's records into
one flat facility record, with an id, source, name, type, coordinates, capacity, paid and real-time
flags and a province. The outputs are then combined:

- extraction of individual OSM parking spaces, nationally and for South Holland;
- re-classification of those spaces by size (car or truck);
- a split of the national list by province;
- a national merge that removes duplicates within 50 metres;
- a focused merge for three provinces.

This project models the record-building rules, filters, deduplication loops, counters and merges
of those scripts, and proves what each promises. Examples: which records a filter keeps, and in
what order; that a dedup loop keeps the first record per id; that counters add up to their
totals; that a round trip through the RDW WKT point text returns its coordinates.

Python values are modelled by `Props.Value`: null, booleans, integers, reals, strings, lists and
objects, with Python truthiness and `dict.get` defaults. Loops that build lists or dictionaries
are `method`s with invariants. Each is tied to a prefix-recursive specification function, and the
properties are lemmas about that function. Dictionaries that Python fills in insertion order are
modelled as `Tally` counters: association lists with distinct keys. Python exceptions that would
abort a script are preconditions. Exceptions that the script catches are modelled as a `None` or
failure result.

Shared modules:

- `Wrappers`: `Option`.
- `Text`: string methods.
- `Numbers`: `int()`, `float()`, `str()` of integers and `round()`.
- `Seqs`: filter, map, first-occurrence dedup, subsequences.
- `Tally`: counters.
- `Geo`: positions, geometries, boxes, ring means.
- `Props`: property values.
- `Osm`: Overpass elements, node tables, way references.

Each remaining module follows one script.

## Model

| member | source | states |
|---|---|---|
| Rdw.FormatTime | scripts/fetch_rdw_parking.py:93-102 | empty text is returned unchanged; any other is five characters with ':' in the middle, the other four being the first four of the text zero-padded to width 4 |
| Rdw.FormatTimeShort | scripts/fetch_rdw_parking.py:93-102 | a four-character time is split after its second character, a three-character one gains a leading zero first |
| Rdw.FormatTimeExamples | scripts/fetch_rdw_parking.py:93-102 | "930" gives "09:30", "2400" gives "24:00", "" gives "" |
| Rdw.ParseDayTimeframe | scripts/fetch_rdw_parking.py:105-133 | the table entry of the upper-cased code when there is one, otherwise the code itself |
| Rdw.LowercaseDayKeysUnreachable | scripts/fetch_rdw_parking.py:118-119 | no upper-cased code equals "a" or "b", so "a" and "b" come back unchanged instead of as their table entries |
| Rdw.ParseWktPoint | scripts/fetch_rdw_parking.py:136-146 | a pair exactly when the text starts with "POINT", strips to two tokens and both parse as floats; the pair is (lon, lat) in text order |
| Rdw.WktRoundTrip | scripts/fetch_rdw_parking.py:136-146 | the text "POINT (lon lat)" written for integral coordinates parses back to those coordinates |
| Rdw.WktTokensOfInts | scripts/fetch_rdw_parking.py:142-143 | stripping "POINT (" and ")" from such a text and splitting it yields the two numerals |
| Rdw.BuildSpecsLookup | scripts/fetch_rdw_parking.py:195-208 | the loop builds the lookup that the prefix specification defines |
| Rdw.SpecsLookupKeys | scripts/fetch_rdw_parking.py:197-202 | the lookup has an entry exactly for the non-empty area ids that occur among the records |
| Rdw.SpecsLookupLatest | scripts/fetch_rdw_parking.py:200-208 | the record kept for an id is the first one with the greatest start date in string order: every earlier record of the id is strictly earlier, and no later one is strictly later |
| Rdw.AddRangeSpec | scripts/fetch_rdw_parking.py:406-426 | adding a range to the day sets keeps the days distinct and each set sorted; a new day goes last, and only that day's set gains the range |
| Rdw.SchedulesSnoc | scripts/fetch_rdw_parking.py:407-426 | one more record adds its (day, range) only when day, start and end are present and parking is allowed; the maximum duration is fixed by the first positive one |
| Rdw.RegulationStep | scripts/fetch_rdw_parking.py:407-426 | the loop body updates the day schedules and max_duration as the step specification says |
| Rdw.TimeRegulations | scripts/fetch_rdw_parking.py:404-434 | the loop computes the grouped schedule and the maximum duration of the records |
| Rdw.ScheduleWellFormed | scripts/fetch_rdw_parking.py:429-434 | the days are distinct, each with a non-empty, strictly sorted list of ranges, as `sorted(list(times))` of a non-empty set gives |
| Rdw.ScheduleHours | scripts/fetch_rdw_parking.py:423-434 | a range is listed under a day exactly when some contributing record produced that day and range |
| Rdw.MaxDurationNone | scripts/fetch_rdw_parking.py:412-421 | max_duration stays None exactly when no record has a positive integer duration |
| Rdw.MaxDurationFirst | scripts/fetch_rdw_parking.py:412-421 | otherwise it is the duration of the first record that has a positive one |
| Rdw.CarpoolplaatsIsCarpool | scripts/fetch_rdw_parking.py:453 | a description containing "carpoolplaats" contains "carpool", so the second test of that branch adds nothing |
| Rdw.AreaType | scripts/fetch_rdw_parking.py:448-458 | one of the four types; each type holds exactly when its test matches and no earlier test does |
| Rdw.FullAddress | scripts/fetch_rdw_parking.py:340-351 | empty exactly when street and city are both empty; otherwise the street part, the city part, or both joined by ", " |
| Rdw.OpeningHours | scripts/fetch_rdw_parking.py:380-391 | "24/7", "24h", "Open all year" or None, each exactly for its combination of the two "1" flags |
| OsmParking.ClassifyParkingType | scripts/fetch_osm_parking.py:86-104 | the type is one of the known types, each exactly when its rule is the first to match: garage for multi-storey or underground, surface for `parking=surface`, street_paid for street_side or lane, p_and_r for park-and-ride, parking_space for `amenity=parking_space`, street_free for `fee=no`, and surface when no rule matches |
| OsmParking.PutParsed | scripts/fetch_osm_parking.py:111-127 | an unparsable tag leaves the capacity unchanged; a parsed one sets exactly its key |
| OsmParking.ExtractCapacity | scripts/fetch_osm_parking.py:107-129 | None exactly when no capacity tag parses; otherwise only the keys total, disabled and ev_charging, each present exactly when its tag parses, holding the parsed number |
| OsmParking.ProcessElement | scripts/fetch_osm_parking.py:132-177 | a node without coordinates raises; an element at a zero latitude or longitude is skipped; otherwise the record is built at the element's coordinates with the classified type, the payment rule and the extracted capacity |
| OsmParking.ElementLatLon | scripts/fetch_osm_parking.py:137-143 | a node has its own coordinates and raises without them; any other element takes its center, or failing that its own coordinates, or 0 |
| OsmParking.Record | scripts/fetch_osm_parking.py:154-177 | the record has the id `osm_<type>_<id>`, the given type, province, payment flag and capacity |
| OsmParking.RecordPosition | scripts/fetch_osm_parking.py:161-163 | the record's latitude and longitude are the element's, and its geometry is the point `[lon, lat]` |
| OsmParking.RecordIdentity | scripts/fetch_osm_parking.py:156-159 | the record keeps the OSM id, and its name is the `name` tag, else the `description` tag, else empty |
| OsmParking.KeptOf | scripts/fetch_osm_parking.py:197-202 | an element contributes one record exactly when processing keeps it, tagged with its province, and none when it raises or is skipped |
| OsmParking.CollectParking | scripts/fetch_osm_parking.py:184-202 | the collected records are those of the first copy of each element id, in fetch order |
| OsmParking.CollectedIdsDistinct | scripts/fetch_osm_parking.py:192-195 | the element ids processed are distinct, every fetched id is processed once, and no more elements are processed than were fetched |
| OsmParking.StatisticsSnoc | scripts/fetch_osm_parking.py:217-227 | one more record bumps its type and province counters and the capacity and name counts by its own flags |
| OsmParking.CountOne | scripts/fetch_osm_parking.py:217-227 | the loop body turns the counters for the first `i` records into those for the first `i + 1` |
| OsmParking.Statistics | scripts/fetch_osm_parking.py:209-227 | the total is the record count; the type and province counters are the tallies of the records and each sums to the total; the capacity and name counts are the matching records and at most the total |
| Osm.NodeTable | scripts/extract_osm_parking_spaces_netherlands.py:93 | every entry of the node lookup is a node element of the response, stored under its own id |
| Osm.NodeTableDomain | scripts/extract_osm_parking_spaces_netherlands.py:93 | an id is in the lookup exactly when some node element of the response carries it |
| Osm.Resolved | scripts/extract_osm_parking_spaces_netherlands.py:114-118 | one position per reference found in the lookup, never more than the references, and all of them when every reference is known |
| Osm.ResolvedAllKnown | scripts/extract_osm_parking_spaces_netherlands.py:114-118 | with every reference known, position k is the k-th referenced node's `[lon, lat]` |
| Osm.ResolvedFromRefs | scripts/extract_osm_parking_spaces_netherlands.py:114-118 | every resolved position is the position of some referenced node |
| Osm.ResolveRefs | scripts/extract_osm_parking_spaces_netherlands.py:114-118 | the loop collects exactly the resolved positions |
| NlSpaces.Row | scripts/extract_osm_parking_spaces_netherlands.py:29-37 | a row holds one region per column |
| NlSpaces.RowAt | scripts/extract_osm_parking_spaces_netherlands.py:29-37 | column c of a row is region (r, c) |
| NlSpaces.GridAt | scripts/extract_osm_parking_spaces_netherlands.py:21-39 | after m rows the list holds m * cols regions, region (r, c) at index r * cols + c; with m = rows this is the whole grid in row-major order |
| NlSpaces.GridLength | scripts/extract_osm_parking_spaces_netherlands.py:28-37 | after m rows the list holds m * cols regions |
| NlSpaces.CreateRegionalGrid | scripts/extract_osm_parking_spaces_netherlands.py:21-39 | with positive sizes the result is the complete row-by-row grid; with a negative size it is empty (a zero size divides by zero and is excluded) |
| NlSpaces.AppendRow | scripts/extract_osm_parking_spaces_netherlands.py:29-37 | the inner loop appends exactly one row of regions |
| NlSpaces.StepsCover | scripts/extract_osm_parking_spaces_netherlands.py:25-26 | n steps of (max - min) / n from min end exactly at max |
| NlSpaces.GridTilesBounds | scripts/extract_osm_parking_spaces_netherlands.py:25-37 | the regions tile the bounds: the outer rows and columns touch the edges of the box and neighbouring regions share their edge |
| NlSpaces.VehicleType | scripts/extract_osm_parking_spaces_netherlands.py:128-129 | truck exactly when the disabled capacity tag, or failing it the HGV capacity tag, contains "hgv" in any case; car otherwise |
| NlSpaces.SpaceGeometry | scripts/extract_osm_parking_spaces_netherlands.py:103-124 | a node with both coordinates gets its point `[lon, lat]` and one without gets none; a way with references gets a polygon exactly when at least three references resolve, its single ring the resolved positions in reference order; other elements get none |
| NlSpaces.SpaceFeature | scripts/extract_osm_parking_spaces_netherlands.py:131-145 | the feature carries the geometry, exactly the nine listed properties, the element id, the vehicle type and each tag or "N/A" when missing |
| NlSpaces.ExtractOne | scripts/extract_osm_parking_spaces_netherlands.py:96-146 | an element yields a feature exactly when it is tagged as a parking space and has a geometry; the feature carries that geometry and the element id |
| NlSpaces.Extracted | scripts/extract_osm_parking_spaces_netherlands.py:96-146 | at most one feature per element |
| NlSpaces.ExtractedSnoc | scripts/extract_osm_parking_spaces_netherlands.py:96-146 | one more element appends its feature, if any, to the features so far |
| NlSpaces.ExtractElement | scripts/extract_osm_parking_spaces_netherlands.py:97-146 | the loop body computes exactly the element's feature |
| NlSpaces.ExtractParkingSpaces | scripts/extract_osm_parking_spaces_netherlands.py:87-148 | the returned features are the specification's features over the elements, with the node lookup built from the same elements |
| NlSpaces.ExtractedFromParkingSpaces | scripts/extract_osm_parking_spaces_netherlands.py:100-101 | every extracted feature carries the id of some element tagged as a parking space |
| NlSpaces.DeduplicateParkingSpaces | scripts/extract_osm_parking_spaces_netherlands.py:150-161 | the first feature per OSM id, in input order: ids distinct, every id of the input kept, and the result a subsequence of the input |
| NlSpaces.DeduplicateIdempotent | scripts/extract_osm_parking_spaces_netherlands.py:150-161 | de-duplicating the output again changes nothing |
| SouthHolland.IsHgv | extract_osm_parking_south_holland.py:79-86 | the `or` chain is truthy exactly when `hgv` is designated or yes, a truck or HGV capacity tag is non-empty, or the lower-cased name contains truck, hgv or vrachtwagen; its value is a boolean or the capacity text |
| SouthHolland.ClassifyParkingFromOsm | extract_osm_parking_south_holland.py:68-116 | the type is always truck or lzv; lzv exactly when the space is HGV and the name says lzv or lang zwaar or the length is 25.25; label and colour follow the type; `is_hgv` is kept as computed |
| SouthHolland.WayGeometry | extract_osm_parking_south_holland.py:163-174 | a way gets a polygon exactly when at least three of its node references resolve, the polygon's single ring being the resolved coordinates in order |
| SouthHolland.SpaceGeometry | extract_osm_parking_south_holland.py:162-180 | a node space gets its own point; any other space gets the way polygon rule |
| SouthHolland.AreaCapacity | extract_osm_parking_south_holland.py:190-194 | a missing capacity tag gives 0; a present one gives its integer value, or 0 when it does not parse |
| SouthHolland.ExtractedSnoc | extract_osm_parking_south_holland.py:145-222 | the result after one more element is one loop step applied to the result so far |
| SouthHolland.ExtractElement | extract_osm_parking_south_holland.py:146-222 | the loop body computes exactly one step of the specification |
| SouthHolland.ExtractParkingFromOsm | extract_osm_parking_south_holland.py:118-224 | the returned result is the specification's fold over the elements, with the node lookup built from the same elements |
| SouthHolland.ExtractedCounters | extract_osm_parking_south_holland.py:151-196 | the space count equals the number of spaces collected and the total capacity is the sum of the areas' capacities |
| SouthHolland.ExtractedHasData | extract_osm_parking_south_holland.py:149-186 | `has_osm_data` holds exactly when some element is a parking space or a parking area |
| SouthHolland.ExtractedPolygons | extract_osm_parking_south_holland.py:170-220 | every polygon attached to a space, and every area geometry, is one ring of at least three vertices |
| SouthHolland.SpaceFeature | extract_osm_parking_south_holland.py:346-363 | the feature carries the space's geometry and has feature type parking_space |
| SouthHolland.AreaFeature | extract_osm_parking_south_holland.py:370-390 | the feature carries the area's geometry and has feature type parking_area |
| SouthHolland.SpaceFeatures | extract_osm_parking_south_holland.py:342-363 | every feature is of type parking_space and there are no more features than spaces; which features they are is stated by SpaceFeaturesPlaced |
| SouthHolland.AreaFeatures | extract_osm_parking_south_holland.py:366-390 | every feature is of type parking_area and there are no more features than areas; which features they are is stated by AreaFeaturesPlaced |
| SouthHolland.SpaceFeaturesPlaced | extract_osm_parking_south_holland.py:342-363 | one feature for every space with a geometry and none for the others, in order: the `k`-th feature is built from the `k`-th space with a geometry |
| SouthHolland.AreaFeaturesPlaced | extract_osm_parking_south_holland.py:366-390 | one feature for every area with a geometry and none for the others, in order: the `k`-th feature is built from the `k`-th area with a geometry |
| SouthHolland.FacilityFeaturesOrder | extract_osm_parking_south_holland.py:337-390 | a facility without OSM data contributes nothing; otherwise at most one feature per space or area, and every space feature comes before every area feature |
| SouthHolland.AppendSpaces | extract_osm_parking_south_holland.py:342-363 | the loop appends exactly the space features of the facility to the list |
| SouthHolland.AppendAreas | extract_osm_parking_south_holland.py:366-390 | the loop appends exactly the area features of the facility to the list |
| SouthHolland.AppendFacility | extract_osm_parking_south_holland.py:341-390 | a facility with OSM data appends its space features, then its area features |
| SouthHolland.CreateGeojsonOverlay | extract_osm_parking_south_holland.py:328-395 | the feature list is the overlay specification over all facility results, skipping facilities without OSM data |
| SouthHolland.OverlayKinds | extract_osm_parking_south_holland.py:352-376 | every overlay feature is a parking space or a parking area |
| Reclassify.PolygonDimensions | scripts/reclassify_osm_parking_by_size.py:31-45 | no dimensions for fewer than four points; otherwise width and length are the first two edges, shorter one first, and the area is their product |
| Reclassify.OutcomeOf | scripts/reclassify_osm_parking_by_size.py:68-98 | a polygon is sized exactly when its dimensions exist and are all non-zero, and then a truck bay exactly when it meets both minimums and a car bay otherwise; a point counts as a truck exactly when tagged truck and as a car exactly when it is not; only non-points can be left untouched |
| Reclassify.Reclassified | scripts/reclassify_osm_parking_by_size.py:69-98 | the geometry is kept; an untouched feature is unchanged; a sized polygon gains its width and length rounded to 2 places, its area rounded to 1, the new vehicle type and the size-based method, and nothing else changes; a point gains only the tag-based method |
| Reclassify.CountWhere | scripts/reclassify_osm_parking_by_size.py:64-98 | at most one count per feature |
| Reclassify.CountWhereSnoc | scripts/reclassify_osm_parking_by_size.py:68-98 | one more feature adds one exactly when its outcome is counted |
| Reclassify.CountFeature | scripts/reclassify_osm_parking_by_size.py:68-98 | one feature adds one to the truck, car, point or sized count exactly when its outcome is of that kind, and trucks plus cars gain what points plus sized polygons gain |
| Reclassify.CountThrough | scripts/reclassify_osm_parking_by_size.py:68-98 | the loop body takes each counter from the count over the first `i` features to the count over the first `i + 1`, keeping trucks plus cars equal to points plus sized polygons |
| Reclassify.ReclassifySpaces | scripts/reclassify_osm_parking_by_size.py:64-98 | every feature is replaced by its reclassified version; trucks, cars and points are counted by outcome, and trucks plus cars are the points plus the sized polygons |
| Reclassify.TruckIffBothMinimums | scripts/reclassify_osm_parking_by_size.py:81 | a sized polygon is a truck bay exactly when its shorter edge meets the minimum width and its longer edge the minimum length, whichever edge comes first |
| ProvinceSplit.PointInBoundsInclusive | scripts/split_parking_by_province.py:63-66 | both bounds are inclusive: the four corners of a box are inside it |
| ProvinceSplit.Centroid | scripts/split_parking_by_province.py:68-83 | a point's centroid is its coordinates; a polygon's is the vertex mean of its exterior ring; a geometry other than point or polygon gives the origin |
| ProvinceSplit.PolygonCentroidInBox | scripts/split_parking_by_province.py:75-81 | a polygon whose outer ring lies in a box has its vertex mean in that box |
| ProvinceSplit.FirstProvince | scripts/split_parking_by_province.py:115-120 | the chosen province holds the centroid and no earlier one does; no province means no box holds it |
| ProvinceSplit.FirstFrom | scripts/split_parking_by_province.py:115-120 | the same search started at a province index |
| ProvinceSplit.FindProvince | scripts/split_parking_by_province.py:113-120 | the loop with `break` finds exactly the first matching province |
| ProvinceSplit.OriginInNoProvince | scripts/split_parking_by_province.py:12-61 | the origin lies in no province box |
| ProvinceSplit.OtherGeometryUnassigned | scripts/split_parking_by_province.py:83-123 | a feature that is neither a point nor a polygon ends up unassigned |
| ProvinceSplit.Tagged | scripts/split_parking_by_province.py:117 | tagging adds only the `province` property, set to the province name, and keeps the geometry and every other property |
| ProvinceSplit.Buckets | scripts/split_parking_by_province.py:103 | one bucket per province |
| ProvinceSplit.SplitByProvince | scripts/split_parking_by_province.py:103-123 | the loop computes exactly the bucket and unassigned specifications |
| ProvinceSplit.TotalLengthUpdate | scripts/split_parking_by_province.py:118 | appending to one bucket adds one to the total size |
| ProvinceSplit.TotalLengthEmpty | scripts/split_parking_by_province.py:103 | the initial buckets are empty |
| ProvinceSplit.EveryFeatureOnce | scripts/split_parking_by_province.py:108-123 | the bucket sizes plus the unassigned count equal the number of features: each feature lands in exactly one place |
| ProvinceSplit.BucketContents | scripts/split_parking_by_province.py:108-123 | bucket k holds, in input order, exactly the tagged features whose first matching province is k |
| ProvinceSplit.CountVehicle | scripts/split_parking_by_province.py:142-143 | a vehicle count is at most the bucket size |
| ProvinceSplit.TruckPlusCarAtMostTotal | scripts/split_parking_by_province.py:142-143 | trucks plus cars never exceed the bucket size |
| ProvinceSplit.ProvinceStats | scripts/split_parking_by_province.py:135-175 | at most one entry per province |
| ProvinceSplit.StatsFrom | scripts/split_parking_by_province.py:137-175 | at most one entry per remaining province, each with trucks plus cars at most its total |
| ProvinceSplit.StatForFrom | scripts/split_parking_by_province.py:137-205 | a province has a stats entry exactly when its bucket is non-empty, and the entry's total is the bucket size |
| ProvinceSplit.StatForAbsent | scripts/split_parking_by_province.py:137-205 | the stats built from a later province on contain no entry for an earlier one |
| ProvinceSplit.DistinctProvinceKeys | scripts/split_parking_by_province.py:12-61 | the province keys are distinct |
| ProvinceSplit.ProvinceIndex | scripts/split_parking_by_province.py:200-208 | the index has an entry for every province and no other key |
| ProvinceSplit.ProvinceIndexEntry | scripts/split_parking_by_province.py:200-208 | a province's entry points to its gzipped file; its stats are absent exactly when its bucket is empty and otherwise total the bucket size |
| MergeParking.TypeMappingFixesStandard | scripts/merge_parking_data.py:39-56 | the type table maps onto the standard types and maps each standard type to itself |
| MergeParking.NormalizeParkingType | scripts/merge_parking_data.py:33-58 | the result is a standard type or "other"; a standard type is kept; it differs from "other" exactly when the raw type is a listed text |
| MergeParking.Normalized | scripts/merge_parking_data.py:220-227 | writing the normalised type adds only the key `type` and leaves every other field as it was |
| MergeParking.NormalizeIdempotent | scripts/merge_parking_data.py:33-58 | normalising an already normalised facility changes nothing |
| MergeParking.NormalizeExamples | scripts/merge_parking_data.py:33-58 | multi-storey becomes garage, street_side street_paid, an unlisted type and a missing one other |
| MergeParking.FillFields | scripts/merge_parking_data.py:142-144 | a listed field that is empty in the merged facility and set in the duplicate takes the duplicate's value; every other field is unchanged |
| MergeParking.MergeCapacity | scripts/merge_parking_data.py:147-153 | only the capacity changes; an empty duplicate capacity changes nothing; an empty own capacity takes the duplicate's; two objects are united with the own entries winning; otherwise the own one stays |
| MergeParking.MergeRealtime | scripts/merge_parking_data.py:156-159 | when only the duplicate has real-time data, `has_realtime` becomes true and the availability and update time are the duplicate's; otherwise nothing changes; other fields are kept |
| MergeParking.SourceList | scripts/merge_parking_data.py:162-164 | the sources are the two source values without the empty one, each at most once |
| MergeParking.SourceUntouched | scripts/merge_parking_data.py:139-159 | the fill, capacity and real-time steps never change `source` |
| MergeParking.MergeFacilities | scripts/merge_parking_data.py:137-166 | the merged facility lists both sources and keeps the canonical source |
| MergeParking.MergeAfterFill | scripts/merge_parking_data.py:146-166 | the steps after the fill leave every key they do not write as the fill left it |
| MergeParking.MergeFillRule | scripts/merge_parking_data.py:142-144 | a set canonical text field is kept; an empty one takes the duplicate's set value |
| MergeParking.MergeUntouched | scripts/merge_parking_data.py:137-166 | a key no step writes keeps its canonical value |
| MergeParking.MergeCapacityRule | scripts/merge_parking_data.py:147-153 | an empty capacity takes the duplicate's; a set one is never overwritten, and an object keeps every key and value |
| MergeParking.MergeRealtimeRule | scripts/merge_parking_data.py:156-159 | real-time data comes from the duplicate exactly when only the duplicate has it; otherwise `has_realtime` is the canonical one |
| MergeParking.BuildGrid | scripts/merge_parking_data.py:64-72 | the first loop builds exactly the grid specification: cells in first-seen order, located facility indices in order |
| MergeParking.NearbyGridAdd | scripts/merge_parking_data.py:72-84 | filing an index under a cell adds it to the nearby set of exactly the cells adjacent to it |
| MergeParking.NearbyMembers | scripts/merge_parking_data.py:77-84 | an index is nearby a cell exactly when it is a located facility in that cell or one of its eight neighbours |
| MergeParking.Ascending | scripts/merge_parking_data.py:86 | the sorted list is strictly increasing and holds exactly the members of the set below the bound |
| MergeParking.Score | scripts/merge_parking_data.py:116-127 | the score is at most 4 |
| MergeParking.RecordDuplicate | scripts/merge_parking_data.py:129-132 | recording a justified pair keeps every entry justified and loses no earlier key |
| MergeParking.ScanNearby | scripts/merge_parking_data.py:88-132 | the double loop records only justified pairs and keeps every earlier entry |
| MergeParking.FindDuplicates | scripts/merge_parking_data.py:61-134 | every recorded duplicate is a distinct facility, close to its canonical one, with related names, and not better scored (ties to the lower index); the keys are distinct |
| MergeParking.NearbyListMembers | scripts/merge_parking_data.py:79-86 | the sorted nearby list holds exactly the located facilities in the cell or a neighbouring one |
| MergeParking.CanonicalIndices | scripts/merge_parking_data.py:236 | every canonical index is a facility index that is not a duplicate key |
| MergeParking.DupsOf | scripts/merge_parking_data.py:243 | every listed duplicate index is a key of the duplicates dictionary |
| MergeParking.MergeAllSnoc | scripts/merge_parking_data.py:244-245 | merging one more duplicate is one more pairwise merge of the result so far |
| MergeParking.MergedFrom | scripts/merge_parking_data.py:239-247 | one merged facility per canonical index |
| MergeParking.MergedFromSnoc | scripts/merge_parking_data.py:239-247 | one more canonical index appends its facility merged with its duplicates |
| MergeParking.DupsInRange | scripts/merge_parking_data.py:243 | with keys in range, every listed duplicate index is in range |
| MergeParking.CanonicalCount | scripts/merge_parking_data.py:236 | with distinct keys in range there are n minus the key count canonical indices |
| MergeParking.CanonicalCountDrop | scripts/merge_parking_data.py:236 | the same count when the top index is a key |
| MergeParking.SameCanonical | scripts/merge_parking_data.py:236 | the canonical indices depend only on which indices are keys |
| MergeParking.MergedSize | scripts/merge_parking_data.py:236-249 | the merge outputs one facility per facility that is not a duplicate |
| MergeParking.MergeInto | scripts/merge_parking_data.py:244-245 | the inner loop merges the duplicates into the canonical facility in list order |
| MergeParking.MergeDuplicates | scripts/merge_parking_data.py:236-249 | the merged list is the specification's and has one facility per facility that is not a duplicate |
| MergeParking.MergeKeepsAddable | scripts/merge_parking_data.py:137-166 | merging two facilities whose capacities can be summed gives one whose capacity can be summed |
| MergeParking.MergeAllAddable | scripts/merge_parking_data.py:244-245 | merging any list of such duplicates keeps the capacity summable |
| MergeParking.MergedFromAddable | scripts/merge_parking_data.py:239-247 | every facility merged so far has a summable capacity |
| MergeParking.MergedAddable | scripts/merge_parking_data.py:236-249 | every merged facility has a summable capacity when every input has |
| MergeStats.NormalizeAll | scripts/merge_parking_data.py:220-227 | each facility is replaced by its normalised version, in order |
| MergeStats.NormalizedComparable | scripts/merge_parking_data.py:221 | normalising changes nothing the duplicate search and the city statistics read |
| MergeStats.CombineSources | scripts/merge_parking_data.py:215-226 | the combined list is the normalised OSM facilities followed by the normalised RDW ones, and every one of them can be compared and its capacity added |
| MergeStats.SummaryConsistent | scripts/merge_parking_data.py:252-273 | the type counts add up to the total and count each type's facilities; the source counts add up to the listed sources and count each; the capacity, real-time and name counts are at most the total |
| MergeStats.CountSources | scripts/merge_parking_data.py:265-266 | counting a facility's sources extends the tally by exactly those sources |
| MergeStats.SummarySnoc | scripts/merge_parking_data.py:261-273 | one more facility adds one to the total, bumps its type, appends its sources and adds its flags to the counts |
| MergeStats.Summarize | scripts/merge_parking_data.py:252-276 | the statistics loop returns `None` exactly when some facility's type or sources cannot be counted (Python raises `TypeError` there), and otherwise exactly the summary specification |
| MergeStats.CityStatsSnoc | scripts/merge_parking_data.py:178-194 | one more facility updates exactly its municipality's entry, adding a fresh entry for a new municipality |
| MergeStats.CountFacility | scripts/merge_parking_data.py:180-194 | the loop body updates the entry by one step of the specification |
| MergeStats.GenerateCityStatistics | scripts/merge_parking_data.py:169-197 | for facilities whose capacity can be added and whose municipality and type can be hashed, the loop computes exactly the city statistics specification |
| MergeStats.CityStatsFacts | scripts/merge_parking_data.py:169-197 | one entry per municipality seen and no other; each entry's type counts add up to its facilities, no more of them have real-time data, and its facility count is the number of that municipality's facilities |
| MergeStats.CityFactsStep | scripts/merge_parking_data.py:178-194 | one more facility keeps the municipality entries distinct, consistent and counting exactly that municipality's facilities |
| MergeStats.MergeSources | scripts/merge_parking_data.py:200-279 | the combined list is the normalised OSM list then the normalised RDW list; every recorded duplicate is justified; the merged list is the specification's, one facility per non-duplicate; both statistics are computed over it, the statistics are `None` exactly when some merged facility's type or sources cannot be counted, and the city statistics are `None` exactly when the statistics are or some merged municipality cannot be hashed |
| MergeFocused.OsmFiltered | scripts/merge_focused.py:43-46 | a feature is kept exactly when it is an OSM feature whose province is one of the three focus provinces; no more features than in the input |
| MergeFocused.OsmFilteredInOrder | scripts/merge_focused.py:43-46 | the kept features appear in their original order |
| MergeFocused.OsmFilteredIdempotent | scripts/merge_focused.py:43-46 | filtering the filtered list changes nothing |
| MergeFocused.Combine | scripts/merge_focused.py:50-58 | the combined list is every RDW feature followed by every filtered OSM feature |
| MergeFocused.Provinces | scripts/merge_focused.py:76-78 | one province per facility with a truthy province (missing reads "Unknown"), and every province listed is truthy |
| MergeFocused.StatsSnoc | scripts/merge_focused.py:72-83 | one more facility bumps its type and source, bumps its province only when truthy, and adds one to the capacity and name counts exactly when those are truthy |
| MergeFocused.Statistics | scripts/merge_focused.py:63-83 | for facilities whose type, source and truthy province are hashable, the loop fills the counters with the statistics of the combined list; a falsy province such as `[]` is skipped, not required hashable |
| MergeFocused.CountOne | scripts/merge_focused.py:72-83 | the loop body turns each counter for the first `i` facilities into the counter for the first `i + 1` |
| MergeFocused.StatsConsistent | scripts/merge_focused.py:63-83 | type counts and source counts each sum to the total; province counts sum to the facilities with a province, at most the total; each count is the number of facilities with that value; capacity and name counts are at most the total |
| MergeFocused.FalsyProvinceSkipped | scripts/merge_focused.py:76-78 | a facility whose province is an empty list or dictionary is countable, adds one to the total and leaves the province counts unchanged |
| MergeFocused.MissingProvinceIsUnknown | scripts/merge_focused.py:76-78 | every facility without a province key is counted under "Unknown" |
| MergeFocused.FocusedMerge | scripts/merge_focused.py:43-83 | for hashable OSM provinces and countable facilities (a falsy province may be anything), the combined list is RDW then the focus OSM features in order, the total is their two counts added, and the counters are consistent |
| DutchCities.Coordinates | scripts/fetch_dutch_cities_parking.py:131-157 | a point is placed exactly when it has two coordinates, at its first two coordinates; a polygon exactly when its first ring is non-empty, at that ring's vertex mean; a multipolygon exactly when its first polygon's first ring is non-empty, at that ring's vertex mean; any other geometry is skipped |
| DutchCities.CoordinatesInBox | scripts/fetch_dutch_cities_parking.py:131-157 | a point is placed at its own coordinates; a polygonal feature whose first ring lies in a box is placed inside that box |
| DutchCities.ParkingType | scripts/fetch_dutch_cities_parking.py:160-177 | the type is one of the eight city types |
| DutchCities.ParkingTypeRules | scripts/fetch_dutch_cities_parking.py:162-177 | each type is given exactly when its own keywords occur in the type value and no earlier rule's do; the generic parking space exactly when no rule matches |
| DutchCities.NonNull | scripts/fetch_dutch_cities_parking.py:206 | exactly the properties whose value is not None, with their values |
| DutchCities.Facility | scripts/fetch_dutch_cities_parking.py:179-206 | the record's id, type and raw type, name (the street or "Parkeervak" and the city), neighbourhood (the area or None) and original properties follow the mapping's fields |
| DutchCities.ProcessedWith | scripts/fetch_dutch_cities_parking.py:127-208 | at most one facility per feature |
| DutchCities.ProcessedSnoc | scripts/fetch_dutch_cities_parking.py:127-208 | one more feature appends its facility, if placed, to the facilities so far |
| DutchCities.AppendFeature | scripts/fetch_dutch_cities_parking.py:128-208 | the loop body computes exactly one step of the specification |
| DutchCities.ProcessFeatures | scripts/fetch_dutch_cities_parking.py:122-210 | the returned facilities are the specification's over the features |
| DutchCities.ProcessedWithIsPlaced | scripts/fetch_dutch_cities_parking.py:127-208 | the output has one facility per placeable feature, the i-th built from the i-th placeable feature with i facilities before it |
| DutchCities.ProcessedIsPlacedInOrder | scripts/fetch_dutch_cities_parking.py:127-208 | the same for the city's own record builder |
| DutchCities.ProcessedKeepsOrder | scripts/fetch_dutch_cities_parking.py:127-208 | the placed features are a subsequence of the input, and there are no more facilities than features |
| DutchCities.IntToStringInjective | scripts/fetch_dutch_cities_parking.py:181 | two numbers with the same decimal text are equal |
| DutchCities.FallbackIdsDistinct | scripts/fetch_dutch_cities_parking.py:181 | two facilities without an id value and with different counts get different ids |
| DutchCities.CityStats | scripts/fetch_dutch_cities_parking.py:243-251 | a city's total is its facility count and its type counter is their tally, adding up to the total |
| DutchCities.CombineCities | scripts/fetch_dutch_cities_parking.py:213-272 | all facilities are Groningen's then Arnhem's, at most one per feature; the source and type counters are their tallies and each adds up to the total |
| Amsterdam.ClassifySpotType | scripts/fetch_amsterdam_parking.py:63-89 | the type is one of the five Amsterdam spot types |
| Amsterdam.ClassifySpotTypeRules | scripts/fetch_amsterdam_parking.py:65-89 | disabled exactly for MULDER or a gehandicapt soort; each later type exactly when its rule matches and no earlier one does; street_paid for everything else |
| Amsterdam.FiscalTestIsRedundant | scripts/fetch_amsterdam_parking.py:86-89 | the FISCAAL test decides nothing: two type values other than MULDER always give the same spot type |
| Amsterdam.CoordinatesAsWritten | scripts/fetch_amsterdam_parking.py:97-118 | the line as written raises exactly for a point without coordinates |
| Amsterdam.Coordinates | scripts/fetch_amsterdam_parking.py:97-118 | with the conditional applied to the pair, a point with two coordinates gives (lat, lon) and a shorter one (None, None); a polygon with a non-empty first ring, and a multipolygon whose first polygon has a non-empty first ring, gives the vertex mean of that ring; everything else gives (None, None), so latitude and longitude are None together and numbers otherwise |
| Amsterdam.Aantal | scripts/fetch_amsterdam_parking.py:123-127 | an integer `aantal` is kept, a missing one is 1, and one `int()` rejects is 1 |
| Amsterdam.Spot | scripts/fetch_amsterdam_parking.py:120-148 | the bay keeps its geometry and carries the classified type, the coordinates, the spot count, the capacity and paid rules and the soort |
| Amsterdam.ProcessFeatureAsWritten | scripts/fetch_amsterdam_parking.py:92-148 | as written: None exactly when the properties do not classify or a Point has no coordinate; otherwise the record keeps the geometry and carries the classified type and the coordinates as line 102 binds them |
| Amsterdam.ProcessFeature | scripts/fetch_amsterdam_parking.py:92-148 | corrected: None exactly when the properties do not classify; otherwise the record keeps the geometry, carries the classified type and the corrected coordinates, and has a position only when both are non-zero numbers |
| Amsterdam.KeptAsWritten | scripts/fetch_amsterdam_parking.py:161-167 | as written, at most one bay per feature |
| Amsterdam.Kept | scripts/fetch_amsterdam_parking.py:161-167 | corrected, at most one bay per feature |
| Amsterdam.AsWrittenKeepsOneCoordinatePoint | scripts/fetch_amsterdam_parking.py:102 | as written, a point with a single non-zero coordinate is kept with the tuple (None, None) as its latitude |
| Amsterdam.CorrectedDropsOneCoordinatePoint | scripts/fetch_amsterdam_parking.py:102 | corrected, the same point is dropped |
| Amsterdam.KeptHasNumericPosition | scripts/fetch_amsterdam_parking.py:164-165 | corrected, every kept bay has a non-zero number as latitude and as longitude |
| Amsterdam.CorrectionOnlyTouchesShortPoints | scripts/fetch_amsterdam_parking.py:101-118 | the written and the corrected coordinates agree on every geometry but a point with one coordinate |
| Amsterdam.Soorts | scripts/fetch_amsterdam_parking.py:181-183 | one counted soort per bay with a truthy soort |
| Amsterdam.StatsOfParts | scripts/fetch_amsterdam_parking.py:170-183 | the loop's counters are the number of bays, the sum of their spot counts, the type tally and the soort tally |
| Amsterdam.StatsTotal | scripts/fetch_amsterdam_parking.py:171 | the total is the number of bays |
| Amsterdam.StatsCapacity | scripts/fetch_amsterdam_parking.py:172 | the total capacity is the sum of the spot counts |
| Amsterdam.StatsByType | scripts/fetch_amsterdam_parking.py:177-179 | the type counter is the tally of the bays' types |
| Amsterdam.StatsBySoort | scripts/fetch_amsterdam_parking.py:181-183 | the soort counter is the tally of the truthy soorts |
| Amsterdam.StatsConsistent | scripts/fetch_amsterdam_parking.py:170-183 | the type counts add up to the total and count each type's bays; the soort counts add up to the bays with a soort |
| Amsterdam.StatsSnoc | scripts/fetch_amsterdam_parking.py:177-183 | one more bay is one more loop step |
| Amsterdam.CountSpot | scripts/fetch_amsterdam_parking.py:178-183 | the loop body computes exactly one step |
| Amsterdam.Statistics | scripts/fetch_amsterdam_parking.py:170-183 | the loop computes exactly the statistics specification |
| Amsterdam.KeptCounted | scripts/fetch_amsterdam_parking.py:140-172 | every bay built has an integer spot count, so the capacity sum never raises |
| Amsterdam.CollectSpots | scripts/fetch_amsterdam_parking.py:151-183 | `main` with the corrected coordinate rule `Kept` (the script as written also keeps a one-coordinate Point bay, see Findings): the kept bays are those that process and have a position, in order, at most one per feature, each with a numeric position; the statistics are computed over them and add up |
| Amsterdam.KeptAtMostOne | scripts/fetch_amsterdam_parking.py:161-167 | no more bays than features |
| Eindhoven.Coordinates | scripts/fetch_eindhoven_parking.py:69-81 | the `geo_point_2d` position when both coordinates are truthy; otherwise the first two coordinates of a Point held in `geo_shape`, bare or wrapped in a Feature, if it has two; otherwise what `geo_point_2d` gave |
| Eindhoven.ParkingType | scripts/fetch_eindhoven_parking.py:87-100 | the record is skipped exactly when fiets occurs and no earlier keyword does; garage, surface and disabled are each given exactly when their keyword occurs and no earlier one does; otherwise a generic parking space |
| Eindhoven.Capacity | scripts/fetch_eindhoven_parking.py:103-109 | a capacity object exactly when `aantal` is truthy and `int()` accepts it, holding that integer as its total; None otherwise |
| Eindhoven.Facility | scripts/fetch_eindhoven_parking.py:111-130 | the facility carries the position, the type, the capacity, the street or the fallback name, and the id `eindhoven_` followed by the object id |
| Eindhoven.RecordFacilities | scripts/fetch_eindhoven_parking.py:68-131 | a record adds one facility exactly when it has a position and is not bicycle parking; the facility is located, typed and carries the record's capacity |
| Eindhoven.Records | scripts/fetch_eindhoven_parking.py:68-131 | what any record adds is located and typed |
| Eindhoven.Parked | scripts/fetch_eindhoven_parking.py:66-133 | every parking-place facility is located and typed |
| Eindhoven.ProcessRecords | scripts/fetch_eindhoven_parking.py:66-133 | the record loop computes exactly the facilities of the records, in order |
| Eindhoven.FlatMapAll | scripts/fetch_eindhoven_parking.py:66-133 | concatenating located, typed facilities gives located, typed facilities |
| Eindhoven.WithGarages | scripts/fetch_eindhoven_parking.py:208-218 | the list stays located, stays typed when the garages are, and grows by at most the garages |
| Eindhoven.IsDuplicate | scripts/fetch_eindhoven_parking.py:211-216 | the inner loop reports a duplicate exactly when some facility so far lies strictly within 0.0001 degrees in both latitude and longitude |
| Eindhoven.WithGaragesSnoc | scripts/fetch_eindhoven_parking.py:210-218 | one more garage is appended exactly when no facility so far is near it |
| Eindhoven.AddGarages | scripts/fetch_eindhoven_parking.py:208-218 | the outer loop computes exactly the specification's list |
| Eindhoven.WithGaragesExtends | scripts/fetch_eindhoven_parking.py:204-218 | the parking places come first, unchanged, and everything after them is a garage |
| Eindhoven.EveryGarageCovered | scripts/fetch_eindhoven_parking.py:210-218 | no garage is lost without a reason: each one lies near some facility of the result |
| Eindhoven.AddedGaragesApart | scripts/fetch_eindhoven_parking.py:210-218 | every added garage lies away from everything before it in the list |
| Eindhoven.Statistics | scripts/fetch_eindhoven_parking.py:220-232 | the total is the facility count; the type counter is their tally and adds up to the total; the capacity count is the facilities with a capacity, at most the total |
| Eindhoven.StatisticsSnoc | scripts/fetch_eindhoven_parking.py:227-232 | one more facility bumps its type in the counter and adds one to the capacity count exactly when it has a capacity |
| Eindhoven.CountOne | scripts/fetch_eindhoven_parking.py:227-232 | the loop body turns the type counter and the capacity count for the first `i` facilities into those for the first `i + 1` |
| Eindhoven.CombineSources | scripts/fetch_eindhoven_parking.py:196-232 | the parking places come first and unchanged; every garage is covered; added garages are apart from all before them; the statistics add up |
| Utrecht.ExactMatch | scripts/fetch_utrecht_parking.py:44-45 | finds a coordinate pair exactly when some remaining table entry has the name; with distinct names it is that entry's pair |
| Utrecht.PrefixMatch | scripts/fetch_utrecht_parking.py:47-50 | absent exactly when no remaining entry's name is a prefix of the name; otherwise the pair of the first entry, in table order, whose name is a prefix |
| Utrecht.Lookup | scripts/fetch_utrecht_parking.py:42-53 | over a table with distinct names: found exactly when some entry's name is a prefix; an exact entry wins; otherwise the first prefix entry in table order |
| Utrecht.LocationNamesDistinct | scripts/fetch_utrecht_parking.py:25-39 | the garage table has no name twice |
| Utrecht.GarageCoords | scripts/fetch_utrecht_parking.py:42-53 | `get_garage_coords`: coordinates exactly when some table name is a prefix of the name, the exact entry's when there is one, else the first prefix entry's |
| Utrecht.LocationHeadsDistinct | scripts/fetch_utrecht_parking.py:25-39 | every table name has at least four characters and any two differ in the first or fourth |
| Utrecht.LocationNamesPrefixFree | scripts/fetch_utrecht_parking.py:25-39 | no table name is a prefix of another |
| Utrecht.PrefixMatchUnique | scripts/fetch_utrecht_parking.py:47-50 | at most one table name is a prefix of any given name, so the order of the prefix scan does not matter |
| Utrecht.Locate | scripts/fetch_utrecht_parking.py:71-83 | a name is placed exactly when it is not a "Hoog"/"Laag" variant or a "Pop Up" entry and has table coordinates, and then at those coordinates |
| Utrecht.Capacity | scripts/fetch_utrecht_parking.py:105 | the capacity is set exactly when `totalPlaces` is truthy |
| Utrecht.Available | scripts/fetch_utrecht_parking.py:106 | `available` is set exactly when `freePlaces` is truthy, so a count of 0 gives None |
| Utrecht.FacilityId | scripts/fetch_utrecht_parking.py:95 | the id is "utrecht_proute_" followed by the name, character by character, with spaces as underscores and letters in lower case |
| Utrecht.DisplayName | scripts/fetch_utrecht_parking.py:98 | "P+R " before a name containing "Stationsplein", "Parkeergarage " before any other |
| Utrecht.Facility | scripts/fetch_utrecht_parking.py:94-111 | the record carries that id and display name, the table coordinates, the capacity and availability rules, and the item's own time or the current time |
| Utrecht.EmittedSnoc | scripts/fetch_utrecht_parking.py:68-112 | one more item extends the emitted list by exactly one loop step |
| Utrecht.Visit | scripts/fetch_utrecht_parking.py:69-112 | one loop step for any item with a string name, with `int()` required to succeed only when the item is placed and its name unseen: the facilities and the `seen_garages` set after it are those of the step |
| Utrecht.FetchProute | scripts/fetch_utrecht_parking.py:65-115 | for string names, with `int()` required to succeed only on the first item of each placed name: the facilities are those of the loop; names are distinct, each placed; every placed item's name is emitted; each facility is built from the first item with its name |
| Utrecht.BuiltFromFirst | scripts/fetch_utrecht_parking.py:87-112 | when the first item of every placed name passes `int()`, each emitted facility is the record of the first item carrying its name |
| Utrecht.EmittedNamesDistinct | scripts/fetch_utrecht_parking.py:66-89 | for any builder and locator, one facility per emitted name, no name twice, each name placed |
| Utrecht.EmittedComplete | scripts/fetch_utrecht_parking.py:79-89 | every item whose name is placed has its name among the emitted ones |
| Utrecht.EmittedFirstWins | scripts/fetch_utrecht_parking.py:87-112 | each emitted facility is built from the first item carrying its name |
| CitySpaces.ExtractFromOsm | scripts/fetch_rotterdam_parking.py:49-69 | exactly the national records of the city's province strictly inside the city's box, in their original order |
| CitySpaces.MissingCoordinatesExcluded | scripts/fetch_rotterdam_parking.py:64-65 | a record without a longitude or latitude is read at 0 and so never lies in a city box |
| CitySpaces.CapacityTotal | scripts/fetch_rotterdam_parking.py:98 | a non-empty capacity tag gives its integer value; a missing or empty one gives 1 |
| CitySpaces.ProcessParkingSpace | scripts/fetch_rotterdam_parking.py:72-102 | None exactly when a coordinate is missing or zero; otherwise a record with the space id, type parking_space, the capacity object, the fee rule and the city's municipality and province |
| CitySpaces.SpaceRecord | scripts/fetch_rotterdam_parking.py:117-120 | at most one record per element |
| CitySpaces.SpaceRecordsShape | scripts/fetch_rotterdam_parking.py:87-102 | every processed space has an id, type parking_space and the city's municipality |
| CitySpaces.CombineSources | scripts/fetch_rotterdam_parking.py:105-147 | the areas and spaces are counted before de-duplication; the kept records are the first per id of areas then spaces, ids distinct, none lost, in order; each is a city-box OSM record or a city space; the type tallies add up to the total |
| Rotterdam.CombineSources | scripts/fetch_rotterdam_parking.py:105-147 | with Rotterdam's box and province: the areas and spaces are counted before de-duplication; the kept records are the first per id of areas then spaces, ids distinct, none lost, in order; each is a Zuid-Holland record strictly inside the box or a Rotterdam space; `by_type` counts their types and adds up to the total |
| Elburg.CombineSources | scripts/fetch_elburg_parking.py:104-146 | with Elburg's box and province: the areas and spaces are counted before de-duplication; the kept records are the first per id of areas then spaces, ids distinct, none lost, in order; each is a Gelderland record strictly inside the box or an Elburg space; `by_type` counts their types and adds up to the total |

## Left out

- Network access is not modelled. That covers the Socrata, Overpass, WFS, ArcGIS, CKAN and Stallingsnet requests, paging through live results, retries and rate-limit sleeps. The fetched records are inputs.
- File, JSON and gzip reading and writing are not modelled, nor are directory creation and console output. This includes `load_json_file`, which returns an empty feature list when the file is missing. The records are inputs, and a script's written result is its return value.
- The file-size and compression-ratio figures of the province split are not modelled: they are file I/O plus float percentages.
- Floating point is not modelled: reals are exact. Sums and means of coordinates are exact, and `round()` uses exact half-to-even rounding on reals.
- `haversine` and `calculate_distance` are parameters rather than trigonometric bodies. Only the rules that consume their results are verified.
- `datetime.now()` is the parameter `now` where the model keeps the timestamp. OsmParking.Record and CitySpaces.ProcessParkingSpace have no `now` parameter and drop the `last_updated` field that the scripts write; timestamps from the wall clock are not modelled further.
- `estimate_parking_spaces.py` and `fetch_all.py` are not part of this model. The first is polygon geometry and image processing; the second only orchestrates subprocesses.
- MergeParking.MergeFacilities: the `sources` list holds the canonical source first and then the duplicate's. Python builds the list from a set, whose iteration order is unspecified, so the model fixes one order; the contract states only the members and that none repeats.
- MergeParking.MergeFacilities: a `source` that is a list or a dictionary makes Python raise `TypeError` when it builds the set. The model lists such a value like any other.
- MergeParking.MergeFacilities: when a canonical facility absorbs several duplicates, the script adds keys in place to a capacity dictionary that the input facility shares. The model computes the merged capacity as a fresh value, so the change seen through the input list is not captured.
- MergeParking.FindDuplicates: states that every recorded entry is justified, meaning the pair is within the threshold, the names are related and the winner has the higher score. It does not state that every such pair is recorded; the grid and the scan are modelled, but their completeness is not proved.
- Counter keys: Python treats `1`, `1.0` and `True` as one dictionary key. The model keeps them distinct.
- Reclassify: `reclassify_parking_spaces` and `split_by_province` update feature dictionaries in place. The model returns the updated features as values, so aliasing between the input and output lists is not captured.
- NlSpaces.CreateRegionalGrid: requires non-zero row and column counts. With zero rows or columns the script divides by zero.
- DutchCities.ProcessFeatures: requires the rendered fields to be strings, integers or booleans. `str()` of a float, list or dictionary is not modelled.
- Amsterdam.CollectSpots: requires the rendered fields to be strings, integers or booleans. `str()` of a float, list or dictionary is not modelled.
- Amsterdam: the output geometry is kept as the model's `Geometry` value, not re-encoded as GeoJSON.
- Eindhoven.CombineSources: requires every record to pass `Processable`: the lower-cased fields are text or falsy, and the id renders. Other records raise in Python.
- Eindhoven: the garage records that `fetch_parkeergarages` builds are inputs. The record building of `fetch_parkeergarages` and the paging of `fetch_parkeerplaatsen` are not modelled, and coordinates are read as reals only.
- Utrecht: `fetch_parkeerautomaten`, `fetch_rdw_utrecht_garages` and the statistics of `main` are not modelled. Two distinct garage names can give the same id after lower-casing; the model does not rule that out, nor does the script.
- Rdw: only the specification lookup, the per-area grouping of the time regulations and the record fields listed in the table are modelled. Building `regulation_to_area` and `tijdvak_lookup` (fetch_rdw_parking.py:234-266) is left out, and the grouping takes one area's time-frame records as its input; the other RDW lookups, the statistics counters and the handling of `inf`/`nan` coordinates are left out too.
- SouthHolland: the driver `analyze_all_south_holland_facilities` is not part of this model. It accumulates `total_stats`, sets `facility_lat`/`facility_lon` and writes a summary JSON file; the model covers the per-facility analysis and the feature builders it calls. The Overpass query text is left out too, as a constant of the network request.
- FacilityId: the length clause `|id| == |IdPrefix| + |name|` holds for the model's ASCII lower-casing. Python's `str.lower()` follows Unicode and can change a string's length (`'İ'.lower()` has two characters), so for non-ASCII names the clause is the model's, not Python's.
- Text.Lower and Text.Upper: only ASCII letters change case. Python's `str.lower()`/`str.upper()` also map non-ASCII letters, sometimes to several characters; every keyword match built on them is therefore exact for ASCII text only.
- Text.IsSpace, Text.Strip and Text.Split: whitespace is the ASCII whitespace plus the separators `\x1c`-`\x1f`. Python's `str.strip()` and `str.split()` also treat other Unicode whitespace (U+00A0, U+2028 and more) as whitespace.
- Numbers.ParseInt: only ASCII digits and ASCII whitespace are accepted. Python's `int()` also accepts other Unicode decimal digits and whitespace; the model returns `None` for those strings.
- Numbers.ParseFloat: only plain decimal text is accepted. Python's `float()` also accepts underscores between digits, `inf`, `infinity` and `nan` in any case, and non-ASCII digits; the model returns `None` for those.
- Reclassify.Processable: required of every feature. A Polygon without rings raises `IndexError` and a Point without `vehicle_type` raises `KeyError` in the script; the model does not cover those inputs.
- ProvinceSplit.HasCentroid: required of every feature. A Point whose coordinates are not exactly two numbers raises `ValueError` at the unpacking, and a Polygon with an empty outer ring raises `ZeroDivisionError` (no ring at all: `IndexError`); those inputs are not covered.
- ProvinceSplit.VehicleTyped: required of every bucketed feature. A feature without `vehicle_type` raises `KeyError` in the truck and car counts; that input is not covered.
- NlSpaces.Convertible: required of every element. A way whose referenced node lacks `lat` or `lon` raises `KeyError`; that input is not covered.
- SouthHolland.Extractable: required of every element. A node space without `lat`/`lon`, or a way referencing a node without them, raises `KeyError`; those inputs are not covered.
- Utrecht.Named and Utrecht.Processable: every item's name must be a string, or `" Hoog" in name` and `name.startswith` raise `TypeError`/`AttributeError`; and the first item of each placed name must pass `int()` on a truthy `totalPlaces`/`freePlaces`, or `int()` raises `ValueError`/`TypeError`. Those inputs are not covered.
- CitySpaces.FilterDefined: required of every facility. A non-numeric coordinate that the chained comparison reaches raises `TypeError`; that input is not covered.
- CitySpaces.SpaceDefined: required of every element. A node without `lat`/`lon` raises `KeyError`, and a non-integer `capacity` tag raises `ValueError`; those inputs are not covered.
- MergeParking.Hashable: required of every raw type. A list or dictionary `type` raises `TypeError` at the table lookup; that input is not covered.
- MergeParking.Comparable: required of every facility. A truthy non-numeric coordinate raises `TypeError` in the distance arithmetic, and a truthy non-string name raises `AttributeError` at `.lower()`; those inputs are not covered.
- MergeParking.CapacityAddable: required of every facility. A capacity object whose `total` is not a number raises `TypeError` at the addition; that input is not covered.
- MergeStats.Loadable: required of every loaded facility; it combines Hashable, Comparable and CapacityAddable, and the inputs that raise `TypeError` or `AttributeError` there are not covered.
- MergeStats.CityCountable: required of every facility by GenerateCityStatistics. A list or dictionary municipality or type raises `TypeError`; MergeSources models that case as `None` city statistics.
- MergeFocused.Countable: required of every facility by Statistics. A list or dictionary type or source, or a non-empty list or dictionary province, raises `TypeError` at the counters; that input is not covered. An empty list or dictionary province is falsy, skipped by the script and accepted by the model.
- MergeFocused.FocusedMerge: requires every OSM facility's `province` to be hashable. The set test `f.get("province") in FOCUS_PROVINCES` raises `TypeError` on a list or dictionary; that input is not covered.
- CitySpaces.CombineSources, Rotterdam.CombineSources and Elburg.CombineSources: require every in-city national record to have an `id`. The de-duplication reads `f["id"]` and raises `KeyError` on a record without one; that input is not covered.
- MergeStats.Countable: a `sources` value that is a dictionary is treated as uncountable, so Summarize and MergeSources return `None` for it. Python would count the dictionary's keys; the model's objects carry no key order, so that count is not modelled.
- MergeParking.CanonicalIndices: the canonical facilities are taken in ascending index order. The script iterates a Python set of integers, whose order is not specified by the language, so the order of `merged_facilities` is the model's assumption.
- DutchCities: paging through ArcGIS and WFS results is left out, as network I/O.

## Findings

| source | as written | input that shows it | evidently intended | confidence | as-written member | corrected member |
|---|---|---|---|---|---|---|
| scripts/fetch_amsterdam_parking.py:102 | the conditional binds only to `coords[1]`, so a Point with one coordinate gets that coordinate as its longitude and the tuple `(None, None)`, which is truthy, as its latitude; `main` keeps the spot | a Point geometry with the single non-zero coordinate `[x]` | both coordinates become `None` unless the Point has two, and `main` drops the spot | not executed | Amsterdam.AsWrittenKeepsOneCoordinatePoint | Amsterdam.CorrectedDropsOneCoordinatePoint |
