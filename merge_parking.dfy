/** Merging the OpenStreetMap and RDW facility lists (scripts/merge_parking_data.py): type
    normalisation, the duplicate pair rule over a grid of nearby facilities, the merge of a
    duplicate into its canonical facility, and the summary and per-municipality statistics.
    A facility is the JSON object the two fetch scripts write. */
module MergeParking {
  import opened Wrappers
  import opened Text
  import opened Numbers
  import opened Props
  import opened Seqs
  import Tally

  type Facility = Properties

  /** A value Python can put in a dictionary or set (lists and objects raise `TypeError`). */
  predicate Hashable(v: Value) {
    !v.VList? && !v.VObj?
  }

  // ---- normalize_parking_type ----

  const StandardTypes: set<string> := {
    "garage", "surface", "street_paid", "street_free", "p_and_r", "disabled", "ev_charging",
    "loading_zone", "permit", "parking_space"}

  const TypeMapping: map<string, string> := map[
    "garage" := "garage", "multi-storey" := "garage", "underground" := "garage",
    "surface" := "surface", "surface_lot" := "surface",
    "street_paid" := "street_paid", "street_free" := "street_free", "street_side" := "street_paid",
    "lane" := "street_paid", "p_and_r" := "p_and_r", "park_and_ride" := "p_and_r",
    "disabled" := "disabled", "ev_charging" := "ev_charging", "loading_zone" := "loading_zone",
    "permit" := "permit", "parking_space" := "parking_space"]

  /** `facility.get("type", "")` */
  function RawType(f: Facility): Value {
    GetOr(f, "type", VStr(""))
  }

  /** The table maps onto the standard types and fixes each of them. */
  lemma TypeMappingFixesStandard()
    ensures forall s :: s in TypeMapping ==> TypeMapping[s] in StandardTypes
    ensures forall s :: s in StandardTypes ==> s in TypeMapping && TypeMapping[s] == s
  {
  }

  /** `normalize_parking_type(facility)`: the table entry of a listed type, "other" for
      anything else. */
  function NormalizeParkingType(f: Facility): (t: string)
    requires Hashable(RawType(f))
    ensures t in StandardTypes || t == "other"
    ensures RawType(f).VStr? && RawType(f).s in StandardTypes ==> t == RawType(f).s
    ensures t != "other" <==> RawType(f).VStr? && RawType(f).s in TypeMapping
  {
    TypeMappingFixesStandard();
    match RawType(f)
    case VStr(s) => if s in TypeMapping then TypeMapping[s] else "other"
    case _ => "other"
  }

  /** `f["type"] = normalize_parking_type(f)` */
  function Normalized(f: Facility): (g: Facility)
    requires Hashable(RawType(f))
    ensures g.Keys == f.Keys + {"type"}
    ensures forall k :: k in f && k != "type" ==> g[k] == f[k]
  {
    f["type" := VStr(NormalizeParkingType(f))]
  }

  /** Normalising twice changes nothing. */
  lemma NormalizeIdempotent(f: Facility)
    requires Hashable(RawType(f))
    ensures NormalizeParkingType(Normalized(f)) == NormalizeParkingType(f)
    ensures Normalized(Normalized(f)) == Normalized(f)
  {
    TypeMappingFixesStandard();
  }

  lemma NormalizeExamples()
    ensures NormalizeParkingType(map["type" := VStr("multi-storey")]) == "garage"
    ensures NormalizeParkingType(map["type" := VStr("street_side")]) == "street_paid"
    ensures NormalizeParkingType(map["type" := VStr("bicycle")]) == "other"
    ensures NormalizeParkingType(map[]) == "other"
  {
  }

  // ---- merge_facilities ----

  /** The text fields a duplicate may fill in. */
  const FillKeys: seq<string> := ["name", "operator", "opening_hours", "address", "municipality"]

  /** `for key in keys: if not merged.get(key) and duplicate.get(key): merged[key] = duplicate[key]` */
  function FillFields(merged: Facility, duplicate: Facility, keys: seq<string>): (r: Facility)
    ensures forall k :: k !in keys ==> (k in r <==> k in merged) && (k in merged ==> r[k] == merged[k])
    ensures forall k :: k in keys ==>
      if !Truthy(Get(merged, k)) && Truthy(Get(duplicate, k)) then k in r && r[k] == duplicate[k]
      else (k in r <==> k in merged) && (k in merged ==> r[k] == merged[k])
  {
    if keys == [] then merged
    else
      var p := keys[..|keys| - 1];
      var key := keys[|keys| - 1];
      var m := FillFields(merged, duplicate, p);
      assert forall k :: k in keys <==> k in p || k == key by {
        assert keys == p + [key];
      }
      if !Truthy(Get(m, key)) && Truthy(Get(duplicate, key)) then m[key := duplicate[key]] else m
  }

  /** Capacity: an empty one is replaced by the duplicate's; when both are objects, only the
      duplicate's missing keys are added. */
  function MergeCapacity(merged: Facility, duplicate: Facility): (r: Facility)
    ensures forall k :: k != "capacity" ==> (k in r <==> k in merged) && (k in merged ==> r[k] == merged[k])
    ensures !Truthy(Get(duplicate, "capacity")) ==> r == merged
    ensures Truthy(Get(duplicate, "capacity")) && !Truthy(Get(merged, "capacity")) ==>
      "capacity" in r && r["capacity"] == duplicate["capacity"]
    ensures Truthy(Get(duplicate, "capacity")) && Truthy(Get(merged, "capacity")) ==>
      "capacity" in r &&
      if merged["capacity"].VObj? && duplicate["capacity"].VObj? then
        && r["capacity"].VObj?
        && r["capacity"].fields.Keys == merged["capacity"].fields.Keys + duplicate["capacity"].fields.Keys
        && (forall k :: k in merged["capacity"].fields ==> r["capacity"].fields[k] == merged["capacity"].fields[k])
        && (forall k :: k in duplicate["capacity"].fields && k !in merged["capacity"].fields ==>
              r["capacity"].fields[k] == duplicate["capacity"].fields[k])
      else r["capacity"] == merged["capacity"]
  {
    if !Truthy(Get(duplicate, "capacity")) then merged
    else if !Truthy(Get(merged, "capacity")) then merged["capacity" := duplicate["capacity"]]
    else
      match (merged["capacity"], duplicate["capacity"])
      case (VObj(mc), VObj(dc)) => merged["capacity" := VObj(dc + mc)]
      case _ => merged
  }

  /** Real-time data is taken from the duplicate when only it has some. */
  function MergeRealtime(merged: Facility, duplicate: Facility): (r: Facility)
    ensures Truthy(Get(duplicate, "has_realtime")) && !Truthy(Get(merged, "has_realtime")) ==>
      && r.Keys == merged.Keys + {"has_realtime", "available", "realtime_updated"}
      && r["has_realtime"] == VBool(true)
      && r["available"] == Get(duplicate, "available")
      && r["realtime_updated"] == Get(duplicate, "realtime_updated")
    ensures !(Truthy(Get(duplicate, "has_realtime")) && !Truthy(Get(merged, "has_realtime"))) ==> r == merged
    ensures forall k :: k in merged && k !in {"has_realtime", "available", "realtime_updated"} ==> k in r && r[k] == merged[k]
  {
    if Truthy(Get(duplicate, "has_realtime")) && !Truthy(Get(merged, "has_realtime")) then
      merged["has_realtime" := VBool(true)]["available" := Get(duplicate, "available")]
            ["realtime_updated" := Get(duplicate, "realtime_updated")]
    else merged
  }

  /** `merged.get("source", "")` */
  function SourceOf(f: Facility): Value {
    GetOr(f, "source", VStr(""))
  }

  /** `list({a, b} - {""})`, listing `a` first; the order of a Python set is not modelled. */
  function SourceList(a: Value, b: Value): (l: seq<Value>)
    ensures VStr("") !in l
    ensures |l| <= 2
    ensures forall i, j :: 0 <= i < j < |l| ==> l[i] != l[j]
    ensures forall v :: v in l <==> (v == a || v == b) && v != VStr("")
  {
    (if a != VStr("") then [a] else []) + (if b != VStr("") && b != a then [b] else [])
  }

  /** A truthy canonical capacity survives: an object keeps every key with its value,
      anything else is kept as it is. */
  predicate CapacityKept(before: Value, after: Value) {
    if before.VObj? then
      after.VObj? && before.fields.Keys <= after.fields.Keys &&
      forall k :: k in before.fields ==> after.fields[k] == before.fields[k]
    else after == before
  }

  /** The keys only the capacity, real-time and sources steps write. */
  const MergeWritten: set<string> := {"capacity", "has_realtime", "available", "realtime_updated", "sources"}

  /** None of the fill, capacity and real-time steps writes `source`. */
  lemma SourceUntouched(canonical: Facility, duplicate: Facility)
    ensures SourceOf(MergeRealtime(MergeCapacity(FillFields(canonical, duplicate, FillKeys), duplicate), duplicate)) == SourceOf(canonical)
  {
    var m1 := FillFields(canonical, duplicate, FillKeys);
    assert "source" !in FillKeys;
    assert GetOr(m1, "source", VStr("")) == SourceOf(canonical);
    var m2 := MergeCapacity(m1, duplicate);
    assert GetOr(m2, "source", VStr("")) == SourceOf(canonical);
  }

  /** `merge_facilities(canonical, duplicate)` */
  function MergeFacilities(canonical: Facility, duplicate: Facility): (merged: Facility)
    ensures "sources" in merged && merged["sources"] == VList(SourceList(SourceOf(canonical), SourceOf(duplicate)))
    ensures SourceOf(merged) == SourceOf(canonical)
  {
    SourceUntouched(canonical, duplicate);
    var m3 := MergeRealtime(MergeCapacity(FillFields(canonical, duplicate, FillKeys), duplicate), duplicate);
    m3["sources" := VList(SourceList(SourceOf(m3), SourceOf(duplicate)))]
  }

  /** The steps after the fill leave the fill keys and every other unwritten key alone. */
  lemma MergeAfterFill(canonical: Facility, duplicate: Facility, k: string)
    requires k !in MergeWritten
    ensures var m1 := FillFields(canonical, duplicate, FillKeys);
      (k in MergeFacilities(canonical, duplicate) <==> k in m1) &&
      (k in m1 ==> MergeFacilities(canonical, duplicate)[k] == m1[k])
  {
  }

  /** A truthy canonical text field is kept; an empty one takes the duplicate's truthy value. */
  lemma MergeFillRule(canonical: Facility, duplicate: Facility, k: string)
    requires k in FillKeys
    ensures Truthy(Get(canonical, k)) ==> k in MergeFacilities(canonical, duplicate) && MergeFacilities(canonical, duplicate)[k] == canonical[k]
    ensures !Truthy(Get(canonical, k)) && Truthy(Get(duplicate, k)) ==>
      k in MergeFacilities(canonical, duplicate) && MergeFacilities(canonical, duplicate)[k] == duplicate[k]
  {
    MergeAfterFill(canonical, duplicate, k);
  }

  /** Keys no step writes keep their canonical value. */
  lemma MergeUntouched(canonical: Facility, duplicate: Facility, k: string)
    requires k in canonical && k !in FillKeys && k !in MergeWritten
    ensures k in MergeFacilities(canonical, duplicate) && MergeFacilities(canonical, duplicate)[k] == canonical[k]
  {
    MergeAfterFill(canonical, duplicate, k);
  }

  /** An empty capacity takes the duplicate's; a truthy one is never overwritten, keys included. */
  lemma MergeCapacityRule(canonical: Facility, duplicate: Facility)
    ensures !Truthy(Get(canonical, "capacity")) && Truthy(Get(duplicate, "capacity")) ==>
      "capacity" in MergeFacilities(canonical, duplicate) && MergeFacilities(canonical, duplicate)["capacity"] == duplicate["capacity"]
    ensures Truthy(Get(canonical, "capacity")) ==>
      "capacity" in MergeFacilities(canonical, duplicate) &&
      CapacityKept(canonical["capacity"], MergeFacilities(canonical, duplicate)["capacity"])
  {
    var m1 := FillFields(canonical, duplicate, FillKeys);
    assert Get(m1, "capacity") == Get(canonical, "capacity");
  }

  /** Real-time data comes from the duplicate exactly when only the duplicate has it. */
  lemma MergeRealtimeRule(canonical: Facility, duplicate: Facility)
    ensures var merged := MergeFacilities(canonical, duplicate);
      if Truthy(Get(duplicate, "has_realtime")) && !Truthy(Get(canonical, "has_realtime")) then
        && Get(merged, "has_realtime") == VBool(true)
        && "available" in merged && merged["available"] == Get(duplicate, "available")
        && "realtime_updated" in merged && merged["realtime_updated"] == Get(duplicate, "realtime_updated")
      else Get(merged, "has_realtime") == Get(canonical, "has_realtime")
  {
    var m1 := FillFields(canonical, duplicate, FillKeys);
    assert Get(m1, "has_realtime") == Get(canonical, "has_realtime");
    var m2 := MergeCapacity(m1, duplicate);
    assert Get(m2, "has_realtime") == Get(canonical, "has_realtime");
  }

  // ---- find_duplicates ----

  /** What `find_duplicates` reads of a facility without raising: numeric coordinates when
      truthy, and a string name when truthy (it is lower-cased). */
  predicate Comparable(f: Facility) {
    && (Truthy(Get(f, "latitude")) ==> IsNumber(Get(f, "latitude")))
    && (Truthy(Get(f, "longitude")) ==> IsNumber(Get(f, "longitude")))
    && (Truthy(Get(f, "name")) ==> Get(f, "name").VStr?)
  }

  predicate AllComparable(fs: seq<Facility>) {
    forall i :: 0 <= i < |fs| ==> Comparable(fs[i])
  }

  /** `if lat and lon` */
  predicate Located(f: Facility) {
    Truthy(Get(f, "latitude")) && Truthy(Get(f, "longitude"))
  }

  function Lat(f: Facility): real
    requires Comparable(f) && Located(f)
  {
    NumberValue(Get(f, "latitude"))
  }

  function Lon(f: Facility): real
    requires Comparable(f) && Located(f)
  {
    NumberValue(Get(f, "longitude"))
  }

  /** `cell_size`, about 100 m. */
  const CellSize: real := 0.001

  type Cell = (int, int)

  /** `(round(lat / cell_size), round(lon / cell_size))`, on exact reals. */
  function CellOf(f: Facility): Cell
    requires Comparable(f) && Located(f)
  {
    (RoundHalfEven(Lat(f) / CellSize), RoundHalfEven(Lon(f) / CellSize))
  }

  /** `grid`: cells in first-seen order, each with its facility indices in order. */
  type Grid = seq<(Cell, seq<int>)>

  /** `grid[cell].append(i)` on the defaultdict. */
  function GridAdd(g: Grid, cell: Cell, i: int): Grid {
    if g == [] then [(cell, [i])]
    else if g[0].0 == cell then [(cell, g[0].1 + [i])] + g[1..]
    else [g[0]] + GridAdd(g[1..], cell, i)
  }

  /** The grid after the first loop has seen `fs`. */
  function GridOf(fs: seq<Facility>): Grid
    requires AllComparable(fs)
  {
    if fs == [] then []
    else
      var g := GridOf(fs[..|fs| - 1]);
      var f := fs[|fs| - 1];
      if Located(f) then GridAdd(g, CellOf(f), |fs| - 1) else g
  }

  method BuildGrid(fs: seq<Facility>) returns (grid: Grid)
    requires AllComparable(fs)
    ensures grid == GridOf(fs)
  {
    grid := [];
    var i := 0;
    while i < |fs|
      invariant 0 <= i <= |fs|
      invariant grid == GridOf(fs[..i])
    {
      assert fs[..i + 1][..i] == fs[..i];
      var f := fs[i];
      if Located(f) {
        grid := GridAdd(grid, CellOf(f), i);
      }
      i := i + 1;
    }
    assert fs[..|fs|] == fs;
  }

  /** Cells at most one step apart in both directions: `cell + (dx, dy)` for dx, dy in -1..1. */
  predicate Adjacent(a: Cell, b: Cell) {
    -1 <= a.0 - b.0 <= 1 && -1 <= a.1 - b.1 <= 1
  }

  /** `nearby_indices`: every index filed under `cell` or one of its eight neighbours. */
  function NearbyOf(g: Grid, cell: Cell): set<int> {
    if g == [] then {}
    else (if Adjacent(g[0].0, cell) then set j | j in g[0].1 else {}) + NearbyOf(g[1..], cell)
  }

  lemma {:induction false} NearbyGridAdd(g: Grid, c: Cell, i: int, cell: Cell)
    ensures NearbyOf(GridAdd(g, c, i), cell) == NearbyOf(g, cell) + (if Adjacent(c, cell) then {i} else {})
  {
    if g != [] && g[0].0 != c {
      NearbyGridAdd(g[1..], c, i, cell);
      assert GridAdd(g, c, i)[1..] == GridAdd(g[1..], c, i);
    } else if g != [] {
      assert GridAdd(g, c, i)[1..] == g[1..];
      assert (set j | j in g[0].1 + [i]) == (set j | j in g[0].1) + {i};
    }
  }

  /** The nearby set of a cell is exactly the located facilities in it or a neighbouring cell. */
  lemma {:induction false} NearbyMembers(fs: seq<Facility>, cell: Cell, j: int)
    requires AllComparable(fs)
    ensures j in NearbyOf(GridOf(fs), cell) <==> 0 <= j < |fs| && Located(fs[j]) && Adjacent(CellOf(fs[j]), cell)
  {
    if fs != [] {
      var p := fs[..|fs| - 1];
      var f := fs[|fs| - 1];
      NearbyMembers(p, cell, j);
      if Located(f) {
        NearbyGridAdd(GridOf(p), CellOf(f), |fs| - 1, cell);
      }
      if 0 <= j < |p| {
        assert p[j] == fs[j];
      }
    }
  }

  /** `sorted(s)` for a set of indices below `n`. */
  function Ascending(s: set<int>, n: nat): (r: seq<int>)
    ensures forall i :: 0 <= i < |r| ==> 0 <= r[i] < n && r[i] in s
    ensures forall i, j :: 0 <= i < j < |r| ==> r[i] < r[j]
    ensures forall x :: x in s && 0 <= x < n ==> x in r
  {
    if n == 0 then [] else Ascending(s, n - 1) + (if n - 1 in s then [n - 1] else [])
  }

  /** `(f.get("name") or "").lower()` */
  function NameKey(f: Facility): string
    requires Comparable(f)
  {
    if Truthy(Get(f, "name")) then Lower(Get(f, "name").s) else ""
  }

  /** `not name1 or not name2 or name1 in name2 or name2 in name1 or name1 == name2` */
  predicate NamesRelated(name1: string, name2: string) {
    name1 == [] || name2 == [] || Contains(name2, name1) || Contains(name1, name2) || name1 == name2
  }

  /** `haversine(lon1, lat1, lon2, lat2)` in metres. */
  type Distance = (real, real, real, real) -> real

  /** A pair the scan records: both located, closer than the threshold, names related. */
  predicate PairRule(f1: Facility, f2: Facility, haversine: Distance, threshold: real)
    requires Comparable(f1) && Comparable(f2)
  {
    && Located(f1) && Located(f2)
    && haversine(Lon(f1), Lat(f1), Lon(f2), Lat(f2)) < threshold
    && NamesRelated(NameKey(f1), NameKey(f2))
  }

  function Indicator(b: bool): nat {
    if b then 1 else 0
  }

  /** One point each for a name, a capacity, real-time data and the RDW source. */
  function Score(f: Facility): (n: nat)
    ensures n <= 4
  {
    Indicator(Truthy(Get(f, "name"))) + Indicator(Truthy(Get(f, "capacity"))) +
    Indicator(Truthy(Get(f, "has_realtime"))) + Indicator(Get(f, "source") == VStr("rdw"))
  }

  /** `duplicates[k] = c` is justified: both are facilities of the list, distinct, the pair
      (lower index first) passes the pair rule, and `c` wins on score, ties going to the
      lower index. */
  predicate ValidDuplicate(fs: seq<Facility>, haversine: Distance, threshold: real, k: int, c: int)
    requires AllComparable(fs)
  {
    && 0 <= k < |fs| && 0 <= c < |fs| && k != c
    && if c < k then PairRule(fs[c], fs[k], haversine, threshold) && Score(fs[c]) >= Score(fs[k])
       else PairRule(fs[k], fs[c], haversine, threshold) && Score(fs[c]) > Score(fs[k])
  }

  /** Every entry of the duplicates dictionary is justified. */
  predicate ValidDuplicates(fs: seq<Facility>, haversine: Distance, threshold: real, dups: Tally.Counter<int>)
    requires AllComparable(fs)
  {
    Tally.DistinctKeys(dups) &&
    forall i :: 0 <= i < |dups| ==> ValidDuplicate(fs, haversine, threshold, dups[i].0, dups[i].1)
  }

  lemma RecordDuplicate(fs: seq<Facility>, haversine: Distance, threshold: real, dups: Tally.Counter<int>, k: int, c: int)
    requires AllComparable(fs)
    requires ValidDuplicates(fs, haversine, threshold, dups) && ValidDuplicate(fs, haversine, threshold, k, c)
    ensures ValidDuplicates(fs, haversine, threshold, Tally.Put(dups, k, c))
    ensures forall j :: j in Tally.Keys(dups) ==> j in Tally.Keys(Tally.Put(dups, k, c))
  {
    Tally.PutEntries(dups, k, c);
    var r := Tally.Put(dups, k, c);
    forall i | 0 <= i < |r| ensures ValidDuplicate(fs, haversine, threshold, r[i].0, r[i].1) {
      if r[i] != (k, c) {
        var e := r[i];
        assert e in dups;
        var m :| 0 <= m < |dups| && dups[m] == e;
      }
    }
  }

  /** The double loop over one cell's sorted `nearby_list`. */
  method ScanNearby(fs: seq<Facility>, haversine: Distance, threshold: real, nearbyList: seq<int>, start: Tally.Counter<int>)
    returns (duplicates: Tally.Counter<int>)
    requires AllComparable(fs)
    requires forall i :: 0 <= i < |nearbyList| ==> 0 <= nearbyList[i] < |fs|
    requires forall i, j :: 0 <= i < j < |nearbyList| ==> nearbyList[i] < nearbyList[j]
    requires ValidDuplicates(fs, haversine, threshold, start)
    ensures ValidDuplicates(fs, haversine, threshold, duplicates)
    ensures forall k :: k in Tally.Keys(start) ==> k in Tally.Keys(duplicates)
  {
    duplicates := start;
    var i := 0;
    while i < |nearbyList|
      invariant 0 <= i <= |nearbyList|
      invariant ValidDuplicates(fs, haversine, threshold, duplicates)
      invariant forall k :: k in Tally.Keys(start) ==> k in Tally.Keys(duplicates)
    {
      var idx1 := nearbyList[i];
      if idx1 !in Tally.Keys(duplicates) {
        var f1 := fs[idx1];
        var j := i + 1;
        while j < |nearbyList|
          invariant i + 1 <= j <= |nearbyList|
          invariant ValidDuplicates(fs, haversine, threshold, duplicates)
          invariant forall k :: k in Tally.Keys(start) ==> k in Tally.Keys(duplicates)
        {
          var idx2 := nearbyList[j];
          if idx2 !in Tally.Keys(duplicates) {
            var f2 := fs[idx2];
            if Located(f1) && Located(f2) {
              var dist := haversine(Lon(f1), Lat(f1), Lon(f2), Lat(f2));
              if dist < threshold && NamesRelated(NameKey(f1), NameKey(f2)) {
                if Score(f1) >= Score(f2) {
                  RecordDuplicate(fs, haversine, threshold, duplicates, idx2, idx1);
                  duplicates := Tally.Put(duplicates, idx2, idx1);
                } else {
                  RecordDuplicate(fs, haversine, threshold, duplicates, idx1, idx2);
                  duplicates := Tally.Put(duplicates, idx1, idx2);
                }
              }
            }
          }
          j := j + 1;
        }
      }
      i := i + 1;
    }
  }

  /** `find_duplicates(facilities, distance_threshold)` */
  method FindDuplicates(fs: seq<Facility>, haversine: Distance, threshold: real) returns (duplicates: Tally.Counter<int>)
    requires AllComparable(fs)
    ensures ValidDuplicates(fs, haversine, threshold, duplicates)
  {
    var grid := BuildGrid(fs);
    duplicates := [];
    var ci := 0;
    while ci < |grid|
      invariant 0 <= ci <= |grid|
      invariant ValidDuplicates(fs, haversine, threshold, duplicates)
    {
      var cell := grid[ci].0;
      var nearbyList := Ascending(NearbyOf(grid, cell), |fs|);
      duplicates := ScanNearby(fs, haversine, threshold, nearbyList, duplicates);
      ci := ci + 1;
    }
  }

  /** Sorting the nearby set loses nothing: the list holds exactly the located facilities in the
      cell or next to it. */
  lemma NearbyListMembers(fs: seq<Facility>, cell: Cell, j: int)
    requires AllComparable(fs)
    ensures j in Ascending(NearbyOf(GridOf(fs), cell), |fs|) <==>
      0 <= j < |fs| && Located(fs[j]) && Adjacent(CellOf(fs[j]), cell)
  {
    NearbyMembers(fs, cell, j);
  }

  // ---- the canonical-index merge in main ----

  /** `sorted(set(range(n)) - set(keys))`, the canonical indices. */
  function CanonicalIndices(n: nat, keys: seq<int>): (r: seq<int>)
    ensures forall i :: 0 <= i < |r| ==> 0 <= r[i] < n && r[i] !in keys
  {
    if n == 0 then [] else CanonicalIndices(n - 1, keys) + (if n - 1 !in keys then [n - 1] else [])
  }

  /** `[i for i, c in duplicates.items() if c == idx]` */
  function DupsOf(dups: Tally.Counter<int>, idx: int): (r: seq<int>)
    ensures forall i :: 0 <= i < |r| ==> r[i] in Tally.Keys(dups)
  {
    if dups == [] then []
    else (if dups[0].1 == idx then [dups[0].0] else []) + DupsOf(dups[1..], idx)
  }

  /** A pairwise merge: `merge_facilities` in `main`, a parameter here so the index
      bookkeeping below is stated for any merge. */
  type Merge = (Facility, Facility) -> Facility

  /** `for dup_idx in dup_indices: facility = merge_facilities(facility, all_facilities[dup_idx])` */
  function MergeAll(merge: Merge, f: Facility, all: seq<Facility>, ds: seq<int>): (r: Facility)
    requires forall i :: 0 <= i < |ds| ==> 0 <= ds[i] < |all|
  {
    if ds == [] then f
    else merge(MergeAll(merge, f, all, ds[..|ds| - 1]), all[ds[|ds| - 1]])
  }

  lemma MergeAllSnoc(merge: Merge, f: Facility, all: seq<Facility>, ds: seq<int>, d: int)
    requires forall i :: 0 <= i < |ds| ==> 0 <= ds[i] < |all|
    requires 0 <= d < |all|
    ensures forall i :: 0 <= i < |ds + [d]| ==> 0 <= (ds + [d])[i] < |all|
    ensures MergeAll(merge, f, all, ds + [d]) == merge(MergeAll(merge, f, all, ds), all[d])
  {
    assert (ds + [d])[..|ds|] == ds;
  }

  predicate KeysInRange(dups: Tally.Counter<int>, n: nat) {
    forall i :: 0 <= i < |dups| ==> 0 <= dups[i].0 < n
  }

  /** `merged_facilities` for the canonical indices `idxs`. */
  function MergedFrom(merge: Merge, all: seq<Facility>, dups: Tally.Counter<int>, idxs: seq<int>): (r: seq<Facility>)
    requires KeysInRange(dups, |all|)
    requires forall i :: 0 <= i < |idxs| ==> 0 <= idxs[i] < |all|
    ensures |r| == |idxs|
  {
    if idxs == [] then []
    else
      var idx := idxs[|idxs| - 1];
      MergedFrom(merge, all, dups, idxs[..|idxs| - 1]) + [MergeAll(merge, all[idx], all, DupsOf(dups, idx))]
  }

  lemma MergedFromSnoc(merge: Merge, all: seq<Facility>, dups: Tally.Counter<int>, idxs: seq<int>, idx: int)
    requires KeysInRange(dups, |all|)
    requires forall i :: 0 <= i < |idxs| ==> 0 <= idxs[i] < |all|
    requires 0 <= idx < |all|
    ensures forall i :: 0 <= i < |idxs + [idx]| ==> 0 <= (idxs + [idx])[i] < |all|
    ensures forall i :: 0 <= i < |DupsOf(dups, idx)| ==> 0 <= DupsOf(dups, idx)[i] < |all|
    ensures MergedFrom(merge, all, dups, idxs + [idx]) == MergedFrom(merge, all, dups, idxs) + [MergeAll(merge, all[idx], all, DupsOf(dups, idx))]
  {
    assert (idxs + [idx])[..|idxs|] == idxs;
    DupsInRange(dups, |all|, idx);
  }

  lemma DupsInRange(dups: Tally.Counter<int>, n: nat, idx: int)
    requires KeysInRange(dups, n)
    ensures forall i :: 0 <= i < |DupsOf(dups, idx)| ==> 0 <= DupsOf(dups, idx)[i] < n
  {
    forall i | 0 <= i < |DupsOf(dups, idx)| ensures 0 <= DupsOf(dups, idx)[i] < n {
      var k :| 0 <= k < |dups| && Tally.Keys(dups)[k] == DupsOf(dups, idx)[i];
    }
  }

  function Merged(merge: Merge, all: seq<Facility>, dups: Tally.Counter<int>): seq<Facility>
    requires KeysInRange(dups, |all|)
  {
    MergedFrom(merge, all, dups, CanonicalIndices(|all|, Tally.Keys(dups)))
  }

  /** With distinct keys all below `n`, the canonical indices are the other `n - |keys|`. */
  lemma {:induction false} CanonicalCount(n: nat, keys: seq<int>)
    requires forall i, j :: 0 <= i < j < |keys| ==> keys[i] != keys[j]
    requires forall x :: x in keys ==> 0 <= x < n
    ensures |CanonicalIndices(n, keys)| == n - |keys|
    decreases n, 1
  {
    assert keys != [] ==> keys[0] in keys;
    if n == 0 {
      assert |keys| == 0 && CanonicalIndices(n, keys) == [];
    } else {
      if n - 1 in keys {
        CanonicalCountDrop(n, keys);
      } else {
        assert forall x :: x in keys ==> 0 <= x < n - 1;
        CanonicalCount(n - 1, keys);
        assert CanonicalIndices(n, keys) == CanonicalIndices(n - 1, keys) + [n - 1];
        assert |CanonicalIndices(n, keys)| == |CanonicalIndices(n - 1, keys)| + 1;
      }
    }
  }

  /** The step where the top index `n - 1` is a key. */
  lemma {:induction false} CanonicalCountDrop(n: nat, keys: seq<int>)
    requires n > 0 && n - 1 in keys
    requires forall i, j :: 0 <= i < j < |keys| ==> keys[i] != keys[j]
    requires forall x :: x in keys ==> 0 <= x < n
    ensures |CanonicalIndices(n, keys)| == n - |keys|
    decreases n, 0
  {
    var m :| 0 <= m < |keys| && keys[m] == n - 1;
    var rest := RemoveDistinct(keys, m);
    SameCanonical(n - 1, keys, rest);
    CanonicalCount(n - 1, rest);
    assert CanonicalIndices(n, keys) == CanonicalIndices(n - 1, keys) + [];
  }

  /** Only membership of the keys matters. */
  lemma {:induction false} SameCanonical(n: nat, keys: seq<int>, other: seq<int>)
    requires forall x :: 0 <= x < n ==> (x in keys <==> x in other)
    ensures CanonicalIndices(n, keys) == CanonicalIndices(n, other)
  {
    if n > 0 {
      SameCanonical(n - 1, keys, other);
    }
  }

  /** The merge outputs one facility per index that is not a duplicate key. */
  lemma MergedSize(merge: Merge, all: seq<Facility>, dups: Tally.Counter<int>)
    requires KeysInRange(dups, |all|) && Tally.DistinctKeys(dups)
    ensures |Merged(merge, all, dups)| == |all| - |dups|
  {
    var keys := Tally.Keys(dups);
    assert forall x :: x in keys ==> 0 <= x < |all| by {
      forall x | x in keys ensures 0 <= x < |all| {
        var i :| 0 <= i < |keys| && keys[i] == x;
        assert dups[i].0 == x;
      }
    }
    CanonicalCount(|all|, keys);
  }

  /** The inner loop merging each duplicate into the canonical facility in turn. */
  method MergeInto(merge: Merge, canonical: Facility, all: seq<Facility>, dupIndices: seq<int>) returns (facility: Facility)
    requires forall i :: 0 <= i < |dupIndices| ==> 0 <= dupIndices[i] < |all|
    ensures facility == MergeAll(merge, canonical, all, dupIndices)
  {
    facility := canonical;
    var d := 0;
    while d < |dupIndices|
      invariant 0 <= d <= |dupIndices|
      invariant facility == MergeAll(merge, canonical, all, dupIndices[..d])
    {
      assert dupIndices[..d + 1] == dupIndices[..d] + [dupIndices[d]];
      MergeAllSnoc(merge, canonical, all, dupIndices[..d], dupIndices[d]);
      facility := merge(facility, all[dupIndices[d]]);
      d := d + 1;
    }
    assert dupIndices[..|dupIndices|] == dupIndices;
  }

  /** The loop `for idx in canonical_indices` with its inner merge loop. */
  method MergeDuplicates(merge: Merge, all: seq<Facility>, dups: Tally.Counter<int>) returns (mergedFacilities: seq<Facility>)
    requires KeysInRange(dups, |all|) && Tally.DistinctKeys(dups)
    ensures mergedFacilities == Merged(merge, all, dups)
    ensures |mergedFacilities| == |all| - |dups|
  {
    var canonicalIndices := CanonicalIndices(|all|, Tally.Keys(dups));
    mergedFacilities := [];
    var k := 0;
    while k < |canonicalIndices|
      invariant 0 <= k <= |canonicalIndices|
      invariant mergedFacilities == MergedFrom(merge, all, dups, canonicalIndices[..k])
    {
      assert canonicalIndices[..k + 1] == canonicalIndices[..k] + [canonicalIndices[k]];
      var idx := canonicalIndices[k];
      MergedFromSnoc(merge, all, dups, canonicalIndices[..k], idx);
      var facility := MergeInto(merge, all[idx], all, DupsOf(dups, idx));
      mergedFacilities := mergedFacilities + [facility];
      k := k + 1;
    }
    assert canonicalIndices[..|canonicalIndices|] == canonicalIndices;
    MergedSize(merge, all, dups);
  }

  // ---- the capacity generate_city_statistics adds up ----

  /** `capacity = f.get("capacity", {})`: an object's `total` (default 0) must be a number for
      `s["total_capacity"] += capacity.get("total", 0)` not to raise. */
  predicate CapacityAddable(f: Facility) {
    var c := GetOr(f, "capacity", VObj(map[]));
    c.VObj? ==> IsNumber(GetOr(c.fields, "total", VInt(0)))
  }

  predicate AllAddable(fs: seq<Facility>) {
    forall i :: 0 <= i < |fs| ==> CapacityAddable(fs[i])
  }

  /** What `total_capacity` gains from a facility: an object's `total`, an integer (`bool`
      included) as it is, and nothing for any other value. */
  function CapacityAmount(f: Facility): real
    requires CapacityAddable(f)
  {
    match GetOr(f, "capacity", VObj(map[]))
    case VObj(fields) => NumberValue(GetOr(fields, "total", VInt(0)))
    case VInt(i) => i as real
    case VBool(b) => if b then 1.0 else 0.0
    case _ => 0.0
  }

  /** Merging keeps a capacity that can be added up: either side's, or the union of two
      objects, whose `total` comes from one of them. */
  lemma MergeKeepsAddable(canonical: Facility, duplicate: Facility)
    requires CapacityAddable(canonical) && CapacityAddable(duplicate)
    ensures CapacityAddable(MergeFacilities(canonical, duplicate))
  {
    var m1 := FillFields(canonical, duplicate, FillKeys);
    assert "capacity" !in FillKeys;
    assert GetOr(m1, "capacity", VObj(map[])) == GetOr(canonical, "capacity", VObj(map[]));
    var m2 := MergeCapacity(m1, duplicate);
    var m3 := MergeRealtime(m2, duplicate);
    assert GetOr(m3, "capacity", VObj(map[])) == GetOr(m2, "capacity", VObj(map[]));
    assert CapacityAddable(m2) by {
      if Truthy(Get(duplicate, "capacity")) && Truthy(Get(m1, "capacity")) &&
         m1["capacity"].VObj? && duplicate["capacity"].VObj? {
        var mc := m1["capacity"].fields;
        var dc := duplicate["capacity"].fields;
        assert "total" in m2["capacity"].fields ==> "total" in mc || "total" in dc;
      }
    }
  }

  lemma {:induction false} MergeAllAddable(f: Facility, all: seq<Facility>, ds: seq<int>)
    requires forall i :: 0 <= i < |ds| ==> 0 <= ds[i] < |all|
    requires CapacityAddable(f) && AllAddable(all)
    ensures CapacityAddable(MergeAll(MergeFacilities, f, all, ds))
  {
    if ds != [] {
      MergeAllAddable(f, all, ds[..|ds| - 1]);
      MergeKeepsAddable(MergeAll(MergeFacilities, f, all, ds[..|ds| - 1]), all[ds[|ds| - 1]]);
    }
  }

  lemma {:induction false} MergedFromAddable(all: seq<Facility>, dups: Tally.Counter<int>, idxs: seq<int>)
    requires KeysInRange(dups, |all|) && AllAddable(all)
    requires forall i :: 0 <= i < |idxs| ==> 0 <= idxs[i] < |all|
    ensures AllAddable(MergedFrom(MergeFacilities, all, dups, idxs))
  {
    if idxs != [] {
      var p := idxs[..|idxs| - 1];
      var idx := idxs[|idxs| - 1];
      MergedFromAddable(all, dups, p);
      DupsInRange(dups, |all|, idx);
      MergeAllAddable(all[idx], all, DupsOf(dups, idx));
    }
  }

  /** Every merged facility's capacity can be added up when every input's can. */
  lemma MergedAddable(all: seq<Facility>, dups: Tally.Counter<int>)
    requires KeysInRange(dups, |all|) && AllAddable(all)
    ensures AllAddable(Merged(MergeFacilities, all, dups))
  {
    MergedFromAddable(all, dups, CanonicalIndices(|all|, Tally.Keys(dups)));
  }
}
