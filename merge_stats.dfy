/** The driver of scripts/merge_parking_data.py: normalising both source lists, finding and
    merging duplicates, the summary statistics and the per-municipality statistics. */
module MergeStats {
  import opened Wrappers
  import opened Props
  import opened Seqs
  import opened MergeParking
  import Tally

  // ---- normalising the two lists ----

  /** The loop `for f in features: f["type"] = normalize_parking_type(f); all_facilities.append(f)`. */
  method NormalizeAll(fs: seq<Facility>) returns (out: seq<Facility>)
    requires forall i :: 0 <= i < |fs| ==> Hashable(RawType(fs[i]))
    ensures |out| == |fs|
    ensures forall i :: 0 <= i < |fs| ==> out[i] == Normalized(fs[i])
  {
    out := [];
    var i := 0;
    while i < |fs|
      invariant 0 <= i <= |fs|
      invariant |out| == i
      invariant forall j :: 0 <= j < i ==> out[j] == Normalized(fs[j])
    {
      out := out + [Normalized(fs[i])];
      i := i + 1;
    }
  }

  /** Normalising writes only `type`, so what the duplicate search reads is unchanged. */
  lemma NormalizedComparable(f: Facility)
    requires Hashable(RawType(f))
    ensures Comparable(Normalized(f)) <==> Comparable(f)
    ensures Located(Normalized(f)) <==> Located(f)
    ensures CapacityAddable(Normalized(f)) <==> CapacityAddable(f)
  {
    var g := Normalized(f);
    assert Get(g, "latitude") == Get(f, "latitude");
    assert Get(g, "longitude") == Get(f, "longitude");
    assert Get(g, "name") == Get(f, "name");
    assert Get(g, "capacity") == Get(f, "capacity");
  }

  // ---- the summary statistics ----

  /** `f.get("type", "other")` */
  function TypeKey(f: Facility): Value {
    GetOr(f, "type", VStr("other"))
  }

  /** `for src in f.get("sources", [f.get("source", "unknown")])`: a list yields its items,
      a string its characters. Other values are never counted (see `Countable`). */
  function SourcesOf(f: Facility): seq<Value> {
    if "sources" !in f then [GetOr(f, "source", VStr("unknown"))]
    else match f["sources"]
      case VList(items) => items
      case VStr(s) => Map(CharText, s)
      case _ => []
  }

  /** The facilities the statistics loop counts without raising `TypeError`: the type is
      hashable, and the sources are a list of hashable values or a string, or, when missing,
      the single `source` is hashable. A dictionary of sources is not modelled and counts as
      failing. */
  predicate Countable(f: Facility) {
    Hashable(TypeKey(f)) &&
    if "sources" !in f then Hashable(GetOr(f, "source", VStr("unknown")))
    else match f["sources"]
      case VList(items) => forall i :: 0 <= i < |items| ==> Hashable(items[i])
      case VStr(_) => true
      case _ => false
  }

  function CharText(c: char): Value {
    VStr([c])
  }

  predicate HasCapacity(f: Facility) {
    Truthy(Get(f, "capacity"))
  }

  predicate HasRealtime(f: Facility) {
    Truthy(Get(f, "has_realtime"))
  }

  predicate HasName(f: Facility) {
    Truthy(Get(f, "name"))
  }

  /** The `stats` dictionary of `main`. */
  datatype Summary = Summary(
    total: nat,
    byType: Tally.Counter<Value>,
    bySource: Tally.Counter<Value>,
    withCapacity: nat,
    withRealtime: nat,
    withName: nat)

  /** What the statistics loop over the merged facilities computes. */
  function SummaryOf(fs: seq<Facility>): Summary {
    Summary(
      |fs|,
      Tally.CountOf(Map(TypeKey, fs)),
      Tally.CountOf(FlatMap(SourcesOf, fs)),
      CountWhere(HasCapacity, fs),
      CountWhere(HasRealtime, fs),
      CountWhere(HasName, fs))
  }

  /** The summary is consistent: every facility has one type and every listed source one count. */
  lemma SummaryConsistent(fs: seq<Facility>)
    ensures Tally.Total(SummaryOf(fs).byType) == SummaryOf(fs).total
    ensures forall t :: Tally.Get(SummaryOf(fs).byType, t) == multiset(Map(TypeKey, fs))[t]
    ensures Tally.Total(SummaryOf(fs).bySource) == |FlatMap(SourcesOf, fs)|
    ensures forall s :: Tally.Get(SummaryOf(fs).bySource, s) == multiset(FlatMap(SourcesOf, fs))[s]
    ensures SummaryOf(fs).withCapacity <= SummaryOf(fs).total
    ensures SummaryOf(fs).withRealtime <= SummaryOf(fs).total
    ensures SummaryOf(fs).withName <= SummaryOf(fs).total
  {
    Tally.TotalCountOf(Map(TypeKey, fs));
    Tally.TotalCountOf(FlatMap(SourcesOf, fs));
    forall t ensures Tally.Get(SummaryOf(fs).byType, t) == multiset(Map(TypeKey, fs))[t] {
      Tally.GetCountOf(Map(TypeKey, fs), t);
    }
    forall s ensures Tally.Get(SummaryOf(fs).bySource, s) == multiset(FlatMap(SourcesOf, fs))[s] {
      Tally.GetCountOf(FlatMap(SourcesOf, fs), s);
    }
  }

  /** The inner loop `for src in sources: stats["by_source"][src] += 1`. */
  method CountSources(c: Tally.Counter<Value>, srcs: seq<Value>, ghost before: seq<Value>) returns (r: Tally.Counter<Value>)
    requires c == Tally.CountOf(before)
    ensures r == Tally.CountOf(before + srcs)
  {
    r := c;
    var j := 0;
    assert before + srcs[..0] == before;
    while j < |srcs|
      invariant 0 <= j <= |srcs|
      invariant r == Tally.CountOf(before + srcs[..j])
    {
      assert before + srcs[..j + 1] == (before + srcs[..j]) + [srcs[j]];
      Tally.CountOfSnoc(before + srcs[..j], srcs[j]);
      r := Tally.Bump(r, srcs[j]);
      j := j + 1;
    }
    assert srcs[..|srcs|] == srcs;
  }

  /** One more facility counted. */
  lemma SummarySnoc(fs: seq<Facility>, f: Facility)
    ensures SummaryOf(fs + [f]).total == SummaryOf(fs).total + 1
    ensures SummaryOf(fs + [f]).byType == Tally.Bump(SummaryOf(fs).byType, TypeKey(f))
    ensures FlatMap(SourcesOf, fs + [f]) == FlatMap(SourcesOf, fs) + SourcesOf(f)
    ensures SummaryOf(fs + [f]).withCapacity == SummaryOf(fs).withCapacity + (if HasCapacity(f) then 1 else 0)
    ensures SummaryOf(fs + [f]).withRealtime == SummaryOf(fs).withRealtime + (if HasRealtime(f) then 1 else 0)
    ensures SummaryOf(fs + [f]).withName == SummaryOf(fs).withName + (if HasName(f) then 1 else 0)
  {
    MapSnoc(TypeKey, fs, f);
    Tally.CountOfSnoc(Map(TypeKey, fs), TypeKey(f));
    FlatMapSnoc(SourcesOf, fs, f);
    CountWhereSnoc(HasCapacity, fs, f);
    CountWhereSnoc(HasRealtime, fs, f);
    CountWhereSnoc(HasName, fs, f);
  }

  /** The body of the statistics loop for facility `i`. */
  method CountFacilityStats(fs: seq<Facility>, i: nat, acc: Summary) returns (acc': Summary)
    requires i < |fs| && acc == SummaryOf(fs[..i])
    ensures acc' == SummaryOf(fs[..i + 1])
  {
    var f := fs[i];
    PrefixSnoc(fs, i);
    SummarySnoc(fs[..i], f);
    var byType := Tally.Bump(acc.byType, TypeKey(f));
    var bySource := CountSources(acc.bySource, SourcesOf(f), FlatMap(SourcesOf, fs[..i]));
    var withCapacity, withRealtime, withName := acc.withCapacity, acc.withRealtime, acc.withName;
    if HasCapacity(f) {
      withCapacity := withCapacity + 1;
    }
    if HasRealtime(f) {
      withRealtime := withRealtime + 1;
    }
    if HasName(f) {
      withName := withName + 1;
    }
    acc' := Summary(acc.total + 1, byType, bySource, withCapacity, withRealtime, withName);
  }

  /** The loop `for f in merged_facilities` filling `stats`; `None` where counting a
      facility's type or sources raises. */
  method Summarize(fs: seq<Facility>) returns (stats: Option<Summary>)
    ensures stats.Some? <==> forall i :: 0 <= i < |fs| ==> Countable(fs[i])
    ensures stats.Some? ==> stats.value == SummaryOf(fs)
  {
    var acc := Summary(0, [], [], 0, 0, 0);
    var i := 0;
    while i < |fs|
      invariant 0 <= i <= |fs|
      invariant forall j :: 0 <= j < i ==> Countable(fs[j])
      invariant acc == SummaryOf(fs[..i])
    {
      if !Countable(fs[i]) {
        return None;
      }
      assert forall j :: 0 <= j < i + 1 ==> Countable(fs[j]);
      acc := CountFacilityStats(fs, i, acc);
      i := i + 1;
    }
    assert fs[..|fs|] == fs;
    stats := Some(acc);
  }

  // ---- generate_city_statistics ----

  /** One municipality's entry: `total_facilities`, `total_capacity`, `by_type`, `with_realtime`. */
  datatype CityEntry = CityEntry(
    totalFacilities: nat,
    totalCapacity: real,
    byType: Tally.Counter<Value>,
    withRealtime: nat)

  /** The municipality dictionary, in the order municipalities are first seen. */
  type CityStats = seq<(Value, CityEntry)>

  /** The `defaultdict` factory's fresh entry. */
  const EmptyCity: CityEntry := CityEntry(0, 0.0, [], 0)

  /** `f.get("municipality", "Unknown")` */
  function Municipality(f: Facility): Value {
    GetOr(f, "municipality", VStr("Unknown"))
  }

  /** `s["total_facilities"] += 1`, the capacity added, `s["by_type"][ptype] += 1` and the
      real-time count, for one facility. */
  function CityStep(e: CityEntry, f: Facility): (r: CityEntry)
    requires CapacityAddable(f)
  {
    CityEntry(
      e.totalFacilities + 1,
      e.totalCapacity + CapacityAmount(f),
      Tally.Bump(e.byType, TypeKey(f)),
      e.withRealtime + (if HasRealtime(f) then 1 else 0))
  }

  /** The statistics after the loop has seen `fs`. */
  function CityStatsOf(fs: seq<Facility>): CityStats
    requires AllAddable(fs)
  {
    if fs == [] then []
    else
      var st := CityStatsOf(fs[..|fs| - 1]);
      var f := fs[|fs| - 1];
      var k := Municipality(f);
      Tally.Put(st, k, CityStep(Tally.Lookup(st, k, EmptyCity), f))
  }

  lemma CityStatsSnoc(fs: seq<Facility>, i: nat)
    requires i < |fs| && AllAddable(fs)
    ensures AllAddable(fs[..i]) && AllAddable(fs[..i + 1])
    ensures var k := Municipality(fs[i]);
      CityStatsOf(fs[..i + 1]) == Tally.Put(CityStatsOf(fs[..i]), k, CityStep(Tally.Lookup(CityStatsOf(fs[..i]), k, EmptyCity), fs[i]))
  {
    assert fs[..i + 1][..i] == fs[..i];
  }

  /** The body of the loop: the municipality's entry updated field by field. */
  method CountFacility(s0: CityEntry, f: Facility) returns (s: CityEntry)
    requires CapacityAddable(f)
    ensures s == CityStep(s0, f)
  {
    s := s0.(totalFacilities := s0.totalFacilities + 1);
    s := s.(totalCapacity := s.totalCapacity + CapacityAmount(f));
    s := s.(byType := Tally.Bump(s.byType, TypeKey(f)));
    if HasRealtime(f) {
      s := s.(withRealtime := s.withRealtime + 1);
    }
  }

  /** `stats[municipality]` and `s["by_type"][ptype]` hash the municipality and the type: a
      list or dictionary there raises `TypeError`. */
  predicate CityCountable(f: Facility) {
    Hashable(Municipality(f)) && Hashable(TypeKey(f))
  }

  /** The loop `for f in facilities: s = stats[municipality]; ...`. */
  method GenerateCityStatistics(fs: seq<Facility>) returns (stats: CityStats)
    requires AllAddable(fs)
    requires forall i :: 0 <= i < |fs| ==> CityCountable(fs[i])
    ensures stats == CityStatsOf(fs)
  {
    stats := [];
    var i := 0;
    while i < |fs|
      invariant 0 <= i <= |fs|
      invariant stats == CityStatsOf(fs[..i])
    {
      var f := fs[i];
      CityStatsSnoc(fs, i);
      var k := Municipality(f);
      var s := Tally.Lookup(stats, k, EmptyCity);
      s := CountFacility(s, f);
      stats := Tally.Put(stats, k, s);
      i := i + 1;
    }
    assert fs[..|fs|] == fs;
  }

  /** An entry's type counts add up to its facilities, and no more of them have real-time data. */
  predicate EntryConsistent(e: CityEntry) {
    Tally.Total(e.byType) == e.totalFacilities && e.withRealtime <= e.totalFacilities
  }

  /** What the statistics say about the municipalities `ms` counted so far. */
  ghost predicate CityFacts(st: CityStats, ms: seq<Value>) {
    && Tally.DistinctKeys(st)
    && (forall k :: k in Tally.Keys(st) <==> k in ms)
    && (forall i :: 0 <= i < |st| ==> EntryConsistent(st[i].1))
    && (forall k :: Tally.Lookup(st, k, EmptyCity).totalFacilities == multiset(ms)[k])
  }

  /** One more facility keeps the facts, with its municipality counted. */
  lemma CityFactsStep(st: CityStats, ms: seq<Value>, f: Facility)
    requires CapacityAddable(f) && CityFacts(st, ms)
    ensures var k := Municipality(f);
      CityFacts(Tally.Put(st, k, CityStep(Tally.Lookup(st, k, EmptyCity), f)), ms + [k])
  {
    var k := Municipality(f);
    var old_ := Tally.Lookup(st, k, EmptyCity);
    var e := CityStep(old_, f);
    var st' := Tally.Put(st, k, e);
    Tally.PutEntries(st, k, e);
    assert forall j :: j in Tally.Keys(st') <==> j in ms + [k];
    assert EntryConsistent(e) by {
      Tally.LookupFound(st, k, EmptyCity);
      Tally.TotalAdd(old_.byType, TypeKey(f), 1);
    }
    assert forall i :: 0 <= i < |st'| ==> EntryConsistent(st'[i].1);
    forall j ensures Tally.Lookup(st', j, EmptyCity).totalFacilities == multiset(ms + [k])[j] {
      Tally.LookupPut(st, k, e, j, EmptyCity);
    }
  }

  /** One entry per municipality seen, each consistent and counting that municipality's facilities. */
  lemma {:induction false} CityStatsFacts(fs: seq<Facility>)
    requires AllAddable(fs)
    ensures Tally.DistinctKeys(CityStatsOf(fs))
    ensures forall k :: k in Tally.Keys(CityStatsOf(fs)) <==> k in Map(Municipality, fs)
    ensures forall i :: 0 <= i < |CityStatsOf(fs)| ==> EntryConsistent(CityStatsOf(fs)[i].1)
    ensures forall k :: Tally.Lookup(CityStatsOf(fs), k, EmptyCity).totalFacilities == multiset(Map(Municipality, fs))[k]
  {
    CityStatsFactsHold(fs);
  }

  lemma {:induction false} CityStatsFactsHold(fs: seq<Facility>)
    requires AllAddable(fs)
    ensures CityFacts(CityStatsOf(fs), Map(Municipality, fs))
  {
    if fs != [] {
      var p := fs[..|fs| - 1];
      var f := fs[|fs| - 1];
      SplitLast(fs);
      assert AllAddable(p);
      CityStatsFactsHold(p);
      MapSnoc(Municipality, p, f);
      CityFactsStep(CityStatsOf(p), Map(Municipality, p), f);
    }
  }

  // ---- main ----

  /** Every facility `main` reads: its type can be looked up, and its coordinates, name and
      capacity have the types the duplicate search and the statistics use. */
  predicate Loadable(f: Facility) {
    Hashable(RawType(f)) && Comparable(f) && CapacityAddable(f)
  }

  /** The two loading loops: the OSM facilities, then the RDW ones, each with its type
      normalised; normalising keeps what the duplicate search and the statistics read. */
  method CombineSources(osm: seq<Facility>, rdw: seq<Facility>) returns (all: seq<Facility>)
    requires forall i :: 0 <= i < |osm| ==> Loadable(osm[i])
    requires forall i :: 0 <= i < |rdw| ==> Loadable(rdw[i])
    ensures |all| == |osm| + |rdw|
    ensures forall i :: 0 <= i < |osm| ==> Hashable(RawType(osm[i])) && all[i] == Normalized(osm[i])
    ensures forall i :: 0 <= i < |rdw| ==> Hashable(RawType(rdw[i])) && all[|osm| + i] == Normalized(rdw[i])
    ensures AllComparable(all) && AllAddable(all)
  {
    var osmNormal := NormalizeAll(osm);
    var rdwNormal := NormalizeAll(rdw);
    NormalizedUsable(osm, osmNormal);
    NormalizedUsable(rdw, rdwNormal);
    all := osmNormal + rdwNormal;
    UsableConcat(osmNormal, rdwNormal);
  }

  /** A normalised list keeps what the duplicate search and the statistics read. */
  lemma NormalizedUsable(fs: seq<Facility>, out: seq<Facility>)
    requires |out| == |fs|
    requires forall i :: 0 <= i < |fs| ==> Loadable(fs[i]) && out[i] == Normalized(fs[i])
    ensures AllComparable(out) && AllAddable(out)
  {
    forall i | 0 <= i < |out| ensures Comparable(out[i]) && CapacityAddable(out[i]) {
      NormalizedComparable(fs[i]);
    }
  }

  lemma UsableConcat(a: seq<Facility>, b: seq<Facility>)
    requires AllComparable(a) && AllAddable(a) && AllComparable(b) && AllAddable(b)
    ensures AllComparable(a + b) && AllAddable(a + b)
  {
    forall i | 0 <= i < |a + b| ensures Comparable((a + b)[i]) && CapacityAddable((a + b)[i]) {
      if i < |a| {
        assert (a + b)[i] == a[i];
      } else {
        assert (a + b)[i] == b[i - |a|];
      }
    }
  }

  /** `main` without the file reading and writing: normalise and combine the two lists, find
      duplicates within `threshold` metres (50 in the script), merge them into their canonical
      facilities and compute both kinds of statistics. */
  method MergeSources(osm: seq<Facility>, rdw: seq<Facility>, haversine: Distance)
    returns (all: seq<Facility>, duplicates: Tally.Counter<int>, merged: seq<Facility>, stats: Option<Summary>, cityStats: Option<CityStats>)
    requires forall i :: 0 <= i < |osm| ==> Loadable(osm[i])
    requires forall i :: 0 <= i < |rdw| ==> Loadable(rdw[i])
    ensures |all| == |osm| + |rdw|
    ensures forall i :: 0 <= i < |osm| ==> Hashable(RawType(osm[i])) && all[i] == Normalized(osm[i])
    ensures forall i :: 0 <= i < |rdw| ==> Hashable(RawType(rdw[i])) && all[|osm| + i] == Normalized(rdw[i])
    ensures AllComparable(all) && ValidDuplicates(all, haversine, 50.0, duplicates)
    ensures merged == Merged(MergeFacilities, all, duplicates)
    ensures |merged| == |osm| + |rdw| - |duplicates|
    ensures AllAddable(merged)
    ensures stats.Some? <==> forall i :: 0 <= i < |merged| ==> Countable(merged[i])
    ensures stats.Some? ==> stats.value == SummaryOf(merged)
    ensures cityStats.Some? <==> stats.Some? && forall i :: 0 <= i < |merged| ==> Hashable(Municipality(merged[i]))
    ensures cityStats.Some? ==> cityStats.value == CityStatsOf(merged)
  {
    all := CombineSources(osm, rdw);
    duplicates := FindDuplicates(all, haversine, 50.0);
    merged := MergeDuplicates(MergeFacilities, all, duplicates);
    MergedAddable(all, duplicates);
    stats := Summarize(merged);
    if stats.Some? && forall i :: 0 <= i < |merged| ==> Hashable(Municipality(merged[i])) {
      var c := GenerateCityStatistics(merged);
      cityStats := Some(c);
    } else {
      cityStats := None;
    }
  }
}
