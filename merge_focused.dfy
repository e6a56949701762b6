/** scripts/merge_focused.py: the OSM facilities of the focus provinces, appended after all RDW
    facilities, and the statistics over the combined list. */
module MergeFocused {
  import opened Props
  import opened Seqs
  import opened MergeParking
  import Tally

  /** `FOCUS_PROVINCES` */
  const FocusProvinces: set<string> := {"Zuid-Holland", "Gelderland", "Overijssel"}

  /** `f.get("province") in FOCUS_PROVINCES`: only a string can be equal to a member. */
  predicate InFocus(f: Facility) {
    Get(f, "province").VStr? && Get(f, "province").s in FocusProvinces
  }

  /** The comprehension `osm_filtered`. */
  function OsmFiltered(osm: seq<Facility>): (r: seq<Facility>)
    ensures forall f :: f in r <==> f in osm && InFocus(f)
    ensures |r| <= |osm|
  {
    Filter(InFocus, osm)
  }

  /** The filter keeps the OSM features in their original order. */
  lemma OsmFilteredInOrder(osm: seq<Facility>)
    ensures IsSubsequence(OsmFiltered(osm), osm)
  {
    FilterIsSubsequence(InFocus, osm);
  }

  /** Filtering a list that already holds only focus features keeps it whole, so filtering
      twice is filtering once. */
  lemma OsmFilteredIdempotent(osm: seq<Facility>)
    ensures OsmFiltered(OsmFiltered(osm)) == OsmFiltered(osm)
  {
    FilterKeepsAll(InFocus, OsmFiltered(osm));
  }

  /** The two loops appending to `all_facilities`: every RDW facility, then the filtered OSM
      ones. */
  method Combine(rdw: seq<Facility>, osmFiltered: seq<Facility>) returns (all: seq<Facility>)
    ensures all == rdw + osmFiltered
    ensures |all| == |rdw| + |osmFiltered|
  {
    all := [];
    var i := 0;
    while i < |rdw|
      invariant 0 <= i <= |rdw|
      invariant all == rdw[..i]
    {
      PrefixSnoc(rdw, i);
      all := all + [rdw[i]];
      i := i + 1;
    }
    assert rdw[..|rdw|] == rdw;
    var j := 0;
    while j < |osmFiltered|
      invariant 0 <= j <= |osmFiltered|
      invariant all == rdw + osmFiltered[..j]
    {
      PrefixSnoc(osmFiltered, j);
      all := all + [osmFiltered[j]];
      j := j + 1;
    }
    assert osmFiltered[..|osmFiltered|] == osmFiltered;
  }

  // ---- the statistics ----

  /** `f.get("type", "other")` */
  function TypeKey(f: Facility): Value { GetOr(f, "type", VStr("other")) }

  /** `f.get("source", "unknown")` */
  function SourceKey(f: Facility): Value { GetOr(f, "source", VStr("unknown")) }

  /** `f.get("province", "Unknown")` */
  function ProvinceKey(f: Facility): Value { GetOr(f, "province", VStr("Unknown")) }

  /** `if province:` */
  predicate HasProvince(f: Facility) { Truthy(ProvinceKey(f)) }

  predicate HasCapacity(f: Facility) { Truthy(Get(f, "capacity")) }

  predicate HasName(f: Facility) { Truthy(Get(f, "name")) }

  /** The provinces counted, one per facility with a truthy province, in list order. */
  function Provinces(fs: seq<Facility>): (r: seq<Value>)
    ensures |r| == CountWhere(HasProvince, fs)
    ensures forall v :: v in r ==> Truthy(v)
  {
    if fs == [] then []
    else
      var f := fs[|fs| - 1];
      Provinces(fs[..|fs| - 1]) + (if HasProvince(f) then [ProvinceKey(f)] else [])
  }

  /** The `defaultdict`s are indexed by the type, the source and a truthy province: a list or
      dictionary there raises. A falsy province, such as `[]` or `{}`, is never used as a key. */
  predicate Countable(f: Facility) {
    Hashable(TypeKey(f)) && Hashable(SourceKey(f)) && (HasProvince(f) ==> Hashable(ProvinceKey(f)))
  }

  /** The `stats` dictionary of `main`. */
  datatype Stats = Stats(
    total: nat,
    byType: Tally.Counter<Value>,
    bySource: Tally.Counter<Value>,
    byProvince: Tally.Counter<Value>,
    withCapacity: nat,
    withName: nat)

  /** What the statistics loop computes over the combined list. */
  function StatsOf(fs: seq<Facility>): Stats {
    Stats(
      |fs|,
      Tally.CountOf(Map(TypeKey, fs)),
      Tally.CountOf(Map(SourceKey, fs)),
      Tally.CountOf(Provinces(fs)),
      CountWhere(HasCapacity, fs),
      CountWhere(HasName, fs))
  }

  /** One more facility counted. */
  lemma StatsSnoc(fs: seq<Facility>, f: Facility)
    ensures StatsOf(fs + [f]).byType == Tally.Bump(StatsOf(fs).byType, TypeKey(f))
    ensures StatsOf(fs + [f]).bySource == Tally.Bump(StatsOf(fs).bySource, SourceKey(f))
    ensures StatsOf(fs + [f]).byProvince ==
      if HasProvince(f) then Tally.Bump(StatsOf(fs).byProvince, ProvinceKey(f)) else StatsOf(fs).byProvince
    ensures StatsOf(fs + [f]).withCapacity == StatsOf(fs).withCapacity + (if HasCapacity(f) then 1 else 0)
    ensures StatsOf(fs + [f]).withName == StatsOf(fs).withName + (if HasName(f) then 1 else 0)
  {
    assert (fs + [f])[..|fs|] == fs;
    MapSnoc(TypeKey, fs, f);
    MapSnoc(SourceKey, fs, f);
    Tally.CountOfSnoc(Map(TypeKey, fs), TypeKey(f));
    Tally.CountOfSnoc(Map(SourceKey, fs), SourceKey(f));
    if HasProvince(f) {
      Tally.CountOfSnoc(Provinces(fs), ProvinceKey(f));
    } else {
      assert Provinces(fs + [f]) == Provinces(fs);
    }
    CountWhereSnoc(HasCapacity, fs, f);
    CountWhereSnoc(HasName, fs, f);
  }

  /** The loop `for f in all_facilities` filling `stats`. */
  method Statistics(all: seq<Facility>) returns (stats: Stats)
    requires forall i :: 0 <= i < |all| ==> Countable(all[i])
    ensures stats == StatsOf(all)
  {
    var byType: Tally.Counter<Value> := [];
    var bySource: Tally.Counter<Value> := [];
    var byProvince: Tally.Counter<Value> := [];
    var withCapacity, withName := 0, 0;
    var i := 0;
    while i < |all|
      invariant 0 <= i <= |all|
      invariant byType == Tally.CountOf(Map(TypeKey, all[..i]))
      invariant bySource == Tally.CountOf(Map(SourceKey, all[..i]))
      invariant byProvince == Tally.CountOf(Provinces(all[..i]))
      invariant withCapacity == CountWhere(HasCapacity, all[..i])
      invariant withName == CountWhere(HasName, all[..i])
    {
      byType, bySource, byProvince, withCapacity, withName := CountOne(all, i, byType, bySource, byProvince, withCapacity, withName);
      i := i + 1;
    }
    assert all[..|all|] == all;
    stats := Stats(|all|, byType, bySource, byProvince, withCapacity, withName);
  }

  /** The body of the statistics loop for facility `i`. */
  method CountOne(all: seq<Facility>, i: nat, byType: Tally.Counter<Value>, bySource: Tally.Counter<Value>,
                  byProvince: Tally.Counter<Value>, withCapacity: nat, withName: nat)
    returns (byType': Tally.Counter<Value>, bySource': Tally.Counter<Value>, byProvince': Tally.Counter<Value>,
             withCapacity': nat, withName': nat)
    requires i < |all|
    requires byType == Tally.CountOf(Map(TypeKey, all[..i])) && bySource == Tally.CountOf(Map(SourceKey, all[..i]))
    requires byProvince == Tally.CountOf(Provinces(all[..i]))
    requires withCapacity == CountWhere(HasCapacity, all[..i]) && withName == CountWhere(HasName, all[..i])
    ensures byType' == Tally.CountOf(Map(TypeKey, all[..i + 1])) && bySource' == Tally.CountOf(Map(SourceKey, all[..i + 1]))
    ensures byProvince' == Tally.CountOf(Provinces(all[..i + 1]))
    ensures withCapacity' == CountWhere(HasCapacity, all[..i + 1]) && withName' == CountWhere(HasName, all[..i + 1])
  {
    var f := all[i];
    PrefixSnoc(all, i);
    StatsSnoc(all[..i], f);
    byType' := Tally.Bump(byType, GetOr(f, "type", VStr("other")));
    bySource' := Tally.Bump(bySource, GetOr(f, "source", VStr("unknown")));
    var province := GetOr(f, "province", VStr("Unknown"));
    byProvince' := if Truthy(province) then Tally.Bump(byProvince, province) else byProvince;
    withCapacity' := withCapacity + if Truthy(Get(f, "capacity")) then 1 else 0;
    withName' := withName + if Truthy(Get(f, "name")) then 1 else 0;
  }

  /** The counters are consistent: type and source counts each add up to the total, the
      province counts to the facilities with a province, and each count is the number of
      facilities carrying that value. */
  lemma StatsConsistent(fs: seq<Facility>)
    ensures Tally.Total(StatsOf(fs).byType) == StatsOf(fs).total
    ensures Tally.Total(StatsOf(fs).bySource) == StatsOf(fs).total
    ensures Tally.Total(StatsOf(fs).byProvince) == CountWhere(HasProvince, fs) <= StatsOf(fs).total
    ensures forall t :: Tally.Get(StatsOf(fs).byType, t) == multiset(Map(TypeKey, fs))[t]
    ensures forall s :: Tally.Get(StatsOf(fs).bySource, s) == multiset(Map(SourceKey, fs))[s]
    ensures forall p :: Tally.Get(StatsOf(fs).byProvince, p) == multiset(Provinces(fs))[p]
    ensures StatsOf(fs).withCapacity <= StatsOf(fs).total
    ensures StatsOf(fs).withName <= StatsOf(fs).total
  {
    Tally.TotalCountOf(Map(TypeKey, fs));
    Tally.TotalCountOf(Map(SourceKey, fs));
    Tally.TotalCountOf(Provinces(fs));
    forall t ensures Tally.Get(StatsOf(fs).byType, t) == multiset(Map(TypeKey, fs))[t] {
      Tally.GetCountOf(Map(TypeKey, fs), t);
    }
    forall s ensures Tally.Get(StatsOf(fs).bySource, s) == multiset(Map(SourceKey, fs))[s] {
      Tally.GetCountOf(Map(SourceKey, fs), s);
    }
    forall p ensures Tally.Get(StatsOf(fs).byProvince, p) == multiset(Provinces(fs))[p] {
      Tally.GetCountOf(Provinces(fs), p);
    }
  }

  /** A facility whose province is an empty list or dictionary is counted, and its province
      is not: the statistics of the list are those of the list without it, but one more in
      total. */
  lemma FalsyProvinceSkipped(fs: seq<Facility>, f: Facility)
    requires Hashable(TypeKey(f)) && Hashable(SourceKey(f))
    requires "province" in f && f["province"] in {VList([]), VObj(map[])}
    ensures Countable(f)
    ensures StatsOf(fs + [f]).byProvince == StatsOf(fs).byProvince
    ensures StatsOf(fs + [f]).total == StatsOf(fs).total + 1
  {
    StatsSnoc(fs, f);
  }

  predicate NoProvinceKey(f: Facility) { "province" !in f }

  /** A facility without a province key is counted under "Unknown", so "Unknown" counts at
      least as many as there are such facilities. */
  lemma {:induction false} MissingProvinceIsUnknown(fs: seq<Facility>)
    ensures CountWhere(NoProvinceKey, fs) <= multiset(Provinces(fs))[VStr("Unknown")]
  {
    if fs != [] {
      var p := fs[..|fs| - 1];
      MissingProvinceIsUnknown(p);
      var f := fs[|fs| - 1];
      if NoProvinceKey(f) {
        assert ProvinceKey(f) == VStr("Unknown");
        assert Provinces(fs) == Provinces(p) + [VStr("Unknown")];
      } else {
        assert multiset(Provinces(p))[VStr("Unknown")] <= multiset(Provinces(fs))[VStr("Unknown")];
      }
    }
  }

  /** `main`: filter the OSM facilities, append them after the RDW ones, count. */
  method FocusedMerge(osm: seq<Facility>, rdw: seq<Facility>) returns (all: seq<Facility>, stats: Stats)
    requires forall i :: 0 <= i < |osm| ==> Hashable(Get(osm[i], "province"))
    requires forall i :: 0 <= i < |rdw| ==> Countable(rdw[i])
    requires forall f :: f in osm && InFocus(f) ==> Countable(f)
    ensures all == rdw + OsmFiltered(osm)
    ensures IsSubsequence(OsmFiltered(osm), osm)
    ensures stats == StatsOf(all) && stats.total == |rdw| + |OsmFiltered(osm)|
    ensures Tally.Total(stats.byType) == stats.total && Tally.Total(stats.bySource) == stats.total
    ensures Tally.Total(stats.byProvince) <= stats.total
    ensures stats.withCapacity <= stats.total && stats.withName <= stats.total
  {
    var osmFiltered := Filter(InFocus, osm);
    OsmFilteredInOrder(osm);
    all := Combine(rdw, osmFiltered);
    forall i | 0 <= i < |all| ensures Countable(all[i]) {
      if i >= |rdw| {
        assert all[i] in osmFiltered;
      }
    }
    stats := Statistics(all);
    StatsConsistent(all);
  }
}
