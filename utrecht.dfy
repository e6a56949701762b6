/** scripts/fetch_utrecht_parking.py: the coordinates table of the P-route garages, and the
    loop of `fetch_pbroute_data` that turns the Stallingsnet occupancy items into facilities. */
module Utrecht {
  import opened Wrappers
  import opened Text
  import opened Props
  import Tally

  type Coords = (real, real)

  /** `UTRECHT_GARAGE_LOCATIONS`, in its insertion order: name and `(lat, lon)`. */
  const GarageLocations: seq<(string, Coords)> := [
    ("Zadelstraat", (52.09238, 5.12175)),
    ("Vredenburg", (52.09268, 5.11494)),
    ("Stadhuis", (52.09149, 5.11774)),
    ("Laag Catharijne", (52.08996, 5.11095)),
    ("UB Plein", (52.08545, 5.11815)),
    ("Stationsplein", (52.08946, 5.10960)),
    ("Keizerstraat", (52.08999, 5.12168)),
    ("Knoop", (52.08763, 5.11115)),
    ("Jaarbeursplein", (52.08831, 5.10148)),
    ("Neude", (52.09340, 5.11877)),
    ("House Modernes", (52.09070, 5.11860)),
    ("Sijpesteijn", (52.09200, 5.10640)),
    ("Springweg", (52.09397, 5.11568))
  ]

  /** `name in table` and `table[name]`, looking from entry `k` on. */
  function ExactMatch(t: seq<(string, Coords)>, name: string, k: nat): (c: Option<Coords>)
    requires k <= |t|
    ensures c.Some? <==> exists i :: k <= i < |t| && t[i].0 == name
    ensures Tally.DistinctKeys(t) ==> forall i :: k <= i < |t| && t[i].0 == name ==> c == Some(t[i].1)
    decreases |t| - k
  {
    if k == |t| then None
    else if t[k].0 == name then Some(t[k].1)
    else ExactMatch(t, name, k + 1)
  }

  /** The loop over `table.items()` from entry `k` on, returning the coordinates of the first
      name that is a prefix of `name`. */
  function PrefixMatch(t: seq<(string, Coords)>, name: string, k: nat): (c: Option<Coords>)
    requires k <= |t|
    ensures c.None? <==> forall i :: k <= i < |t| ==> !StartsWith(name, t[i].0)
    ensures c.Some? ==>
      exists i :: k <= i < |t| && StartsWith(name, t[i].0) && c == Some(t[i].1) &&
        (forall j :: k <= j < i ==> !StartsWith(name, t[j].0))
    decreases |t| - k
  {
    if k == |t| then None
    else if StartsWith(name, t[k].0) then Some(t[k].1)
    else PrefixMatch(t, name, k + 1)
  }

  /** The exact entry, else the first entry whose name is a prefix of `name`. */
  function Lookup(t: seq<(string, Coords)>, name: string): (c: Option<Coords>)
    requires Tally.DistinctKeys(t)
    ensures c.Some? <==> exists i :: 0 <= i < |t| && StartsWith(name, t[i].0)
    ensures forall i :: 0 <= i < |t| && t[i].0 == name ==> c == Some(t[i].1)
    ensures (forall i :: 0 <= i < |t| ==> t[i].0 != name) && c.Some? ==>
      exists i :: 0 <= i < |t| && StartsWith(name, t[i].0) && c == Some(t[i].1) &&
        (forall j :: 0 <= j < i ==> !StartsWith(name, t[j].0))
  {
    match ExactMatch(t, name, 0)
    case Some(c) =>
      var i :| 0 <= i < |t| && t[i].0 == name;
      assert StartsWith(name, t[i].0);
      Some(c)
    case None => PrefixMatch(t, name, 0)
  }

  /** The garage names of the table are distinct, so the exact lookup is unambiguous. */
  lemma LocationNamesDistinct()
    ensures Tally.DistinctKeys(GarageLocations)
  {
  }

  /** `get_garage_coords`: the exact entry, else the first table entry (in table order) whose
      name is a prefix of `name`, else `None`. */
  function GarageCoords(name: string): (c: Option<Coords>)
    ensures c.Some? <==> exists i :: 0 <= i < |GarageLocations| && StartsWith(name, GarageLocations[i].0)
    ensures forall i :: 0 <= i < |GarageLocations| && GarageLocations[i].0 == name ==> c == Some(GarageLocations[i].1)
    ensures (forall i :: 0 <= i < |GarageLocations| ==> GarageLocations[i].0 != name) && c.Some? ==>
      exists i :: 0 <= i < |GarageLocations| && StartsWith(name, GarageLocations[i].0) && c == Some(GarageLocations[i].1) &&
        (forall j :: 0 <= j < i ==> !StartsWith(name, GarageLocations[j].0))
  {
    LocationNamesDistinct();
    Lookup(GarageLocations, name)
  }

  /** The garage names of the table have at least four characters, and no two agree in both
      their first and their fourth character. */
  lemma LocationHeadsDistinct()
    ensures forall i :: 0 <= i < |GarageLocations| ==> |GarageLocations[i].0| >= 4
    ensures forall i, j :: 0 <= i < j < |GarageLocations| ==>
      GarageLocations[i].0[0] != GarageLocations[j].0[0] || GarageLocations[i].0[3] != GarageLocations[j].0[3]
  {
  }

  /** A name is not a prefix of one that differs from it in its first or fourth character. */
  lemma HeadsDiffer(a: string, b: string)
    requires |a| >= 4 && |b| >= 4 && (a[0] != b[0] || a[3] != b[3])
    ensures !StartsWith(b, a)
  {
  }

  /** Two prefixes of one name: the shorter is a prefix of the longer. */
  lemma PrefixesOfOneName(name: string, a: string, b: string)
    requires StartsWith(name, a) && StartsWith(name, b)
    ensures StartsWith(a, b) || StartsWith(b, a)
  {
    if |a| <= |b| {
      assert b[..|a|] == name[..|a|];
    } else {
      assert a[..|b|] == name[..|b|];
    }
  }

  /** No garage name of the table is a prefix of another one. */
  lemma {:induction false} LocationNamesPrefixFree(i: nat, j: nat)
    requires i < |GarageLocations| && j < |GarageLocations| && i != j
    ensures !StartsWith(GarageLocations[j].0, GarageLocations[i].0)
  {
    LocationHeadsDistinct();
    HeadsDiffer(GarageLocations[i].0, GarageLocations[j].0);
  }

  /** So at most one table entry is a prefix of any name: the first prefix match is the only
      one, and the order of the table does not decide the result. */
  lemma PrefixMatchUnique(name: string, i: nat, j: nat)
    requires i < |GarageLocations| && j < |GarageLocations|
    requires StartsWith(name, GarageLocations[i].0) && StartsWith(name, GarageLocations[j].0)
    ensures i == j
  {
    PrefixesOfOneName(name, GarageLocations[i].0, GarageLocations[j].0);
    if i != j {
      LocationNamesPrefixFree(i, j);
      LocationNamesPrefixFree(j, i);
    }
  }

  // ---- the loop of fetch_pbroute_data ----

  /** `item.get("facilityName", "")`, a string in the feed. */
  function NameOf(item: Properties): string {
    match GetOr(item, "facilityName", VStr(""))
    case VStr(s) => s
    case _ => ""
  }

  /** A "Hoog"/"Laag" level of a garage listed on its own, or a temporary "Pop Up" entry. */
  predicate IsVariant(name: string) {
    Contains(name, " Hoog") || Contains(name, " Laag") || StartsWith(name, "Pop Up")
  }

  /** Where the loop places a name: nowhere for a variant, else by `get_garage_coords`. */
  function Locate(name: string): (c: Option<Coords>)
    ensures c.Some? <==> !IsVariant(name) && GarageCoords(name).Some?
    ensures c.Some? ==> c == GarageCoords(name)
  {
    if IsVariant(name) then None else GarageCoords(name)
  }

  /** A name the loop emits a facility for, the first time it is seen. */
  predicate Listed(name: string) {
    Locate(name).Some?
  }

  /** The item is processed without raising: the name is a string, and `int()` accepts
      `totalPlaces` and `freePlaces` where they are truthy. */
  predicate Processable(item: Properties) {
    GetOr(item, "facilityName", VStr("")).VStr? &&
    (Truthy(Get(item, "totalPlaces")) ==> PyInt(Get(item, "totalPlaces")).Some?) &&
    (Truthy(Get(item, "freePlaces")) ==> PyInt(Get(item, "freePlaces")).Some?)
  }

  /** `{"total": int(capacity_total)} if capacity_total else None` */
  function Capacity(item: Properties): (v: Value)
    requires Processable(item)
    ensures v != VNull <==> Truthy(Get(item, "totalPlaces"))
  {
    var total := Get(item, "totalPlaces");
    if Truthy(total) then VObj(map["total" := VInt(PyInt(total).value)]) else VNull
  }

  /** `int(available) if available else None`: no free places (0) reads as `None`. */
  function Available(item: Properties): (v: Value)
    requires Processable(item)
    ensures v != VNull <==> Truthy(Get(item, "freePlaces"))
    ensures Get(item, "freePlaces") == VInt(0) ==> v == VNull
  {
    var free := Get(item, "freePlaces");
    if Truthy(free) then VInt(PyInt(free).value) else VNull
  }

  const IdPrefix: string := "utrecht_proute_"

  /** The id: the name with spaces made underscores, lower-cased. */
  function FacilityId(name: string): (id: string)
    ensures |id| == |IdPrefix| + |name|
    ensures id[..|IdPrefix|] == IdPrefix
    ensures forall i :: 0 <= i < |name| ==>
      id[|IdPrefix| + i] == if name[i] == ' ' then '_' else LowerChar(name[i])
  {
    var lowered := Lower(ReplaceChar(name, ' ', '_'));
    assert forall i :: 0 <= i < |name| ==> lowered[i] == if name[i] == ' ' then '_' else LowerChar(name[i]);
    IdPrefix + lowered
  }

  /** The display name: a park-and-ride at the station, a garage elsewhere. */
  function DisplayName(name: string): (n: string)
    ensures Contains(name, "Stationsplein") ==> n == "P+R " + name
    ensures !Contains(name, "Stationsplein") ==> n == "Parkeergarage " + name
  {
    if Contains(name, "Stationsplein") then "P+R " + name else "Parkeergarage " + name
  }

  /** The facility of an item whose name the table places at `(lat, lon)`. */
  function Facility(item: Properties, name: string, c: Coords, now: string): (f: Properties)
    requires Processable(item)
    ensures "id" in f && f["id"] == VStr(FacilityId(name))
    ensures "name" in f && f["name"] == VStr(DisplayName(name))
    ensures "latitude" in f && f["latitude"] == VReal(c.0)
    ensures "longitude" in f && f["longitude"] == VReal(c.1)
    ensures "capacity" in f && f["capacity"] == Capacity(item)
    ensures "available" in f && f["available"] == Available(item)
    ensures "realtime_updated" in f && f["realtime_updated"] == GetOr(item, "time", VStr(now))
  {
    var rest := map[
      "source" := VStr("utrecht"),
      "source_detail" := VStr("P-route Stallingsnet"),
      "type" := VStr("garage"),
      "geometry" := PointValue(c.1, c.0),
      "municipality" := VStr("Utrecht"),
      "province" := VStr("Utrecht"),
      "has_realtime" := VBool(true),
      "is_paid" := VBool(true),
      "last_updated" := VStr(now)];
    rest
      ["id" := VStr(FacilityId(name))]
      ["name" := VStr(DisplayName(name))]
      ["latitude" := VReal(c.0)]
      ["longitude" := VReal(c.1)]
      ["capacity" := Capacity(item)]
      ["available" := Available(item)]
      ["realtime_updated" := GetOr(item, "time", VStr(now))]
  }

  /** The record an emitted item becomes, given its name and coordinates. */
  type Builder = (Properties, string, Coords) -> Properties

  /** The builder of `fetch_pbroute_data`; items it is never applied to get an empty record. */
  function BuilderOf(now: string): Builder {
    (item: Properties, name: string, c: Coords) => if Processable(item) then Facility(item, name, c, now) else map[]
  }

  /** Where the loop places a name. */
  type Locator = string -> Option<Coords>

  /** The loop's state: the facilities appended and, in order, the names added to
      `seen_garages`. */
  datatype Emitted = Emitted(facilities: seq<Properties>, names: seq<string>)

  /** One turn of the loop: an item whose name is placed and not yet seen appends its
      facility; any other item is skipped. */
  function Step(build: Builder, locate: Locator, st: Emitted, item: Properties): Emitted {
    var name := NameOf(item);
    match locate(name)
    case Some(c) =>
      if name in st.names then st else Emitted(st.facilities + [build(item, name, c)], st.names + [name])
    case None => st
  }

  /** The state after the items `items`. */
  function EmittedBy(build: Builder, locate: Locator, items: seq<Properties>): Emitted {
    if items == [] then Emitted([], [])
    else Step(build, locate, EmittedBy(build, locate, items[..|items| - 1]), items[|items| - 1])
  }

  lemma EmittedSnoc(build: Builder, locate: Locator, items: seq<Properties>, i: nat)
    requires i < |items|
    ensures EmittedBy(build, locate, items[..i + 1]) == Step(build, locate, EmittedBy(build, locate, items[..i]), items[i])
  {
    assert items[..i + 1][..i] == items[..i];
  }

  /** The name is a string: `" Hoog" in name` and `name.startswith` raise on anything else. */
  predicate Named(item: Properties) {
    GetOr(item, "facilityName", VStr("")).VStr?
  }

  /** The body of the loop, `seen_garages` standing for the names emitted so far. Only an
      item the loop builds a facility from reaches the `int()` calls. */
  method Visit(item: Properties, facilities0: seq<Properties>, seen0: set<string>, ghost names0: seq<string>, now: string)
    returns (facilities: seq<Properties>, seen: set<string>)
    requires Named(item)
    requires Listed(NameOf(item)) && NameOf(item) !in names0 ==> Processable(item)
    requires forall n :: n in seen0 <==> n in names0
    ensures facilities == Step(BuilderOf(now), Locate, Emitted(facilities0, names0), item).facilities
    ensures forall n :: n in seen <==> n in Step(BuilderOf(now), Locate, Emitted(facilities0, names0), item).names
  {
    facilities, seen := facilities0, seen0;
    var name := match GetOr(item, "facilityName", VStr("")) case VStr(s) => s case _ => "";
    if Contains(name, " Hoog") || Contains(name, " Laag") {
      return;
    }
    if StartsWith(name, "Pop Up") {
      return;
    }
    var coords := GarageCoords(name);
    if coords.None? {
      return;
    }
    if name in seen {
      return;
    }
    seen := seen + {name};
    facilities := facilities + [Facility(item, name, coords.value, now)];
  }

  /** The items the loop builds facilities from, the first with each placed name, pass
      `int()`; every other item is skipped before the conversion. */
  predicate BuiltProcessable(items: seq<Properties>) {
    forall j {:trigger FirstWithName(items, j, NameOf(items[j]))} ::
      0 <= j < |items| && FirstWithName(items, j, NameOf(items[j])) && Listed(NameOf(items[j])) ==> Processable(items[j])
  }

  /** An item whose placed name is not yet emitted is the first item with that name. */
  lemma UnseenIsFirst(build: Builder, items: seq<Properties>, i: nat)
    requires i < |items|
    ensures Listed(NameOf(items[i])) && NameOf(items[i]) !in EmittedBy(build, Locate, items[..i]).names ==>
      FirstWithName(items, i, NameOf(items[i]))
  {
    EmittedComplete(build, Locate, items[..i]);
    assert forall m :: 0 <= m < i ==> items[..i][m] == items[m];
  }

  /** The loop of `fetch_pbroute_data` over the items of the feed: one facility per listed
      name, in the order the names first appear, built from the first item with that name. */
  method FetchProute(items: seq<Properties>, now: string) returns (facilities: seq<Properties>)
    requires forall i :: 0 <= i < |items| ==> Named(items[i])
    requires BuiltProcessable(items)
    ensures facilities == EmittedBy(BuilderOf(now), Locate, items).facilities
    ensures var names := EmittedBy(BuilderOf(now), Locate, items).names;
      |facilities| == |names| &&
      (forall k, l :: 0 <= k < l < |names| ==> names[k] != names[l]) &&
      (forall k :: 0 <= k < |names| ==> Listed(names[k])) &&
      (forall j :: 0 <= j < |items| && Listed(NameOf(items[j])) ==> NameOf(items[j]) in names) &&
      (forall k :: 0 <= k < |facilities| ==>
        FirstWithName(items, FirstIndex(items, names[k]), names[k]) &&
        Processable(items[FirstIndex(items, names[k])]) &&
        facilities[k] == Facility(items[FirstIndex(items, names[k])], names[k], GarageCoords(names[k]).value, now))
  {
    facilities := [];
    var seen: set<string> := {};
    var i := 0;
    while i < |items|
      invariant 0 <= i <= |items|
      invariant facilities == EmittedBy(BuilderOf(now), Locate, items[..i]).facilities
      invariant forall n :: n in seen <==> n in EmittedBy(BuilderOf(now), Locate, items[..i]).names
    {
      EmittedSnoc(BuilderOf(now), Locate, items, i);
      UnseenIsFirst(BuilderOf(now), items, i);
      facilities, seen := Visit(items[i], facilities, seen, EmittedBy(BuilderOf(now), Locate, items[..i]).names, now);
      i := i + 1;
    }
    assert items[..|items|] == items;
    EmittedNamesDistinct(BuilderOf(now), Locate, items);
    EmittedComplete(BuilderOf(now), Locate, items);
    BuiltFromFirst(BuilderOf(now), Locate, items, now);
  }

  /** With the facility builder, each emitted facility is the record of the first item
      with its name, provided those first items pass `int()`. */
  lemma {:induction false} BuiltFromFirst(build: Builder, locate: Locator, items: seq<Properties>, now: string)
    requires build == BuilderOf(now)
    requires forall j {:trigger FirstWithName(items, j, NameOf(items[j]))} ::
      0 <= j < |items| && FirstWithName(items, j, NameOf(items[j])) && locate(NameOf(items[j])).Some? ==>
      Processable(items[j])
    ensures var r := EmittedBy(build, locate, items);
      |r.facilities| <= |r.names| &&
      forall k :: 0 <= k < |r.facilities| ==>
        locate(r.names[k]).Some? && 0 <= FirstIndex(items, r.names[k]) &&
        Processable(items[FirstIndex(items, r.names[k])]) &&
        r.facilities[k] == Facility(items[FirstIndex(items, r.names[k])], r.names[k], locate(r.names[k]).value, now)
  {
    EmittedFirstWins(build, locate, items);
    EmittedNamesDistinct(build, locate, items);
    var r := EmittedBy(build, locate, items);
    forall k | 0 <= k < |r.facilities|
      ensures locate(r.names[k]).Some? && 0 <= FirstIndex(items, r.names[k]) &&
        Processable(items[FirstIndex(items, r.names[k])]) &&
        r.facilities[k] == Facility(items[FirstIndex(items, r.names[k])], r.names[k], locate(r.names[k]).value, now)
    {
      var fk := r.facilities[k];
      var name := r.names[k];
      var c := locate(name).value;
      var j :| FirstWithName(items, j, name) && fk == build(items[j], name, c);
      FirstIndexOf(items, j, name);
      assert FirstWithName(items, j, NameOf(items[j]));
      assert Processable(items[j]);
    }
  }

  // ---- what the loop promises, for any builder and locator ----

  /** Every name is emitted once, each emitted name is placed, and there is one facility per
      emitted name. */
  lemma {:induction false} EmittedNamesDistinct(build: Builder, locate: Locator, items: seq<Properties>)
    ensures var r := EmittedBy(build, locate, items);
      |r.facilities| == |r.names| &&
      (forall k, l :: 0 <= k < l < |r.names| ==> r.names[k] != r.names[l]) &&
      (forall k :: 0 <= k < |r.names| ==> locate(r.names[k]).Some?)
  {
    if items != [] {
      EmittedNamesDistinct(build, locate, items[..|items| - 1]);
    }
  }

  /** No placed garage is lost: every item with a placed name has its name emitted. */
  lemma {:induction false} EmittedComplete(build: Builder, locate: Locator, items: seq<Properties>)
    ensures forall j :: 0 <= j < |items| && locate(NameOf(items[j])).Some? ==>
      NameOf(items[j]) in EmittedBy(build, locate, items).names
  {
    if items != [] {
      var p := items[..|items| - 1];
      EmittedComplete(build, locate, p);
      var r := EmittedBy(build, locate, items);
      assert forall n :: n in EmittedBy(build, locate, p).names ==> n in r.names;
      forall j | 0 <= j < |items| && locate(NameOf(items[j])).Some?
        ensures NameOf(items[j]) in r.names
      {
        if j < |p| { assert items[j] == p[j]; }
      }
    }
  }

  /** `items[j]` is the first item of the feed with that name. */
  predicate FirstWithName(items: seq<Properties>, j: int, name: string) {
    0 <= j < |items| && NameOf(items[j]) == name && forall m :: 0 <= m < j ==> NameOf(items[m]) != name
  }

  /** The index of the first item named `name`, or -1 when there is none. */
  function FirstIndex(items: seq<Properties>, name: string): (j: int)
    ensures -1 <= j < |items|
    ensures 0 <= j ==> FirstWithName(items, j, name)
    ensures j < 0 ==> forall m :: 0 <= m < |items| ==> NameOf(items[m]) != name
  {
    if items == [] then -1
    else
      var p := items[..|items| - 1];
      var j := FirstIndex(p, name);
      assert forall m :: 0 <= m < |p| ==> p[m] == items[m];
      if 0 <= j then j
      else if NameOf(items[|items| - 1]) == name then |items| - 1
      else -1
  }

  /** The first item with a name is the one `FirstIndex` finds. */
  lemma FirstIndexOf(items: seq<Properties>, j: int, name: string)
    requires FirstWithName(items, j, name)
    ensures FirstIndex(items, name) == j
  {
  }

  /** The first item with a placed name is the one whose facility is kept. */
  lemma {:induction false} EmittedFirstWins(build: Builder, locate: Locator, items: seq<Properties>)
    ensures var r := EmittedBy(build, locate, items);
      forall k :: 0 <= k < |r.facilities| ==>
        k < |r.names| && locate(r.names[k]).Some? &&
        (exists j :: FirstWithName(items, j, r.names[k]) &&
          r.facilities[k] == build(items[j], r.names[k], locate(r.names[k]).value))
  {
    EmittedNamesDistinct(build, locate, items);
    if items != [] {
      var p := items[..|items| - 1];
      var x := items[|items| - 1];
      EmittedFirstWins(build, locate, p);
      EmittedComplete(build, locate, p);
      EmittedNamesDistinct(build, locate, p);
      var st := EmittedBy(build, locate, p);
      var r := EmittedBy(build, locate, items);
      forall k | 0 <= k < |r.facilities|
        ensures k < |r.names| && locate(r.names[k]).Some? &&
          (exists j :: FirstWithName(items, j, r.names[k]) &&
            r.facilities[k] == build(items[j], r.names[k], locate(r.names[k]).value))
      {
        if k < |st.facilities| {
          var j :| FirstWithName(p, j, st.names[k]) &&
            st.facilities[k] == build(p[j], st.names[k], locate(st.names[k]).value);
          assert r.names[k] == st.names[k] && r.facilities[k] == st.facilities[k];
          assert items[j] == p[j];
          assert forall m :: 0 <= m < j ==> items[m] == p[m];
          assert FirstWithName(items, j, r.names[k]);
        } else {
          var j := |items| - 1;
          assert r.names[k] == NameOf(x);
          forall m | 0 <= m < j ensures NameOf(items[m]) != NameOf(x) {
            assert items[m] == p[m];
          }
          assert FirstWithName(items, j, r.names[k]);
        }
      }
    }
  }
}
