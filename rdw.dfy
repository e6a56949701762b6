/** The RDW open-data rules (scripts/fetch_rdw_parking.py): time and day-code formatting,
    WKT point parsing, the keep-latest specification lookup, the grouping of time
    regulations by day, and the type, address and opening-hours strings of a facility.
    RDW records are JSON objects whose values are all strings. */
module Rdw {
  import opened Wrappers
  import opened Text
  import opened Numbers
  import opened Osm
  import opened Seqs

  /** A Socrata record; `r.get(k, d)` is `TagOr(r, k, d)`. */
  type Record = map<string, string>

  /** `format_time(hhmm)`: empty stays empty; otherwise "HH:MM" from the first four characters
      of the input zero-padded to four; the "2400" case agrees with that rule. */
  function FormatTime(hhmm: string): (r: string)
    ensures hhmm == [] ==> r == []
    ensures hhmm != [] ==> |r| == 5 && r[2] == ':' && r[..2] + r[3..] == ZFill(hhmm, 4)[..4]
  {
    if hhmm == [] then hhmm
    else
      var z := ZFill(hhmm, 4);
      if z == "2400" then "24:00" else z[..2] + ":" + z[2..4]
  }

  /** A four-character time is split after its second character; a three-character one gains a
      leading zero. */
  lemma FormatTimeShort(h: string)
    requires |h| == 3 || |h| == 4
    requires h[0] != '+' && h[0] != '-'
    ensures |h| == 4 ==> FormatTime(h) == h[..2] + ":" + h[2..]
    ensures |h| == 3 ==> FormatTime(h) == ['0', h[0]] + ":" + h[1..]
  {
    var z := ZFill(h, 4);
    if |h| == 3 {
      assert z == "0" + h;
      assert z[..2] == ['0', h[0]] && z[2..4] == h[1..];
    }
  }

  lemma FormatTimeExamples()
    ensures FormatTime("930") == "09:30"
    ensures FormatTime("2400") == "24:00"
    ensures FormatTime("") == ""
  {
    FormatTimeShort("930");
    FormatTimeShort("2400");
  }

  /** `day_mapping` */
  const DayMapping: map<string, string> := map[
    "1" := "Monday", "2" := "Tuesday", "3" := "Wednesday", "4" := "Thursday", "5" := "Friday",
    "6" := "Saturday", "7" := "Sunday", "8" := "Public holidays", "9" := "Day before public holiday",
    "a" := "Shopping Sundays", "b" := "All days",
    "MAANDAG" := "Monday", "DINSDAG" := "Tuesday", "WOENSDAG" := "Wednesday", "DONDERDAG" := "Thursday",
    "VRIJDAG" := "Friday", "ZATERDAG" := "Saturday", "ZONDAG" := "Sunday", "FEESTDAG" := "Public holidays",
    "DAGVOORFEESTDAG" := "Day before public holiday", "KOOPZONDAG" := "Shopping Sundays", "ALLEDAG" := "All days"]

  /** `parse_day_timeframe(day_code)`: the table entry of the upper-cased code, else the code. */
  function ParseDayTimeframe(code: string): (r: string)
    ensures Upper(code) in DayMapping ==> r == DayMapping[Upper(code)]
    ensures Upper(code) !in DayMapping ==> r == code
  {
    var key := if code != [] then Upper(code) else [];
    if key in DayMapping then DayMapping[key] else code
  }

  /** No upper-cased code is "a" or "b", so those two table entries are never used:
      "a" and "b" come back unchanged. */
  lemma LowercaseDayKeysUnreachable(code: string)
    ensures Upper(code) != "a" && Upper(code) != "b"
    ensures ParseDayTimeframe("a") == "a" && ParseDayTimeframe("b") == "b"
  {
    UpperHasNoLowerCase(code);
    if |Upper(code)| == 1 {
      assert !('a' <= Upper(code)[0] <= 'z');
    }
    assert Upper("a") == "A" && Upper("b") == "B";
  }

  /** The tokens `parse_wkt_point` unpacks. */
  function WktTokens(wkt: string): seq<string> {
    Split(Strip(Replace(Replace(wkt, "POINT (", []), ")", [])))
  }

  /** `parse_wkt_point(wkt)`: `(lon, lat)` in source order when the text starts with "POINT"
      and yields exactly two numeric tokens, `None` (Python's `(None, None)`) otherwise. */
  function ParseWktPoint(wkt: string): (r: Option<(real, real)>)
    ensures r.Some? <==>
      StartsWith(wkt, "POINT") && |WktTokens(wkt)| == 2 &&
      ParseFloat(WktTokens(wkt)[0]).Some? && ParseFloat(WktTokens(wkt)[1]).Some?
    ensures r.Some? ==> r.value == (ParseFloat(WktTokens(wkt)[0]).value, ParseFloat(WktTokens(wkt)[1]).value)
  {
    if wkt == [] || !StartsWith(wkt, "POINT") then None
    else
      var tokens := WktTokens(wkt);
      if |tokens| != 2 then None
      else
        match (ParseFloat(tokens[0]), ParseFloat(tokens[1]))
        case (Some(lon), Some(lat)) => Some((lon, lat))
        case _ => None
  }

  /** The characters of `str(i)`: digits after an optional minus sign. */
  lemma IntToStringChars(i: int)
    ensures NumeralText(IntToString(i))
  {
    var d := NatToString(if i < 0 then -i else i);
    if i < 0 {
      assert IntToString(i) == "-" + d;
    }
  }

  /** Text that `str()` of an integer produces: a non-empty run of digits and minus signs. */
  predicate NumeralText(a: string) {
    a != [] && forall j :: 0 <= j < |a| ==> IsDigit(a[j]) || a[j] == '-'
  }

  /** Stripping the `POINT (` prefix and the `)` leaves the coordinate text. */
  lemma WktInner(body: string)
    requires forall j :: 0 <= j < |body| ==> body[j] != 'P' && body[j] != ')'
    ensures Replace(Replace("POINT (" + body + ")", "POINT (", []), ")", []) == body
  {
    var rest := body + ")";
    assert "POINT (" + body + ")" == "POINT (" + rest;
    assert forall j :: 0 <= j < |rest| ==> rest[j] != 'P' by {
      forall j | 0 <= j < |rest| ensures rest[j] != 'P' {
        if j < |body| { assert rest[j] == body[j]; }
      }
    }
    NotContainsChar(rest, "POINT (", 0);
    ReplaceLeading("POINT (", rest);
    assert rest == body + [')'];
    ReplaceTrailingChar(body, ')');
  }

  /** Two numerals joined by a space have no `P` or `)` and no space at either end. */
  lemma WktBody(a: string, b: string)
    requires NumeralText(a) && NumeralText(b)
    ensures var body := a + " " + b;
      && (forall j :: 0 <= j < |body| ==> body[j] != 'P' && body[j] != ')')
      && !IsSpace(body[0]) && !IsSpace(body[|body| - 1])
  {
    var body := a + " " + b;
    forall j | 0 <= j < |body| ensures body[j] != 'P' && body[j] != ')' {
      if j < |a| { assert body[j] == a[j]; }
      else if j > |a| { assert body[j] == b[j - |a| - 1]; }
    }
    assert body[0] == a[0] && body[|body| - 1] == b[|b| - 1];
  }

  /** The coordinate text between `POINT (` and `)` splits into the two numerals. */
  lemma WktTokensOfNumerals(a: string, b: string)
    requires NumeralText(a) && NumeralText(b)
    ensures WktTokens("POINT (" + (a + " " + b) + ")") == [a, b]
  {
    var body := a + " " + b;
    InnerOfNumerals(a, b);
    StrippedNumerals(a, b);
    TokensOfInner("POINT (" + body + ")", body);
    WordsOfNumerals(a, b);
  }

  /** Removing `POINT (` and `)` from the text of two numerals leaves them and their space. */
  lemma InnerOfNumerals(a: string, b: string)
    requires NumeralText(a) && NumeralText(b)
    ensures Replace(Replace("POINT (" + (a + " " + b) + ")", "POINT (", []), ")", []) == a + " " + b
  {
    var body := a + " " + b;
    WktBody(a, b);
    WktInner(body);
  }

  /** Two numerals joined by a space have nothing to strip. */
  lemma StrippedNumerals(a: string, b: string)
    requires NumeralText(a) && NumeralText(b)
    ensures Strip(a + " " + b) == a + " " + b
  {
    var body := a + " " + b;
    WktBody(a, b);
    StripNonSpaceEnds(body);
  }

  /** Two numerals joined by a space split back into the two. */
  lemma WordsOfNumerals(a: string, b: string)
    requires NumeralText(a) && NumeralText(b)
    ensures Split(a + " " + b) == [a, b]
  {
    assert forall j :: 0 <= j < |a| ==> !IsSpace(a[j]);
    assert forall j :: 0 <= j < |b| ==> !IsSpace(b[j]);
    SplitTwoWords(a, b);
  }

  /** The tokens of a text whose inner part is already stripped are the words of that part. */
  lemma TokensOfInner(wkt: string, inner: string)
    requires Replace(Replace(wkt, "POINT (", []), ")", []) == inner
    requires Strip(inner) == inner
    ensures WktTokens(wkt) == Split(inner)
  {
  }

  /** The text `POINT (lon lat)` for integral coordinates starts with "POINT" and yields the
      two numerals as its tokens. */
  lemma WktTokensOfInts(lon: int, lat: int)
    ensures StartsWith("POINT (" + IntToString(lon) + " " + IntToString(lat) + ")", "POINT")
    ensures WktTokens("POINT (" + IntToString(lon) + " " + IntToString(lat) + ")") == [IntToString(lon), IntToString(lat)]
  {
    var a, b := IntToString(lon), IntToString(lat);
    IntToStringChars(lon);
    IntToStringChars(lat);
    assert "POINT (" + a + " " + b + ")" == "POINT (" + (a + " " + b) + ")";
    WktTokensOfNumerals(a, b);
    assert ("POINT (" + (a + " " + b) + ")")[..5] == "POINT";
  }

  /** The text `POINT (lon lat)` RDW writes for integral coordinates parses back to them. */
  lemma WktRoundTrip(lon: int, lat: int)
    ensures ParseWktPoint("POINT (" + IntToString(lon) + " " + IntToString(lat) + ")") == Some((lon as real, lat as real))
  {
    WktTokensOfInts(lon, lat);
    ParseFloatOfIntToString(lon);
    ParseFloatOfIntToString(lat);
  }

  // ---- the specification lookup ----

  function AreaId(s: Record): string { TagOr(s, "areaid", "") }

  /** `s.get("startdatespecifications", "0")` */
  function StartDate(s: Record): string { TagOr(s, "startdatespecifications", "0") }

  /** `specs_lookup` after the loop has seen `specs`: per non-empty area id, the stored record
      is replaced only by one with a strictly later start date under string order. */
  function SpecsLookup(specs: seq<Record>): map<string, Record> {
    if specs == [] then map[]
    else
      var m := SpecsLookup(specs[..|specs| - 1]);
      var s := specs[|specs| - 1];
      var id := AreaId(s);
      if id == [] then m
      else if id !in m then m[id := s]
      else if StrLess(StartDate(m[id]), StartDate(s)) then m[id := s]
      else m
  }

  method BuildSpecsLookup(specs: seq<Record>) returns (specsLookup: map<string, Record>)
    ensures specsLookup == SpecsLookup(specs)
  {
    specsLookup := map[];
    var i := 0;
    while i < |specs|
      invariant 0 <= i <= |specs|
      invariant specsLookup == SpecsLookup(specs[..i])
    {
      assert specs[..i + 1][..i] == specs[..i];
      var s := specs[i];
      var areaId := AreaId(s);
      if areaId != [] {
        if areaId !in specsLookup {
          specsLookup := specsLookup[areaId := s];
        } else {
          var currentDate := StartDate(specsLookup[areaId]);
          var newDate := StartDate(s);
          if StrLess(currentDate, newDate) {
            specsLookup := specsLookup[areaId := s];
          }
        }
      }
      i := i + 1;
    }
    assert specs[..|specs|] == specs;
  }

  /** `specs[i]` is the record kept for `id`: every earlier record of `id` has a strictly
      earlier date, and no later one a strictly later date. */
  predicate LatestFirst(specs: seq<Record>, id: string, i: nat) {
    && i < |specs|
    && AreaId(specs[i]) == id
    && (forall j :: 0 <= j < i && AreaId(specs[j]) == id ==> StrLess(StartDate(specs[j]), StartDate(specs[i])))
    && (forall j :: i < j < |specs| && AreaId(specs[j]) == id ==> !StrLess(StartDate(specs[i]), StartDate(specs[j])))
  }

  /** The lookup has an entry for exactly the non-empty area ids that occur. */
  lemma {:induction false} SpecsLookupKeys(specs: seq<Record>, id: string)
    ensures id in SpecsLookup(specs) <==> id != [] && exists j :: 0 <= j < |specs| && AreaId(specs[j]) == id
  {
    if specs != [] {
      var p := specs[..|specs| - 1];
      SpecsLookupKeys(p, id);
      if exists j :: 0 <= j < |p| && AreaId(p[j]) == id {
        var j :| 0 <= j < |p| && AreaId(p[j]) == id;
        assert specs[j] == p[j];
      }
      if exists j :: 0 <= j < |specs| && AreaId(specs[j]) == id {
        var j :| 0 <= j < |specs| && AreaId(specs[j]) == id;
        if j < |p| { assert p[j] == specs[j]; }
      }
    }
  }

  /** An entry that no later record overtakes stays the kept one. */
  lemma LatestKeep(specs: seq<Record>, id: string, i: nat)
    requires specs != [] && LatestFirst(specs[..|specs| - 1], id, i)
    requires AreaId(specs[|specs| - 1]) == id ==> !StrLess(StartDate(specs[i]), StartDate(specs[|specs| - 1]))
    ensures LatestFirst(specs, id, i)
  {
    var p := specs[..|specs| - 1];
    assert forall j :: 0 <= j < |p| ==> p[j] == specs[j];
  }

  /** A record later than every earlier one of its id becomes the kept one. */
  lemma LatestNew(specs: seq<Record>, id: string)
    requires specs != [] && AreaId(specs[|specs| - 1]) == id
    requires forall j :: 0 <= j < |specs| - 1 && AreaId(specs[j]) == id ==> StrLess(StartDate(specs[j]), StartDate(specs[|specs| - 1]))
    ensures LatestFirst(specs, id, |specs| - 1)
  {
  }

  /** A date later than the kept one is later than every date seen for the id. */
  lemma LatestOvertaken(p: seq<Record>, id: string, i0: nat, d: string)
    requires LatestFirst(p, id, i0) && StrLess(StartDate(p[i0]), d)
    ensures forall j :: 0 <= j < |p| && AreaId(p[j]) == id ==> StrLess(StartDate(p[j]), d)
  {
    forall j | 0 <= j < |p| && AreaId(p[j]) == id
      ensures StrLess(StartDate(p[j]), d)
    {
      if j < i0 {
        StrLessTransitive(StartDate(p[j]), StartDate(p[i0]), d);
      } else if j > i0 {
        StrLessTotal(StartDate(p[j]), StartDate(p[i0]));
        if StartDate(p[j]) != StartDate(p[i0]) {
          StrLessTransitive(StartDate(p[j]), StartDate(p[i0]), d);
        }
      }
    }
  }

  /** The kept record is the first of those with the greatest start date. */
  lemma {:induction false} SpecsLookupLatest(specs: seq<Record>, id: string) returns (i: nat)
    requires id in SpecsLookup(specs)
    ensures LatestFirst(specs, id, i) && SpecsLookup(specs)[id] == specs[i]
  {
    var n := |specs| - 1;
    var p := specs[..n];
    var s := specs[n];
    var m := SpecsLookup(p);
    SpecsLookupKeys(specs, id);
    if AreaId(s) == id && (id !in m || StrLess(StartDate(m[id]), StartDate(s))) {
      i := n;
      if id in m {
        var i0 := SpecsLookupLatest(p, id);
        LatestOvertaken(p, id, i0, StartDate(s));
      } else {
        SpecsLookupKeys(p, id);
      }
      assert forall j :: 0 <= j < n ==> p[j] == specs[j];
      LatestNew(specs, id);
    } else {
      i := SpecsLookupLatest(p, id);
      assert p[i] == specs[i];
      LatestKeep(specs, id, i);
    }
  }

  // ---- time regulations ----

  /** A time-frame record that adds an entry: day, start and end present and parking allowed
      (`claimrightpossible`, default "J", equal to "J"). */
  predicate Contributes(tv: Record) {
    TagOr(tv, "daytimeframe", "") != [] && TagOr(tv, "starttimetimeframe", "") != [] &&
    TagOr(tv, "endtimetimeframe", "") != [] && TagOr(tv, "claimrightpossible", "J") == "J"
  }

  function DayName(tv: Record): string { ParseDayTimeframe(TagOr(tv, "daytimeframe", "")) }

  function TimeRange(tv: Record): string {
    FormatTime(TagOr(tv, "starttimetimeframe", "")) + "-" + FormatTime(TagOr(tv, "endtimetimeframe", ""))
  }

  /** `day_schedules`: day names in first-seen order, each with its set of time ranges kept as
      a sorted list. */
  type Schedule = seq<(string, seq<string>)>

  function Days(s: Schedule): (ds: seq<string>)
    ensures |ds| == |s|
    ensures forall i :: 0 <= i < |s| ==> ds[i] == s[i].0
  {
    if s == [] then [] else [s[0].0] + Days(s[1..])
  }

  /** `day_schedules[d]`, empty when the day is absent. */
  function HoursOf(s: Schedule, d: string): seq<string> {
    if s == [] then [] else if s[0].0 == d then s[0].1 else HoursOf(s[1..], d)
  }

  /** `day_schedules[d].add(h)` on the defaultdict. */
  function AddRange(s: Schedule, d: string, h: string): Schedule {
    if s == [] then [(d, [h])]
    else if s[0].0 == d then [(d, Insert(s[0].1, h))] + s[1..]
    else [s[0]] + AddRange(s[1..], d, h)
  }

  predicate WellFormed(s: Schedule) {
    && (forall i, j :: 0 <= i < j < |s| ==> s[i].0 != s[j].0)
    && (forall i :: 0 <= i < |s| ==> s[i].1 != [] && StrictlySorted(s[i].1))
  }

  /** Adding a range appends a new day at the end and leaves the day order alone otherwise. */
  lemma {:induction false} AddRangeDays(s: Schedule, d: string, h: string)
    ensures Days(AddRange(s, d, h)) == if d in Days(s) then Days(s) else Days(s) + [d]
  {
    if s != [] {
      var t := s[1..];
      assert Days(s) == [s[0].0] + Days(t);
      if s[0].0 == d {
        assert Days(AddRange(s, d, h)) == [d] + Days(t);
      } else {
        AddRangeDays(t, d, h);
        assert Days(AddRange(s, d, h)) == [s[0].0] + Days(AddRange(t, d, h));
      }
    }
  }

  /** Adding a range adds it to that day's set only. */
  lemma {:induction false} AddRangeHours(s: Schedule, d: string, h: string, e: string)
    requires WellFormed(s)
    ensures HoursOf(AddRange(s, d, h), e) == if e == d then Insert(HoursOf(s, d), h) else HoursOf(s, e)
  {
    if s != [] && s[0].0 != d {
      var t := s[1..];
      assert WellFormed(t) by {
        assert forall i :: 0 <= i < |t| ==> t[i] == s[i + 1];
      }
      AddRangeHours(t, d, h, e);
    }
  }

  /** Adding a range keeps the days distinct and the hours sorted. */
  lemma {:induction false} AddRangeWellFormed(s: Schedule, d: string, h: string)
    requires WellFormed(s)
    ensures WellFormed(AddRange(s, d, h))
  {
    if s == [] {
    } else if s[0].0 == d {
      InsertSorted(s[0].1, h);
      var r := AddRange(s, d, h);
      assert Days(r) == Days(s) by {
        AddRangeDays(s, d, h);
      }
    } else {
      var t := s[1..];
      assert WellFormed(t) by {
        assert forall i :: 0 <= i < |t| ==> t[i] == s[i + 1];
      }
      AddRangeWellFormed(t, d, h);
      AddRangeDays(t, d, h);
      var r := AddRange(s, d, h);
      assert r == [s[0]] + AddRange(t, d, h);
      assert s[0].0 !in Days(t) by {
        forall k | 0 <= k < |t| ensures Days(t)[k] != s[0].0 { assert t[k] == s[k + 1]; }
      }
      forall i, j | 0 <= i < j < |r| ensures r[i].0 != r[j].0 {
        if i == 0 {
          assert r[j].0 == Days(AddRange(t, d, h))[j - 1];
        } else {
          assert r[i] == AddRange(t, d, h)[i - 1] && r[j] == AddRange(t, d, h)[j - 1];
        }
      }
      forall i | 0 <= i < |r| ensures r[i].1 != [] && StrictlySorted(r[i].1) {
        if i > 0 { assert r[i] == AddRange(t, d, h)[i - 1]; }
      }
    }
  }

  /** Adding a range keeps the days distinct and the hours sorted, appends a new day at the end,
      and adds the range to that day's set only. */
  lemma AddRangeSpec(s: Schedule, d: string, h: string)
    requires WellFormed(s)
    ensures WellFormed(AddRange(s, d, h))
    ensures Days(AddRange(s, d, h)) == if d in Days(s) then Days(s) else Days(s) + [d]
    ensures forall e :: HoursOf(AddRange(s, d, h), e) == if e == d then Insert(HoursOf(s, d), h) else HoursOf(s, e)
  {
    AddRangeWellFormed(s, d, h);
    AddRangeDays(s, d, h);
    forall e ensures HoursOf(AddRange(s, d, h), e) == if e == d then Insert(HoursOf(s, d), h) else HoursOf(s, e) {
      AddRangeHours(s, d, h, e);
    }
  }

  /** The (day, range) pair a record adds, if it contributes. */
  function EntryOf(tv: Record): seq<(string, string)> {
    if Contributes(tv) then [(DayName(tv), TimeRange(tv))] else []
  }

  /** The (day, range) pairs the contributing records add, in record order. */
  function RangeEntries(tvs: seq<Record>): seq<(string, string)> {
    FlatMap(EntryOf, tvs)
  }

  /** The schedule that adding `entries` one by one to an empty one builds. */
  function Grouped(entries: seq<(string, string)>): Schedule {
    if entries == [] then []
    else
      var e := entries[|entries| - 1];
      AddRange(Grouped(entries[..|entries| - 1]), e.0, e.1)
  }

  /** `day_schedules` after the loop has seen `tvs`. */
  function Schedules(tvs: seq<Record>): Schedule {
    Grouped(RangeEntries(tvs))
  }

  /** The positive `int(maxdurationright)` of a record, if any. */
  function PositiveDuration(tv: Record): Option<int> {
    var m := TagOr(tv, "maxdurationright", "");
    if m == [] then None
    else match ParseInt(m)
      case Some(d) => if d > 0 then Some(d) else None
      case None => None
  }

  /** The value of `pd` at the first record where it is defined, once found kept. */
  function FirstDefined(pd: Record -> Option<int>, tvs: seq<Record>): Option<int> {
    if tvs == [] then None
    else
      var p := FirstDefined(pd, tvs[..|tvs| - 1]);
      if p.Some? then p else pd(tvs[|tvs| - 1])
  }

  /** `max_duration` after the loop has seen `tvs`: fixed by the first positive duration. */
  function MaxDuration(tvs: seq<Record>): Option<int> {
    FirstDefined(PositiveDuration, tvs)
  }

  lemma SchedulesSnoc(tvs: seq<Record>, tv: Record)
    ensures Schedules(tvs + [tv]) ==
      if Contributes(tv) then AddRange(Schedules(tvs), DayName(tv), TimeRange(tv)) else Schedules(tvs)
    ensures MaxDuration(tvs + [tv]) == if MaxDuration(tvs).Some? then MaxDuration(tvs) else PositiveDuration(tv)
  {
    FlatMapSnoc(EntryOf, tvs, tv);
    var es := RangeEntries(tvs);
    if Contributes(tv) {
      assert (es + EntryOf(tv))[..|es|] == es;
    } else {
      assert es + EntryOf(tv) == es;
    }
    assert (tvs + [tv])[..|tvs|] == tvs;
  }

  /** A day with at least one time range: the `if times` test. */
  predicate NonEmptyDay(e: (string, seq<string>)) { e.1 != [] }

  /** The body of the loop over the time-frame records. */
  method RegulationStep(daySchedules0: Schedule, maxDuration0: Option<int>, tv: Record)
    returns (daySchedules: Schedule, maxDuration: Option<int>)
    ensures daySchedules == if Contributes(tv) then AddRange(daySchedules0, DayName(tv), TimeRange(tv)) else daySchedules0
    ensures maxDuration == if maxDuration0.Some? then maxDuration0 else PositiveDuration(tv)
  {
    daySchedules, maxDuration := daySchedules0, maxDuration0;
    var maxDur := TagOr(tv, "maxdurationright", "");
    if maxDur != [] && maxDuration.None? {
      var dur := ParseInt(maxDur);
      if dur.Some? && dur.value > 0 {
        maxDuration := dur;
      }
    }
    if Contributes(tv) {
      daySchedules := AddRange(daySchedules, DayName(tv), TimeRange(tv));
    }
  }

  /** The time-regulation block of `main` for one area's time-frame records. */
  method TimeRegulations(tvs: seq<Record>) returns (timeRegulations: Schedule, maxDuration: Option<int>)
    ensures timeRegulations == Schedules(tvs)
    ensures maxDuration == MaxDuration(tvs)
  {
    var daySchedules: Schedule := [];
    maxDuration := None;
    var i := 0;
    while i < |tvs|
      invariant 0 <= i <= |tvs|
      invariant daySchedules == Schedules(tvs[..i])
      invariant maxDuration == MaxDuration(tvs[..i])
    {
      var tv := tvs[i];
      PrefixSnoc(tvs, i);
      SchedulesSnoc(tvs[..i], tv);
      daySchedules, maxDuration := RegulationStep(daySchedules, maxDuration, tv);
      i := i + 1;
    }
    assert tvs[..|tvs|] == tvs;
    ScheduleWellFormed(tvs);
    FilterKeepsAll(NonEmptyDay, daySchedules);
    timeRegulations := Filter(NonEmptyDay, daySchedules);
  }

  /** The grouped days are distinct, each with a non-empty sorted list of distinct ranges. */
  lemma {:induction false} GroupedWellFormed(entries: seq<(string, string)>)
    ensures WellFormed(Grouped(entries))
  {
    if entries != [] {
      var e := entries[|entries| - 1];
      GroupedWellFormed(entries[..|entries| - 1]);
      AddRangeSpec(Grouped(entries[..|entries| - 1]), e.0, e.1);
    }
  }

  lemma ScheduleWellFormed(tvs: seq<Record>)
    ensures WellFormed(Schedules(tvs))
  {
    GroupedWellFormed(RangeEntries(tvs));
  }

  /** A range is listed under a day exactly when the pair was added. */
  lemma {:induction false} GroupedHours(entries: seq<(string, string)>, d: string, h: string)
    ensures h in HoursOf(Grouped(entries), d) <==> (d, h) in entries
  {
    if entries != [] {
      var p := entries[..|entries| - 1];
      var e := entries[|entries| - 1];
      GroupedHours(p, d, h);
      GroupedWellFormed(p);
      AddRangeSpec(Grouped(p), e.0, e.1);
      InsertMembers(HoursOf(Grouped(p), e.0), e.1);
      assert entries == p + [e];
    }
  }

  /** Record `tv` adds range `h` under day `d`. */
  predicate Produces(tv: Record, d: string, h: string) {
    Contributes(tv) && DayName(tv) == d && TimeRange(tv) == h
  }

  /** The added pairs are exactly those some contributing record produces. */
  lemma RangeEntriesMembers(tvs: seq<Record>, d: string, h: string)
    ensures (d, h) in RangeEntries(tvs) <==> exists i :: 0 <= i < |tvs| && Produces(tvs[i], d, h)
  {
    FlatMapMembers(EntryOf, tvs, (d, h));
    assert forall i :: 0 <= i < |tvs| ==> ((d, h) in EntryOf(tvs[i]) <==> Produces(tvs[i], d, h));
  }

  /** A range is listed under a day exactly when some contributing record produced both. */
  lemma ScheduleHours(tvs: seq<Record>, d: string, h: string)
    ensures h in HoursOf(Schedules(tvs), d) <==> exists i :: 0 <= i < |tvs| && Produces(tvs[i], d, h)
  {
    GroupedHours(RangeEntries(tvs), d, h);
    RangeEntriesMembers(tvs, d, h);
  }

  lemma {:induction false} FirstDefinedNone(pd: Record -> Option<int>, tvs: seq<Record>)
    ensures FirstDefined(pd, tvs).None? <==> forall i :: 0 <= i < |tvs| ==> pd(tvs[i]).None?
  {
    if tvs != [] {
      var p := tvs[..|tvs| - 1];
      FirstDefinedNone(pd, p);
      assert forall i :: 0 <= i < |p| ==> p[i] == tvs[i];
    }
  }

  lemma {:induction false} FirstDefinedAt(pd: Record -> Option<int>, tvs: seq<Record>) returns (i: nat)
    requires FirstDefined(pd, tvs).Some?
    ensures i < |tvs| && pd(tvs[i]) == FirstDefined(pd, tvs)
    ensures forall j :: 0 <= j < i ==> pd(tvs[j]).None?
  {
    var p := tvs[..|tvs| - 1];
    if FirstDefined(pd, p).Some? {
      i := FirstDefinedAt(pd, p);
      assert tvs[i] == p[i];
      forall j | 0 <= j < i ensures pd(tvs[j]).None? {
        assert tvs[j] == p[j];
      }
    } else {
      i := |tvs| - 1;
      FirstDefinedNone(pd, p);
      forall j | 0 <= j < i ensures pd(tvs[j]).None? {
        assert tvs[j] == p[j];
      }
    }
  }

  /** No record contributes a positive duration exactly when `max_duration` stays `None`. */
  lemma MaxDurationNone(tvs: seq<Record>)
    ensures MaxDuration(tvs).None? <==> forall i :: 0 <= i < |tvs| ==> PositiveDuration(tvs[i]).None?
  {
    FirstDefinedNone(PositiveDuration, tvs);
  }

  /** `max_duration` is the first positive duration among the records. */
  lemma MaxDurationFirst(tvs: seq<Record>) returns (i: nat)
    requires MaxDuration(tvs).Some?
    ensures i < |tvs| && PositiveDuration(tvs[i]) == MaxDuration(tvs)
    ensures forall j :: 0 <= j < i ==> PositiveDuration(tvs[j]).None?
  {
    i := FirstDefinedAt(PositiveDuration, tvs);
  }

  // ---- facility strings ----

  predicate IsParkAndRide(d: string) {
    Contains(d, "p+r") || Contains(d, "park & ride") || Contains(d, "park and ride")
  }

  /** "carpoolplaats" contains "carpool", so the second test of that branch adds nothing. */
  lemma CarpoolplaatsIsCarpool(d: string)
    ensures Contains(d, "carpoolplaats") ==> Contains(d, "carpool")
  {
    if Contains(d, "carpoolplaats") {
      ContainsPrefixOfNeedle(d, "carpoolplaats", "carpool");
    }
  }

  /** The type of an RDW area from its lower-cased description, first match wins. */
  function AreaType(areaDesc: string): (t: string)
    ensures t in {"p_and_r", "surface", "street_paid", "garage"}
    ensures t == "p_and_r" <==> IsParkAndRide(Lower(areaDesc))
    ensures t == "surface" <==>
      !IsParkAndRide(Lower(areaDesc)) && (Contains(Lower(areaDesc), "carpool") || Contains(Lower(areaDesc), "terrein") || Contains(Lower(areaDesc), "terrain"))
    ensures t == "street_paid" <==>
      !IsParkAndRide(Lower(areaDesc)) &&
      !Contains(Lower(areaDesc), "carpool") && !Contains(Lower(areaDesc), "terrein") && !Contains(Lower(areaDesc), "terrain") &&
      Contains(Lower(areaDesc), "straat")
  {
    var d := Lower(areaDesc);
    CarpoolplaatsIsCarpool(d);
    if IsParkAndRide(d) then "p_and_r"
    else if Contains(d, "carpool") || Contains(d, "carpoolplaats") then "surface"
    else if Contains(d, "terrein") || Contains(d, "terrain") then "surface"
    else if Contains(d, "straat") then "street_paid"
    else "garage"
  }

  /** The first address part: "street housenr", or the street alone. */
  function StreetPart(street: string, houseNr: string): string {
    if houseNr != [] then street + " " + houseNr else street
  }

  /** The second address part: "zip city", or the city alone. */
  function CityPart(zipcode: string, city: string): string {
    if zipcode != [] then zipcode + " " + city else city
  }

  /** `full_address`: the street part when there is a street and the city part when there is a
      city, joined by ", "; a postcode without a city is dropped. */
  function FullAddress(street: string, houseNr: string, zipcode: string, city: string): (r: string)
    ensures street == [] && city == [] ==> r == []
    ensures street != [] && city == [] ==> r == StreetPart(street, houseNr)
    ensures street == [] && city != [] ==> r == CityPart(zipcode, city)
    ensures street != [] && city != [] ==> r == StreetPart(street, houseNr) + ", " + CityPart(zipcode, city)
    ensures r == [] <==> street == [] && city == []
  {
    var first := if street != [] then [StreetPart(street, houseNr)] else [];
    var second := if zipcode != [] && city != [] then [zipcode + " " + city] else if city != [] then [city] else [];
    JoinTwo(StreetPart(street, houseNr), CityPart(zipcode, city), ", ");
    Join(first + second, ", ")
  }

  /** The address fields of a facility: `place`, falling back to the municipality name. */
  function AddressOf(addr: Record, municipalityName: string): string {
    var place := TagOr(addr, "place", "");
    FullAddress(TagOr(addr, "streetname", ""), TagOr(addr, "housenumber", ""), TagOr(addr, "zipcode", ""),
                if place != [] then place else municipalityName)
  }

  /** `opening_hours_str` from the two flags, each true only for the string "1". */
  function OpeningHours(hours: Record): (r: Option<string>)
    ensures r == Some("24/7") <==> TagIs(hours, "exitpossibleallday", "1") && TagIs(hours, "openallyear", "1")
    ensures r == Some("24h") <==> TagIs(hours, "exitpossibleallday", "1") && !TagIs(hours, "openallyear", "1")
    ensures r == Some("Open all year") <==> !TagIs(hours, "exitpossibleallday", "1") && TagIs(hours, "openallyear", "1")
    ensures r.None? <==> !TagIs(hours, "exitpossibleallday", "1") && !TagIs(hours, "openallyear", "1")
  {
    var open24h := TagIs(hours, "exitpossibleallday", "1");
    var openAllYear := TagIs(hours, "openallyear", "1");
    if open24h && openAllYear then Some("24/7")
    else if open24h then Some("24h")
    else if openAllYear then Some("Open all year")
    else None
  }
}
