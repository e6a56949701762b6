/** scripts/fetch_rotterdam_parking.py: the city extraction with Rotterdam's constants. */
module Rotterdam {
  import opened Geo
  import opened Props
  import opened Osm
  import CitySpaces
  import opened Seqs
  import Tally

  /** `ROTTERDAM_BBOX` (south 51.85, north 52.0, west 4.35, east 4.65), in Zuid-Holland. */
  const Rotterdam: CitySpaces.City := CitySpaces.City("Rotterdam", "Zuid-Holland", Box(51.85, 52.0, 4.35, 4.65))

  /** `main`: every kept record is a Zuid-Holland OSM record inside the box or a Rotterdam
      parking space; they are the first record per id of the areas followed by the spaces, none
      lost and in order; `by_type` counts their types and adds up to the total. */
  method CombineSources(osmFeatures: seq<Properties>, spacesRaw: seq<Element>)
    returns (unique: seq<Properties>, total: nat, byType: Tally.Counter<Value>, parkingAreas: nat, parkingSpaces: nat)
    requires forall f :: f in osmFeatures ==> CitySpaces.FilterDefined(Rotterdam, f)
    requires forall f :: f in osmFeatures && CitySpaces.InCity(Rotterdam, f) ==> "id" in f
    requires forall e :: e in spacesRaw ==> CitySpaces.SpaceDefined(e)
    ensures forall f :: f in unique ==>
      (f in osmFeatures && IsNumber(CitySpaces.LonOf(f)) && IsNumber(CitySpaces.LatOf(f)) && Get(f, "province") == VStr("Zuid-Holland") &&
       4.35 < NumberValue(CitySpaces.LonOf(f)) < 4.65 && 51.85 < NumberValue(CitySpaces.LatOf(f)) < 52.0) ||
      ("municipality" in f && f["municipality"] == VStr("Rotterdam"))
    ensures parkingAreas == |CitySpaces.ExtractFromOsm(Rotterdam, osmFeatures)|
    ensures parkingSpaces == |FlatMap(e => CitySpaces.SpaceRecord(Rotterdam, e), spacesRaw)|
    ensures unique == KeepFirst(CitySpaces.ExtractFromOsm(Rotterdam, osmFeatures) + FlatMap(e => CitySpaces.SpaceRecord(Rotterdam, e), spacesRaw), CitySpaces.IdOf)
    ensures CitySpaces.DistinctIds(unique)
    ensures KeySet(unique, CitySpaces.IdOf) ==
      KeySet(CitySpaces.ExtractFromOsm(Rotterdam, osmFeatures) + FlatMap(e => CitySpaces.SpaceRecord(Rotterdam, e), spacesRaw), CitySpaces.IdOf)
    ensures IsSubsequence(unique, CitySpaces.ExtractFromOsm(Rotterdam, osmFeatures) + FlatMap(e => CitySpaces.SpaceRecord(Rotterdam, e), spacesRaw))
    ensures total == |unique| <= parkingAreas + parkingSpaces
    ensures byType == Tally.CountOf(Map(CitySpaces.TypeOrOther, unique))
    ensures Tally.Total(byType) == total
  {
    unique, total, byType, parkingAreas, parkingSpaces := CitySpaces.CombineSources(Rotterdam, osmFeatures, spacesRaw);
  }
}
