/** scripts/fetch_elburg_parking.py: the city extraction with Elburg's constants. */
module Elburg {
  import opened Geo
  import opened Props
  import opened Osm
  import CitySpaces
  import opened Seqs
  import Tally

  /** `ELBURG_BBOX` (south 52.40, north 52.50, west 5.75, east 5.95), in Gelderland. */
  const Elburg: CitySpaces.City := CitySpaces.City("Elburg", "Gelderland", Box(52.40, 52.50, 5.75, 5.95))

  /** `main`: every kept record is a Gelderland OSM record inside the box or an Elburg
      parking space; they are the first record per id of the areas followed by the spaces, none
      lost and in order; `by_type` counts their types and adds up to the total. */
  method CombineSources(osmFeatures: seq<Properties>, spacesRaw: seq<Element>)
    returns (unique: seq<Properties>, total: nat, byType: Tally.Counter<Value>, parkingAreas: nat, parkingSpaces: nat)
    requires forall f :: f in osmFeatures ==> CitySpaces.FilterDefined(Elburg, f)
    requires forall f :: f in osmFeatures && CitySpaces.InCity(Elburg, f) ==> "id" in f
    requires forall e :: e in spacesRaw ==> CitySpaces.SpaceDefined(e)
    ensures forall f :: f in unique ==>
      (f in osmFeatures && IsNumber(CitySpaces.LonOf(f)) && IsNumber(CitySpaces.LatOf(f)) && Get(f, "province") == VStr("Gelderland") &&
       5.75 < NumberValue(CitySpaces.LonOf(f)) < 5.95 && 52.40 < NumberValue(CitySpaces.LatOf(f)) < 52.50) ||
      ("municipality" in f && f["municipality"] == VStr("Elburg"))
    ensures parkingAreas == |CitySpaces.ExtractFromOsm(Elburg, osmFeatures)|
    ensures parkingSpaces == |FlatMap(e => CitySpaces.SpaceRecord(Elburg, e), spacesRaw)|
    ensures unique == KeepFirst(CitySpaces.ExtractFromOsm(Elburg, osmFeatures) + FlatMap(e => CitySpaces.SpaceRecord(Elburg, e), spacesRaw), CitySpaces.IdOf)
    ensures CitySpaces.DistinctIds(unique)
    ensures KeySet(unique, CitySpaces.IdOf) ==
      KeySet(CitySpaces.ExtractFromOsm(Elburg, osmFeatures) + FlatMap(e => CitySpaces.SpaceRecord(Elburg, e), spacesRaw), CitySpaces.IdOf)
    ensures IsSubsequence(unique, CitySpaces.ExtractFromOsm(Elburg, osmFeatures) + FlatMap(e => CitySpaces.SpaceRecord(Elburg, e), spacesRaw))
    ensures total == |unique| <= parkingAreas + parkingSpaces
    ensures byType == Tally.CountOf(Map(CitySpaces.TypeOrOther, unique))
    ensures Tally.Total(byType) == total
  {
    unique, total, byType, parkingAreas, parkingSpaces := CitySpaces.CombineSources(Elburg, osmFeatures, spacesRaw);
  }
}
