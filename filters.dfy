/** The feature filters of the two locality indexes. */
module Filters {
  import opened Features

  /** The regions index keeps area features only. */
  predicate RegionsFilter(fb: Feature)
  {
    IsArea(fb)
  }

  /** What the geo-objects filter captures: the parsed POI whitelist, whether a streets file was given,
      and whether POIs are admitted at all (the whitelist is non-empty). */
  datatype GeoObjectsFilterConfig = GeoObjectsFilterConfig(nodeIds: set<uint64>, allowStreet: bool, allowPoi: bool)

  function MakeGeoObjectsFilterConfig(nodeIds: set<uint64>, hasStreetsFile: bool): (c: GeoObjectsFilterConfig)
  {
    GeoObjectsFilterConfig(nodeIds, hasStreetsFile, |nodeIds| != 0)
  }

  /** The geo-objects filter as the source writes it: three early accepts, the POI test deciding
      alone once it applies. */
  predicate GeoObjectsFilter(c: GeoObjectsFilterConfig, fb: Feature)
  {
    if fb.isBuilding || fb.hasHouse then true
    else if c.allowStreet && fb.isStreet then true
    else if c.allowPoi && fb.isPoi then fb.encodedId in c.nodeIds
    else false
  }

  /** The filter accepts exactly the buildings, the features with a house, the streets when a streets file
      was given, and the whitelisted POIs when the whitelist is non-empty. */
  lemma GeoObjectsFilterAccepts(nodeIds: set<uint64>, hasStreetsFile: bool, fb: Feature)
    ensures GeoObjectsFilter(MakeGeoObjectsFilterConfig(nodeIds, hasStreetsFile), fb) <==>
      fb.isBuilding || fb.hasHouse || (hasStreetsFile && fb.isStreet) || (fb.isPoi && fb.encodedId in nodeIds)
  {
  }
}
