/** The values the generator reads and produces: raw features (FeatureBuilder), locality objects and
    covering entries. */
module Features {

  const UINT64_LIMIT: int := 0x1_0000_0000_0000_0000

  /** An unsigned 64-bit value (uint64_t, size_t). */
  type uint64 = x: int | 0 <= x < UINT64_LIMIT

  /** One byte of a serialised section. */
  type byte = x: int | 0 <= x < 256

  /** A point of the Mercator plane (m2::PointD). No arithmetic is done on coordinates in this model:
      every geometric computation is an oracle. */
  datatype PointD = PointD(x: real, y: real)

  /** feature::GeomType; the switch in the locality object builder treats any other kind as unreachable. */
  datatype GeomType = Undefined | Point | Line | Area

  /** A raw feature as read from the intermediate .dat stream. The type-classification attributes and the
      serialised border are opaque to this model and are carried as plain fields. */
  datatype Feature = Feature(
    geomType: GeomType,
    encodedId: uint64,             // GetMostGenericOsmId().GetEncodedId()
    keyPoint: PointD,              // GetKeyPoint()
    geometry: seq<seq<PointD>>,    // GetGeometry(): the raw rings (polygons) of the feature
    isBuilding: bool,              // GeoObjectsFilter::IsBuilding
    hasHouse: bool,                // GeoObjectsFilter::HasHouse
    isStreet: bool,                // StreetsFilter::IsStreet
    isPoi: bool,                   // GeoObjectsFilter::IsPoi
    border: seq<byte>)             // SerializeBorderForIntermediate output

  predicate IsArea(fb: Feature) { fb.geomType == Area }

  predicate IsLine(fb: Feature) { fb.geomType == Line }

  /** indexer::LocalityObject: an id, a point list and a triangle list, each set by its own setter. */
  datatype LocalityObject = LocalityObject(id: uint64, points: seq<PointD>, triangles: seq<PointD>)

  /** A default-constructed locality object. */
  const EmptyObject: LocalityObject := LocalityObject(0, [], [])

  /** One element of covering::LocalitiesCovering: an object id and a cell it occupies. */
  datatype CoveringEntry = CoveringEntry(objectId: uint64, cellId: int)
}
