/** The public generation entry points for the regions and geo-objects locality indexes. */
module LocalityIndexGenerator {
  import opened Wrappers
  import opened Features
  import opened Sequences
  import opened NodeIds
  import opened Filters
  import opened Normalizer
  import opened CoveringPipeline

  function RegionsEnv<H>(geometry: GeometryOracles<H>, indexBuilder: IndexBuilderOracles): LocalityIndexEnv<H>
  {
    LocalityIndexEnv(geometry, fb => RegionsFilter(fb), indexBuilder)
  }

  function GeoObjectsEnv<H>(geometry: GeometryOracles<H>, indexBuilder: IndexBuilderOracles, config: GeoObjectsFilterConfig)
    : LocalityIndexEnv<H>
  {
    LocalityIndexEnv(geometry, fb => GeoObjectsFilter(config, fb), indexBuilder)
  }

  /** GenerateRegionsIndex: the generic generation run with the areas-only filter. */
  method GenerateRegionsIndex<H>(geometry: GeometryOracles<H>, indexBuilder: IndexBuilderOracles,
                                 outPath: string, workers: seq<seq<Feature>>)
    returns (r: IndexOutcome)
    ensures r == LocalityIndexOutcome(RegionsEnv(geometry, indexBuilder), workers, outPath)
    ensures r == Finished(false) <==>
      WorkerCoverings(RegionsEnv(geometry, indexBuilder), workers).Some? &&
      !indexBuilder.buildCoveringIndex(ConcatFromLast(WorkerCoverings(RegionsEnv(geometry, indexBuilder), workers).value), outPath)
  {
    r := GenerateLocalityIndex(RegionsEnv(geometry, indexBuilder), workers, outPath);
  }

  /** The regions index covers the same entries however the features are handed to the workers. */
  lemma RegionsIndexIgnoresPartition<H>(geometry: GeometryOracles<H>, indexBuilder: IndexBuilderOracles,
                                        workers1: seq<seq<Feature>>, workers2: seq<seq<Feature>>)
    requires multiset(Flatten(workers1)) == multiset(Flatten(workers2))
    ensures var env := RegionsEnv(geometry, indexBuilder);
      (WorkerCoverings(env, workers1).None? <==> WorkerCoverings(env, workers2).None?) &&
      (WorkerCoverings(env, workers1).Some? ==>
        multiset(ConcatFromLast(WorkerCoverings(env, workers1).value)) ==
        multiset(ConcatFromLast(WorkerCoverings(env, workers2).value)))
  {
    AreasOnlyCoveringIgnoresPartition(RegionsEnv(geometry, indexBuilder), workers1, workers2);
  }

  /** The whitelist GenerateGeoObjectsIndex starts from: empty without a nodes file, else what
      ParseNodes makes of the file. */
  function WhitelistResult(nodesFile: Option<string>, nodesFileLines: Option<seq<string>>): Result<set<uint64>, ParseError>
  {
    if nodesFile.None? then Ok({}) else ParseNodesResult(nodesFile.value, nodesFileLines, {})
  }

  /** GenerateGeoObjectsIndex: load the optional whitelist (failing at once on a bad file), then run the
      generic generation with the geo-objects filter. `workers` are the features of the geo-objects file,
      followed by those of the streets file when one is given, as the reader hands them to each worker. */
  method GenerateGeoObjectsIndex<H>(geometry: GeometryOracles<H>, indexBuilder: IndexBuilderOracles,
                                    outPath: string, workers: seq<seq<Feature>>,
                                    nodesFile: Option<string>, nodesFileLines: Option<seq<string>>,
                                    hasStreetsFile: bool)
    returns (r: IndexOutcome)
    ensures WhitelistResult(nodesFile, nodesFileLines).Err? ==> r == Finished(false)
    ensures WhitelistResult(nodesFile, nodesFileLines).Ok? ==>
      r == LocalityIndexOutcome(
        GeoObjectsEnv(geometry, indexBuilder,
          MakeGeoObjectsFilterConfig(WhitelistResult(nodesFile, nodesFileLines).value, hasStreetsFile)),
        workers, outPath)
  {
    var nodeIds: set<uint64> := {};
    if nodesFile.Some? {
      var parsed := ParseNodes(nodesFile.value, nodesFileLines, nodeIds);
      if parsed.Err? {
        return Finished(false);
      }
      nodeIds := parsed.value;
    }
    var config := MakeGeoObjectsFilterConfig(nodeIds, hasStreetsFile);
    r := GenerateLocalityIndex(GeoObjectsEnv(geometry, indexBuilder, config), workers, outPath);
  }

  /** With the whitelist {42} and no streets file, a POI whose id is 43 and that is neither a building
      nor has a house is rejected, while the same POI with id 42 is accepted. */
  lemma GeoObjectsWhitelistExample(poi: Feature)
    requires poi.isPoi && !poi.isBuilding && !poi.hasHouse
    ensures !GeoObjectsFilter(MakeGeoObjectsFilterConfig({42}, false), poi.(encodedId := 43))
    ensures GeoObjectsFilter(MakeGeoObjectsFilterConfig({42}, false), poi.(encodedId := 42))
  {
  }

  /** Geometry in which every source has one point, a holder needs triangles until a strip has been
      made (holder 0 before, 1 after), every strip succeeds and leaves three inner points. */
  function StripOnceGeometry(): GeometryOracles<int>
  {
    var p := PointD(0.0, 0.0);
    GeometryOracles(
      fb => 0, h => [p], ps => ps, (h, ps) => h, h => h == 0,
      (h, ps) => StripAttempt(true, 1, ps), h => h, ps => ps,
      h => [], h => [p, p, p], ps => ps)
  }

  /** Cover that records, for each object, its id and how many triangle points it carries. */
  function TriangleCountCover(): IndexBuilderOracles
  {
    IndexBuilderOracles((o: LocalityObject) => [CoveringEntry(o.id, |o.triangles|)], (c, path) => true)
  }

  const Origin: PointD := PointD(0.0, 0.0)

  /** A building area of two rings holding three points in all, with id 1. */
  const BuildingArea: Feature := Feature(Area, 1, Origin, [[Origin, Origin], [Origin]], true, false, false, false, [])

  /** A building point with id 2. */
  const BuildingPoint: Feature := Feature(Point, 2, Origin, [], true, false, false, false, [])

  function ExampleEnv(): LocalityIndexEnv<int>
  {
    GeoObjectsEnv(StripOnceGeometry(), TriangleCountCover(), MakeGeoObjectsFilterConfig({}, false))
  }

  /** The area, built from a fresh object, carries three triangle points. */
  lemma ExampleAreaStep()
    ensures ProcessFeature(ExampleEnv(), EmptyObject, BuildingArea) ==
      Continue([CoveringEntry(1, 3)], LocalityObject(1, [], [Origin, Origin, Origin]))
  {
    var o := StripOnceGeometry();
    assert AreaPoints(BuildingArea, Simplified(o, BuildingArea)) == [Origin, Origin, Origin] by {
      var g := BuildingArea.geometry;
      assert g[..1] == [[Origin, Origin]];
      assert g[..1][..0] == [];
    }
    assert Normalize(o, BuildingArea) == Some(1);
  }

  /** The point keeps the triangles of the object it is built on. */
  lemma ExamplePointStep(held: LocalityObject)
    ensures ProcessFeature(ExampleEnv(), held, BuildingPoint) ==
      Continue([CoveringEntry(2, |held.triangles|)], LocalityObject(2, [Origin], held.triangles))
  {
    assert Normalize(StripOnceGeometry(), BuildingPoint) == Some(0);
  }

  /** One worker fed the area, then the point. */
  lemma ExampleSharedWorker()
    ensures WorkerRun(ExampleEnv(), EmptyObject, [BuildingArea, BuildingPoint]) ==
      Some(WorkerState([CoveringEntry(1, 3), CoveringEntry(2, 3)], LocalityObject(2, [Origin], [Origin, Origin, Origin])))
  {
    var env, fs := ExampleEnv(), [BuildingArea, BuildingPoint];
    var built := LocalityObject(1, [], [Origin, Origin, Origin]);
    ExampleAreaStep();
    ExamplePointStep(built);
    assert fs[..0] == [] && fs[..2] == fs;
    assert [] + [CoveringEntry(1, 3)] == [CoveringEntry(1, 3)];
    WorkerRunNext(env, fs, 0, WorkerState([], EmptyObject));
    WorkerRunNext(env, fs, 1, WorkerState([CoveringEntry(1, 3)], built));
    assert [CoveringEntry(1, 3)] + [CoveringEntry(2, 3)] == [CoveringEntry(1, 3), CoveringEntry(2, 3)];
  }

  /** Each feature on a worker of its own. */
  lemma ExampleSeparateWorkers()
    ensures WorkerRun(ExampleEnv(), EmptyObject, [BuildingArea]) ==
      Some(WorkerState([CoveringEntry(1, 3)], LocalityObject(1, [], [Origin, Origin, Origin])))
    ensures WorkerRun(ExampleEnv(), EmptyObject, [BuildingPoint]) ==
      Some(WorkerState([CoveringEntry(2, 0)], LocalityObject(2, [Origin], [])))
  {
    var env := ExampleEnv();
    ExampleAreaStep();
    ExamplePointStep(EmptyObject);
    assert [BuildingArea][..0] == [] && [BuildingPoint][..0] == [];
    assert [] + [CoveringEntry(1, 3)] == [CoveringEntry(1, 3)];
    assert [] + [CoveringEntry(2, 0)] == [CoveringEntry(2, 0)];
    WorkerRunNext(env, [BuildingArea], 0, WorkerState([], EmptyObject));
    WorkerRunNext(env, [BuildingPoint], 0, WorkerState([], EmptyObject));
  }

  /** A geo-objects run whose entries depend on how the features are split between the workers: a
      building area followed by a building point on one worker gives the point the area's three
      triangle points; on a worker of its own the point has none. */
  lemma GeoObjectsCoveringDependsOnPartition()
    ensures Flatten([[BuildingArea, BuildingPoint]]) == Flatten([[BuildingArea], [BuildingPoint]])
    ensures WorkerCoverings(ExampleEnv(), [[BuildingArea, BuildingPoint]]) ==
      Some([[CoveringEntry(1, 3), CoveringEntry(2, 3)]])
    ensures WorkerCoverings(ExampleEnv(), [[BuildingArea], [BuildingPoint]]) ==
      Some([[CoveringEntry(1, 3)], [CoveringEntry(2, 0)]])
  {
    var area, point := BuildingArea, BuildingPoint;
    FlattenCons([area, point], []);
    FlattenCons([area], [[point]]);
    FlattenCons([point], []);
    assert [[area, point]] == [[area, point]] + [];
    assert [[point]] == [[point]] + [];
    ExampleSharedWorker();
    ExampleSeparateWorkers();
    var one, two := [[area, point]], [[area], [point]];
    var e1, e2, e0 := CoveringEntry(1, 3), CoveringEntry(2, 3), CoveringEntry(2, 0);
    assert one[..0] == [] && two[..1] == [[area]] && [[area]][..0] == [];
    assert one[|one| - 1] == [area, point] && two[|two| - 1] == [point] && [[area]][0] == [area];
    assert [] + [[e1, e2]] == [[e1, e2]];
    assert [] + [[e1]] == [[e1]] && [[e1]] + [[e0]] == [[e1], [e0]];
    assert WorkerCoverings(ExampleEnv(), [[area]]) == Some([[e1]]);
  }
}
