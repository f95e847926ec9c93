# Locality index generator — a Dafny model

This project models the decision and bookkeeping logic of the locality index generator
(`generator/locality_index_generator.cpp`) and the region-tree walk `ForEachLevelPath`
(`generator/regions/node.hpp`):

- `NodeIds` (`node_ids.dfy`) — `ParseNodes`, the POI whitelist reader. Each line gives one id:
  the uint64 value of its first space-separated token. The first bad line ends the read and is
  reported by its 1-based number. The file is the sequence of lines `getline` yields, or `None`
  when it cannot be opened.
- `Filters` (`filters.dfy`) — the regions filter (areas only) and the geo-objects filter
  (buildings and features with a house; streets when a streets file is given; POIs that are
  on a non-empty whitelist).
- `Normalizer` (`normalizer.dfy`) — `LocalityObjectBuilder` and `MakeGeometryHolder`. The steps
  are: simplify; drop the feature when nothing is left; add the simplified points to the holder
  of a line; for an area whose holder still needs triangles, pop the closing point; replace the
  points by all raw rings when the feature does not have exactly one ring; try a
  strip on more than two points; retry on the convex hull only when that fails; drop the feature
  when the retry fails or triangles are still needed. Then the point, line or area object is
  built. The geometry itself (simplification, holder, strip, hull, strip expansion) comes from
  a record of oracle functions over an opaque holder state.
- `CoveringPipeline` (`covering_pipeline.dfy`) — `GenerateLocalityIndex`. Each worker has its
  own builder and its own covering list. `Cover` runs only on objects the filter and the
  builder let through. The merge loop appends the last part and pops it until no part is left.
  The run's result is `BuildCoveringIndex`'s verdict.
- `LocalityIndexGenerator` (`locality_index_generator.dfy`) — `GenerateRegionsIndex` and
  `GenerateGeoObjectsIndex`. A whitelist that fails to parse returns false before anything is
  built.
- `Borders` (`borders.dfy`) — `BordersCollector` and `GenerateBorders`. Each area feature adds
  one record: its length as a base-128 varuint, then its bytes. A zero-length record is a fatal
  CHECK. A reader for the section is proved to split it back into the area buffers.
- `RegionTree` (`region_tree.dfy`) — `ForEachLevelPath` as a function returning the nodes the
  callback is called on. It is proved equal to the pre-order node list with the Unknown-level
  nodes removed.

`CHECK` and `UNREACHABLE` abort the process. They appear as explicit outcomes: `Fatal` from the
builder, `Aborted` from a run, `None` from `GenerateBorders`. They are not preconditions.

Points worth knowing about the code:

- The builder reuses one `LocalityObject` per worker. `SetPoints` (points and lines) and
  `SetTriangles` (areas) each replace one field, so an object built for a point or a line keeps
  the triangles of an earlier area built on the same worker. Because of this, the entries of a
  geo-objects run can depend on how the features are split between workers (see "## Findings").
  For filters that admit areas alone (the regions index) the entries are proved not to depend
  on it. The setters live in `indexer/locality_object.hpp`, which is not part of this model;
  they are read as plain setters.
- An area with fewer than three points is not dropped outright. The strip attempt is skipped
  for two points or fewer, and `NeedProcessTriangles` then decides.
- The convex hull is computed from the point list as the first `TryToMakeStrip` left it (the
  list is passed as a variable), not from the points as first prepared.
- The merge takes the parts from the last to the first.

## Model

| member | source | states |
|---|---|---|
| `NodeIds.FirstToken` | generator/locality_index_generator.cpp:221-223 | the tokenizer is empty exactly when the line is all spaces; otherwise its first token is non-empty and holds no space |
| `NodeIds.FirstTokenIgnoresRest` | generator/locality_index_generator.cpp:221-223 | leading spaces are skipped and everything after the first token's delimiter is ignored |
| `NodeIds.ParseUint64` | generator/locality_index_generator.cpp:223 | an accepted token is the decimal numeral of the parsed value, possibly after leading zeros |
| `NodeIds.ParseUint64Numerals` | generator/locality_index_generator.cpp:223 | a token parses to n if and only if n is below 2^64 and the token is n's decimal numeral after any number of leading zeros |
| `NodeIds.ParseUint64RoundTrip` | generator/locality_index_generator.cpp:223 | every 64-bit id written in decimal parses back to itself |
| `NodeIds.ParseLines` | generator/locality_index_generator.cpp:219-231 | a reported failure index always names a line of the file |
| `NodeIds.ParseLinesSucceeds` | generator/locality_index_generator.cpp:219-232 | reading succeeds if and only if every line yields an id |
| `NodeIds.ParseLinesIds` | generator/locality_index_generator.cpp:229 | on success an id is in the set if and only if some line's first token has that value |
| `NodeIds.ParseLinesFirstBad` | generator/locality_index_generator.cpp:218-230 | on failure the reported line yields no id and every earlier line does |
| `NodeIds.ParseNodes` | generator/locality_index_generator.cpp:205-233 | the loop's result: an empty path leaves the set unchanged, an unopenable file fails, otherwise the set gains the lines' ids or the first bad line is reported with its 1-based number and text |
| `NodeIds.WhitelistExampleFirst` | generator/locality_index_generator.cpp:221-229 | the line "123 extra-ignored-token" yields 123 |
| `NodeIds.WhitelistExampleSecond` | generator/locality_index_generator.cpp:221-229 | the line "456" yields 456 |
| `NodeIds.WhitelistExampleRejects` | generator/locality_index_generator.cpp:218-227 | a file whose first line is "abc" fails at line 1 with that line's text |
| `Filters.GeoObjectsFilterAccepts` | generator/locality_index_generator.cpp:257-271 | the filter accepts exactly the buildings, the features with a house, the streets when a streets file is given, and the POIs whose id is on the whitelist |
| `Normalizer.AreaPoints` | generator/locality_index_generator.cpp:116-124 | with one ring the area points are the simplified points without the closing one; otherwise they are all raw rings one after another: ring k sits, unchanged, right after the rings before it, and nothing else is there |
| `Normalizer.Normalize` | generator/locality_index_generator.cpp:96-149 | an empty simplification drops the feature; a point or line with points is kept with its prepared holder; a kept area never still needs triangles |
| `Normalizer.HullOnlyAfterFailedStrip` | generator/locality_index_generator.cpp:126-131 | the convex hull does not affect the outcome unless a strip over more than two points failed |
| `Normalizer.NoStripForTwoPoints` | generator/locality_index_generator.cpp:126 | no strip is attempted on two points or fewer |
| `Normalizer.AreaDroppedWhenHullStripFails` | generator/locality_index_generator.cpp:128-140 | when the strip and the hull strip both fail the area is dropped |
| `Normalizer.AreaKeptWithoutTriangulation` | generator/locality_index_generator.cpp:113-148 | an area that no longer needs triangles once prepared is kept with its prepared holder |
| `Normalizer.AreaOfTwoPointsKeptAsPrepared` | generator/locality_index_generator.cpp:126-148 | an area of two points or fewer is kept with its prepared holder exactly when that holder does not need triangles |
| `Normalizer.AreaKeptAfterFirstStrip` | generator/locality_index_generator.cpp:126-148 | after a successful first strip the area is kept with the strip's holder exactly when it no longer needs triangles |
| `Normalizer.AreaKeptAfterHullStrip` | generator/locality_index_generator.cpp:126-148 | after a failed first strip and a successful hull strip the area is kept with the hull strip's holder exactly when it no longer needs triangles |
| `Normalizer.MakeGeometryHolder` | generator/locality_index_generator.cpp:96-149 | the pop, clear and ring-insertion loop and the strip/hull sequence compute exactly the normalised holder |
| `Normalizer.BuildObject` | generator/locality_index_generator.cpp:52-93 | dropped exactly when normalisation drops; a normalised point or line is always built; the id is the encoded id; a point holds just the key point, a line the holder's inner points; an area aborts exactly when the strip has fewer than 3 points, else holds its expanded triangles; the other geometry field is kept |
| `Normalizer.LocalityObjectBuilder.Apply` | generator/locality_index_generator.cpp:52-93 | the builder hands out BuildObject of the object it held, keeps it when dropping, and leaves the strip in its points buffer for areas |
| `CoveringPipeline.ProcessFeature` | generator/locality_index_generator.cpp:167-175 | a rejected or dropped feature appends nothing and leaves the builder alone; otherwise the builder's object for this feature is what the worker holds afterwards and Cover's entries for it are appended once; abort exactly on a fatal check of an accepted feature |
| `CoveringPipeline.RejectedFeatureChangesNothing` | generator/locality_index_generator.cpp:170-171 | a feature the filter rejects leaves the worker's state unchanged |
| `CoveringPipeline.WorkerRunAppend` | generator/locality_index_generator.cpp:162-178 | a worker over two consecutive stretches of features is the first stretch then the second from the object left behind, coverings concatenated |
| `CoveringPipeline.RunWorker` | generator/locality_index_generator.cpp:162-178 | one worker's processor loop with a fresh builder computes exactly the worker's covering, or aborts when the run aborts |
| `CoveringPipeline.MergedLengthAndEntries` | generator/locality_index_generator.cpp:186-192 | the merged length is the sum of the part lengths and every entry of every part occurs exactly as often as in the parts |
| `CoveringPipeline.MergedPartPosition` | generator/locality_index_generator.cpp:186-192 | part i appears unchanged, right after the merged parts that follow it and before those that precede it |
| `CoveringPipeline.CoveringsParts.EmplaceBack` | generator/locality_index_generator.cpp:163-164 | a new part is added at the end of the list |
| `CoveringPipeline.CoveringsParts.MergeParts` | generator/locality_index_generator.cpp:186-192 | the merged covering is the parts concatenated from the last to the first, and the list is empty afterwards |
| `CoveringPipeline.GenerateLocalityIndex` | generator/locality_index_generator.cpp:156-201 | aborts exactly when a worker aborts; otherwise returns BuildCoveringIndex's verdict on the merged covering of all workers |
| `CoveringPipeline.AreaStepIgnoresHistory` | generator/locality_index_generator.cpp:76-87 | with areas only, a feature's entries do not depend on what the builder processed before |
| `CoveringPipeline.ContributionsPermutation` | generator/locality_index_generator.cpp:167-175 | features each processed from a fresh object give, in any order, the same abort and the same entries with the same multiplicities |
| `CoveringPipeline.FreshIgnoresPartition` | generator/locality_index_generator.cpp:61-87 | with a builder that starts every feature from a fresh object, any way of handing the same features to the workers changes neither abort nor the multiset of merged entries, whatever the filter |
| `CoveringPipeline.AreasOnlyCoveringIgnoresPartition` | generator/locality_index_generator.cpp:181-192 | with areas only, any way of handing the same features to the workers (any assignment, any order) changes neither abort nor the multiset of merged entries |
| `LocalityIndexGenerator.GenerateRegionsIndex` | generator/locality_index_generator.cpp:236-243 | the generic run with the areas-only filter; false exactly when BuildCoveringIndex rejects the merged covering |
| `LocalityIndexGenerator.RegionsIndexIgnoresPartition` | generator/locality_index_generator.cpp:236-243 | the regions index receives the same entries however the features are handed to the workers |
| `LocalityIndexGenerator.GenerateGeoObjectsIndex` | generator/locality_index_generator.cpp:245-291 | a whitelist that fails to load returns false; otherwise the generic run with the geo-objects filter built from the whitelist and the streets flag |
| `LocalityIndexGenerator.GeoObjectsWhitelistExample` | generator/locality_index_generator.cpp:264-270 | with whitelist {42} a plain POI with id 43 is rejected and one with id 42 accepted |
| `LocalityIndexGenerator.GeoObjectsCoveringDependsOnPartition` | generator/locality_index_generator.cpp:61-87 | a building area then a building point on one worker give the point the area's three triangle points; split over two workers the point has none, so the merged entries differ |
| `Borders.VarUint` | generator/locality_index_generator.cpp:319 | the encoding is non-empty, its last byte is below 128 and every other byte has the continuation bit |
| `Borders.ReadVarUintRoundTrip` | generator/locality_index_generator.cpp:319 | reading back an encoded length yields it and stops right after it |
| `Borders.SplitRecordsRoundTrip` | generator/locality_index_generator.cpp:314-321 | a section of non-empty records splits back into exactly its buffers |
| `Borders.BordersCollector.WriteVarUint` | generator/locality_index_generator.cpp:319 | the loop appends exactly the varuint encoding of the value |
| `Borders.BordersCollector.WriteFeatureData` | generator/locality_index_generator.cpp:314-321 | empty bytes abort and write nothing; otherwise the length and then the bytes are appended |
| `Borders.BordersCollector.Collect` | generator/locality_index_generator.cpp:303-311 | a non-area feature writes nothing; an area feature appends its record, or aborts when its border is empty |
| `Borders.GenerateBorders` | generator/locality_index_generator.cpp:330-339 | aborts exactly when some area border is empty; otherwise the section is the area borders' records and splits back into them |
| `RegionTree.CallsArePreOrderKnownNodes` | generator/regions/node.hpp:19-30 | the callback's nodes are the tree's pre-order nodes with the Unknown-level ones removed (null tree: none) |
| `RegionTree.CallsArePreOrderKnownNodesAll` | generator/regions/node.hpp:28-29 | the subtrees are walked in child order, each in pre-order |
| `RegionTree.CallCountIsKnownCount` | generator/regions/node.hpp:19-30 | the number of calls is the number of nodes with a known level |
| `RegionTree.CallsAreOnKnownNodes` | generator/regions/node.hpp:25-26 | every call is on a node whose level is not Unknown |

## Findings

| source | as written | input that shows it | evidently intended | confidence | as-written member | corrected member |
|---|---|---|---|---|---|---|
| generator/locality_index_generator.cpp:61-87 | one `LocalityObject` per worker is reused and only the field of the feature's kind is replaced, so a point or line keeps the triangles of an earlier area | a building area of three points, then a building point, on one worker versus on two workers: the point is covered with 3 triangle points in the first case and 0 in the second | every object carries only its own geometry, so the entries do not depend on the split between workers; proved for a builder that starts every feature from a fresh object, for any filter (`CoveringPipeline.FreshIgnoresPartition`), and, as written, for areas-only filters (`CoveringPipeline.AreasOnlyCoveringIgnoresPartition`) | medium, not executed; it rests on `SetPoints`/`SetTriangles` in `indexer/locality_object.hpp` being plain setters | `LocalityIndexGenerator.GeoObjectsCoveringDependsOnPartition` | `CoveringPipeline.FreshIgnoresPartition` |

## Left out

- The parallel reader `ProcessParallelFromDatRawFormat`, `ForEachFromDatRawFormat` and the thread pool are not modelled. The features each worker receives are given as a sequence of sequences. Workers run one after another, which is equivalent because no two workers share mutable state (the index builder and the whitelist are shared read-only). The chunk sizes 1, 10 and 100 only tune scheduling and are not modelled.
- `SimplifyPoints`, `GeometryHolder` (construction, `GetSourcePoints`, `AddPoints`, `NeedProcessTriangles`, `TryToMakeStrip`, `SetInner`, its buffer), `m2::ConvexHull` with its 1e-16 tolerance and `serial::StripToTriangles` are oracles over an opaque holder state. No floating-point geometry is modelled.
- The holder is threaded through the oracles as a value, not updated in place. The coding parameters and scales the builder sets in its header are folded into the oracles.
- `Cover` is modelled as the list of entries it appends for an object. It is assumed to depend only on that object. `BuildCoveringIndex` is an oracle over the merged covering and the output path.
- The temporary file that joins the geo-objects and streets inputs (`AppendFileToFile`, the scope guard) is left out. The workers' inputs stand for the joined stream, and a boolean says whether a streets file was given.
- `FilesContainerW`, the section writer and `WriteDataVersionSection` are left out. The borders section is modelled as the byte sequence written to it.
- `SerializeBorderForIntermediate` is modelled as an arbitrary byte sequence carried by the feature.
- The type classifiers `IsBuilding`, `HasHouse`, `IsStreet` and `IsPoi` are modelled as boolean attributes of the feature.
- Logging is left out, including the diagnostic printed when the hull strip fails.
- NodeIds.ParseUint64: models `strings::to_uint64` as accepting only decimal digits and rejecting values of 2^64 and above. Its body is not part of this model; the behaviour of the underlying C library for a leading sign, a leading tab or an out-of-range value (where `strtoull` saturates and reports a range error) is assumed to be a rejection.
- NodeIds.ParseNodesResult: on a bad line the code keeps the ids already inserted into the caller's set; the model returns only the error. The only caller returns false at once, so the partial set is never used.
- Opening the whitelist file is modelled by the file being present or absent. Lines are what `getline` yields, without end-of-line characters.
- `MakeLevelPath`, `TreeSize`, `MaxDepth` and `DebugPrintTree` are declared without bodies in the source. The walk returns the nodes on which the callback, given `MakeLevelPath` of the node, is called. `PlaceLevel` matters only as Unknown versus known.
- `generator/generator_tests/street_geometry_tests.cpp` is not modelled: it tests `HighwayGeometry`, which is not part of this model, with floating-point tolerances.
- The process-level abort is modelled as an outcome. What other workers have done by the time of the abort is not modelled.
