/** GenerateLocalityIndex: every worker filters, normalises and covers its features into its own
    covering list; the lists are then merged, last list first, and handed to BuildCoveringIndex. */
module CoveringPipeline {
  import opened Wrappers
  import opened Features
  import opened Sequences
  import opened Normalizer

  /** The index builder's operations, which this model does not define. */
  datatype IndexBuilderOracles = IndexBuilderOracles(
    cover: LocalityObject -> seq<CoveringEntry>,               // the entries Cover appends for an object
    buildCoveringIndex: (seq<CoveringEntry>, string) -> bool)  // BuildCoveringIndex(covering, outPath)

  /** What one generation run is parameterised by: the geometry, the feature filter and the index builder. */
  datatype LocalityIndexEnv<!H> = LocalityIndexEnv(
    geometry: GeometryOracles<H>,
    filter: Feature -> bool,
    indexBuilder: IndexBuilderOracles)

  /** The effect of the processor on one feature: Abort when a fatal check ends the process, otherwise
      the entries appended to the worker's covering and the builder's object afterwards. */
  datatype StepResult = Abort | Continue(appended: seq<CoveringEntry>, obj: LocalityObject)

  /** The processor lambda: filter, then the builder, then Cover on the object it hands out. */
  function ProcessFeature<H>(env: LocalityIndexEnv<H>, obj: LocalityObject, fb: Feature): (r: StepResult)
    ensures !env.filter(fb) || Normalize(env.geometry, fb).None? ==> r == Continue([], obj)
    ensures r == Abort <==> env.filter(fb) && BuildObject(env.geometry, obj, fb) == Fatal
    ensures r.Continue? && env.filter(fb) && Normalize(env.geometry, fb).Some? ==>
      BuildObject(env.geometry, obj, fb) == Built(r.obj) && r.obj.id == fb.encodedId &&
      r.appended == env.indexBuilder.cover(r.obj)
  {
    if !env.filter(fb) then Continue([], obj)
    else match BuildObject(env.geometry, obj, fb)
      case Dropped => Continue([], obj)
      case Built(o) => Continue(env.indexBuilder.cover(o), o)
      case Fatal => Abort
  }

  /** A worker's covering list together with the object its builder holds. */
  datatype WorkerState = WorkerState(covering: seq<CoveringEntry>, obj: LocalityObject)

  /** The state of a worker after processing `fs` in order, starting from a builder holding `start`;
      None when a fatal check aborts. */
  function WorkerRun<H>(env: LocalityIndexEnv<H>, start: LocalityObject, fs: seq<Feature>): Option<WorkerState>
  {
    if fs == [] then Some(WorkerState([], start))
    else match WorkerRun(env, start, fs[..|fs| - 1])
      case None => None
      case Some(st) =>
        match ProcessFeature(env, st.obj, fs[|fs| - 1])
        case Abort => None
        case Continue(es, o) => Some(WorkerState(st.covering + es, o))
  }

  /** Running a worker over two consecutive stretches of features is running it over the first and then,
      from the object left behind, over the second; the covering lists concatenate. */
  lemma {:induction false} WorkerRunAppend<H>(env: LocalityIndexEnv<H>, start: LocalityObject, fs1: seq<Feature>, fs2: seq<Feature>)
    ensures WorkerRun(env, start, fs1 + fs2) ==
      match WorkerRun(env, start, fs1)
      case None => None
      case Some(st1) =>
        match WorkerRun(env, st1.obj, fs2)
        case None => None
        case Some(st2) => Some(WorkerState(st1.covering + st2.covering, st2.obj))
    decreases |fs2|
  {
    if fs2 == [] {
      assert fs1 + fs2 == fs1;
      if WorkerRun(env, start, fs1).Some? {
        assert WorkerRun(env, start, fs1).value.covering + [] == WorkerRun(env, start, fs1).value.covering;
      }
    } else {
      var init := fs2[..|fs2| - 1];
      assert (fs1 + fs2)[..|fs1 + fs2| - 1] == fs1 + init;
      assert (fs1 + fs2)[|fs1 + fs2| - 1] == fs2[|fs2| - 1];
      WorkerRunAppend(env, start, fs1, init);
      if WorkerRun(env, start, fs1).Some? && WorkerRun(env, WorkerRun(env, start, fs1).value.obj, init).Some? {
        var st1 := WorkerRun(env, start, fs1).value;
        var mid := WorkerRun(env, st1.obj, init).value;
        match ProcessFeature(env, mid.obj, fs2[|fs2| - 1])
        case Abort =>
        case Continue(es, o) =>
          assert st1.covering + mid.covering + es == st1.covering + (mid.covering + es);
      }
    }
  }

  /** A rejected feature leaves the worker's covering and its builder untouched. */
  lemma RejectedFeatureChangesNothing<H>(env: LocalityIndexEnv<H>, start: LocalityObject, fs: seq<Feature>, fb: Feature)
    requires !env.filter(fb) && WorkerRun(env, start, fs).Some?
    ensures WorkerRun(env, start, fs + [fb]) == WorkerRun(env, start, fs)
  {
    assert (fs + [fb])[..|fs|] == fs;
    var st := WorkerRun(env, start, fs).value;
    assert st.covering + [] == st.covering;
  }

  /** One worker: a processor with a fresh builder and an empty covering list, fed the worker's features
      in order. None when a fatal check aborts the process. */
  method RunWorker<H>(env: LocalityIndexEnv<H>, features: seq<Feature>) returns (covering: Option<seq<CoveringEntry>>)
    ensures covering.None? <==> WorkerRun(env, EmptyObject, features).None?
    ensures covering.Some? ==> covering.value == WorkerRun(env, EmptyObject, features).value.covering
  {
    var builder := new LocalityObjectBuilder(env.geometry);
    var entries := [];
    var i := 0;
    while i < |features|
      invariant 0 <= i <= |features|
      invariant builder.geometry == env.geometry
      invariant WorkerRun(env, EmptyObject, features[..i]) == Some(WorkerState(entries, builder.localityObject))
    {
      var fb := features[i];
      ghost var before := WorkerState(entries, builder.localityObject);
      WorkerRunNext(env, features, i, before);
      if env.filter(fb) {
        var r := builder.Apply(fb);
        match r {
          case Fatal =>
            assert ProcessFeature(env, before.obj, fb) == Abort;
            WorkerRunAbortPersists(env, features, i + 1);
            return None;
          case Built(o) =>
            assert ProcessFeature(env, before.obj, fb) == Continue(env.indexBuilder.cover(o), o);
            entries := entries + env.indexBuilder.cover(o);
          case Dropped =>
            assert ProcessFeature(env, before.obj, fb) == Continue([], before.obj);
            assert entries + [] == entries;
        }
      } else {
        assert ProcessFeature(env, before.obj, fb) == Continue([], before.obj);
        assert entries + [] == entries;
      }
      i := i + 1;
    }
    assert features[..i] == features;
    return Some(entries);
  }

  /** One more feature of a worker's input, processed from the state the worker has reached. */
  lemma WorkerRunNext<H>(env: LocalityIndexEnv<H>, fs: seq<Feature>, i: nat, st: WorkerState)
    requires i < |fs| && WorkerRun(env, EmptyObject, fs[..i]) == Some(st)
    ensures WorkerRun(env, EmptyObject, fs[..i + 1]) ==
      match ProcessFeature(env, st.obj, fs[i])
      case Abort => None
      case Continue(es, o) => Some(WorkerState(st.covering + es, o))
  {
    assert fs[..i + 1][..i] == fs[..i] && fs[..i + 1][i] == fs[i];
  }

  /** An abort in a prefix aborts the whole run. */
  lemma {:induction false} WorkerRunAbortPersists<H>(env: LocalityIndexEnv<H>, fs: seq<Feature>, n: nat)
    requires n <= |fs| && WorkerRun(env, EmptyObject, fs[..n]).None?
    ensures WorkerRun(env, EmptyObject, fs).None?
    decreases |fs| - n
  {
    if n < |fs| {
      assert fs[..n + 1][..n] == fs[..n];
      WorkerRunAbortPersists(env, fs, n + 1);
    } else {
      assert fs[..n] == fs;
    }
  }

  /** The merged covering: the parts concatenated from the last one to the first. */
  function ConcatFromLast(parts: seq<seq<CoveringEntry>>): seq<CoveringEntry>
  {
    Flatten(Reverse(parts))
  }

  /** Every entry of every part is in the merged covering exactly once, and nothing else is. */
  lemma MergedLengthAndEntries(parts: seq<seq<CoveringEntry>>)
    ensures |ConcatFromLast(parts)| == TotalLength(parts)
    ensures multiset(ConcatFromLast(parts)) == multiset(Flatten(parts))
  {
    FlattenMultiset(parts);
    FlattenLength(parts);
    calc {
      |ConcatFromLast(parts)|;
      |multiset(ConcatFromLast(parts))|;
      |multiset(Flatten(parts))|;
      |Flatten(parts)|;
    }
  }

  /** Part i sits, in its own order, right after all the parts that follow it in the list. */
  lemma {:induction false} MergedPartPosition(parts: seq<seq<CoveringEntry>>, i: nat)
    requires i < |parts|
    ensures ConcatFromLast(parts) ==
      ConcatFromLast(parts[i + 1..]) + parts[i] + ConcatFromLast(parts[..i])
  {
    assert parts == parts[..i] + ([parts[i]] + parts[i + 1..]);
    ReverseAppend(parts[..i], [parts[i]] + parts[i + 1..]);
    ReverseAppend([parts[i]], parts[i + 1..]);
    assert Reverse([parts[i]]) == [parts[i]];
    FlattenAppend(Reverse(parts[i + 1..]) + [parts[i]], Reverse(parts[..i]));
    FlattenAppend(Reverse(parts[i + 1..]), [parts[i]]);
    assert Flatten([parts[i]]) == parts[i] by { FlattenCons(parts[i], []); }
  }

  /** std::list<LocalitiesCovering> coveringsParts: one covering list per worker. */
  class CoveringsParts {
    var parts: seq<seq<CoveringEntry>>

    constructor ()
      ensures parts == []
    {
      parts := [];
    }

    /** coveringsParts.emplace_back(), filled with the worker's covering. */
    method EmplaceBack(part: seq<CoveringEntry>)
      modifies this
      ensures parts == old(parts) + [part]
    {
      parts := parts + [part];
    }

    /** The merge loop: append the last part to the merged covering and pop it, until no part is left. */
    method MergeParts() returns (merged: seq<CoveringEntry>)
      modifies this
      ensures merged == ConcatFromLast(old(parts))
      ensures parts == []
    {
      merged := [];
      while parts != []
        invariant merged + ConcatFromLast(parts) == ConcatFromLast(old(parts))
        decreases |parts|
      {
        var part := parts[|parts| - 1];
        var rest := parts[..|parts| - 1];
        assert Reverse(parts) == [part] + Reverse(rest);
        FlattenCons(part, Reverse(rest));
        merged := merged + part;
        parts := rest;
      }
    }
  }

  /** The coverings of all workers, in worker order; None when a worker aborts. */
  function WorkerCoverings<H>(env: LocalityIndexEnv<H>, workers: seq<seq<Feature>>): (r: Option<seq<seq<CoveringEntry>>>)
    ensures r.Some? ==> |r.value| == |workers|
  {
    if workers == [] then Some([])
    else match WorkerCoverings(env, workers[..|workers| - 1])
      case None => None
      case Some(parts) =>
        match WorkerRun(env, EmptyObject, workers[|workers| - 1])
        case None => None
        case Some(st) => Some(parts + [st.covering])
  }

  /** The result of a generation run: BuildCoveringIndex's verdict, or an aborted process. */
  datatype IndexOutcome = Finished(ok: bool) | Aborted

  /** What GenerateLocalityIndex yields for the given worker inputs. */
  function LocalityIndexOutcome<H>(env: LocalityIndexEnv<H>, workers: seq<seq<Feature>>, outPath: string): IndexOutcome
  {
    match WorkerCoverings(env, workers)
    case None => Aborted
    case Some(parts) => Finished(env.indexBuilder.buildCoveringIndex(ConcatFromLast(parts), outPath))
  }

  /** GenerateLocalityIndex: `workers[k]` are the features the parallel reader hands to worker k. */
  method GenerateLocalityIndex<H>(env: LocalityIndexEnv<H>, workers: seq<seq<Feature>>, outPath: string)
    returns (r: IndexOutcome)
    ensures r == LocalityIndexOutcome(env, workers, outPath)
  {
    var coveringsParts := new CoveringsParts();
    var k := 0;
    while k < |workers|
      invariant 0 <= k <= |workers|
      invariant WorkerCoverings(env, workers[..k]) == Some(coveringsParts.parts)
    {
      assert workers[..k + 1][..k] == workers[..k] && workers[..k + 1][k] == workers[k];
      var covering := RunWorker(env, workers[k]);
      if covering.None? {
        WorkerCoveringsAbortPersists(env, workers, k + 1);
        return Aborted;
      }
      coveringsParts.EmplaceBack(covering.value);
      k := k + 1;
    }
    assert workers[..k] == workers;
    var localitiesCovering := coveringsParts.MergeParts();
    var ok := env.indexBuilder.buildCoveringIndex(localitiesCovering, outPath);
    return Finished(ok);
  }

  lemma {:induction false} WorkerCoveringsAbortPersists<H>(env: LocalityIndexEnv<H>, workers: seq<seq<Feature>>, n: nat)
    requires n <= |workers| && WorkerCoverings(env, workers[..n]).None?
    ensures WorkerCoverings(env, workers).None?
    decreases |workers| - n
  {
    if n < |workers| {
      assert workers[..n + 1][..n] == workers[..n];
      WorkerCoveringsAbortPersists(env, workers, n + 1);
    } else {
      assert workers[..n] == workers;
    }
  }

  /** The filter admits area features only (the regions index). */
  ghost predicate AreasOnly<H>(env: LocalityIndexEnv<H>)
  {
    forall f :: env.filter(f) ==> IsArea(f)
  }

  /** The entries each feature contributes when processed by a fresh builder, concatenated in order;
      None when one of them aborts. */
  function Contributions<H>(env: LocalityIndexEnv<H>, fs: seq<Feature>): Option<seq<CoveringEntry>>
  {
    if fs == [] then Some([])
    else Extend(Contributions(env, fs[..|fs| - 1]), ProcessFeature(env, EmptyObject, fs[|fs| - 1]))
  }

  /** Entries gathered so far, followed by one more step's entries; None once anything aborted. */
  function Extend(c: Option<seq<CoveringEntry>>, step: StepResult): Option<seq<CoveringEntry>>
  {
    match c
    case None => None
    case Some(es) =>
      match step
      case Abort => None
      case Continue(more, _) => Some(es + more)
  }

  /** Two runs' entries laid end to end; None when either aborted. */
  function Join(a: Option<seq<CoveringEntry>>, b: Option<seq<CoveringEntry>>): Option<seq<CoveringEntry>>
  {
    if a.None? || b.None? then None else Some(a.value + b.value)
  }

  lemma JoinExtend(a: Option<seq<CoveringEntry>>, b: Option<seq<CoveringEntry>>, step: StepResult)
    ensures Extend(Join(a, b), step) == Join(a, Extend(b, step))
  {
    if a.Some? && b.Some? && step.Continue? {
      assert a.value + b.value + step.appended == a.value + (b.value + step.appended);
    }
  }

  /** With areas only, an object with no points is all a builder ever holds, and a feature's entries do
      not depend on what was processed before it. */
  lemma AreaStepIgnoresHistory<H>(env: LocalityIndexEnv<H>, obj: LocalityObject, fb: Feature)
    requires AreasOnly(env) && obj.points == []
    ensures ProcessFeature(env, obj, fb).Abort? <==> ProcessFeature(env, EmptyObject, fb).Abort?
    ensures ProcessFeature(env, obj, fb).Continue? ==>
      ProcessFeature(env, obj, fb).appended == ProcessFeature(env, EmptyObject, fb).appended &&
      ProcessFeature(env, obj, fb).obj.points == []
  {
    if env.filter(fb) {
      assert IsArea(fb);
    }
  }

  lemma {:induction false} WorkerRunAreasOnly<H>(env: LocalityIndexEnv<H>, start: LocalityObject, fs: seq<Feature>)
    requires AreasOnly(env) && start.points == []
    ensures WorkerRun(env, start, fs).None? <==> Contributions(env, fs).None?
    ensures WorkerRun(env, start, fs).Some? ==>
      WorkerRun(env, start, fs).value.covering == Contributions(env, fs).value &&
      WorkerRun(env, start, fs).value.obj.points == []
  {
    if fs != [] {
      var init := fs[..|fs| - 1];
      WorkerRunAreasOnly(env, start, init);
      if WorkerRun(env, start, init).Some? {
        AreaStepIgnoresHistory(env, WorkerRun(env, start, init).value.obj, fs[|fs| - 1]);
      }
    }
  }

  lemma ContributionsSnoc<H>(env: LocalityIndexEnv<H>, fs: seq<Feature>, f: Feature)
    ensures Contributions(env, fs + [f]) == Extend(Contributions(env, fs), ProcessFeature(env, EmptyObject, f))
  {
    assert (fs + [f])[..|fs + [f]| - 1] == fs;
  }

  lemma {:induction false} ContributionsAppend<H>(env: LocalityIndexEnv<H>, fs1: seq<Feature>, fs2: seq<Feature>)
    ensures Contributions(env, fs1 + fs2) == Join(Contributions(env, fs1), Contributions(env, fs2))
    decreases |fs2|
  {
    if fs2 == [] {
      assert fs1 + fs2 == fs1;
      if Contributions(env, fs1).Some? {
        assert Contributions(env, fs1).value + [] == Contributions(env, fs1).value;
      }
    } else {
      var init, last := fs2[..|fs2| - 1], fs2[|fs2| - 1];
      var step := ProcessFeature(env, EmptyObject, last);
      assert fs1 + fs2 == (fs1 + init) + [last];
      assert init + [last] == fs2;
      ContributionsSnoc(env, fs1 + init, last);
      ContributionsSnoc(env, init, last);
      ContributionsAppend(env, fs1, init);
      JoinExtend(Contributions(env, fs1), Contributions(env, init), step);
    }
  }

  /** Joining runs is associative, and a run's entries as a multiset do not depend on the order in which
      the joined runs come. */
  lemma JoinSwap(a: Option<seq<CoveringEntry>>, b: Option<seq<CoveringEntry>>, c: Option<seq<CoveringEntry>>)
    ensures Join(Join(a, b), c).None? <==> Join(Join(a, c), b).None?
    ensures Join(Join(a, b), c).Some? ==>
      multiset(Join(Join(a, b), c).value) == multiset(Join(Join(a, c), b).value)
  {
  }

  /** Contributions ignore the order of the features: the same features in any order abort alike and
      yield the same entries with the same multiplicities. */
  lemma {:induction false} ContributionsPermutation<H>(env: LocalityIndexEnv<H>, fs1: seq<Feature>, fs2: seq<Feature>)
    requires multiset(fs1) == multiset(fs2)
    ensures Contributions(env, fs1).None? <==> Contributions(env, fs2).None?
    ensures Contributions(env, fs1).Some? ==>
      multiset(Contributions(env, fs1).value) == multiset(Contributions(env, fs2).value)
    decreases |fs1|
  {
    if fs1 == [] {
      assert |multiset(fs2)| == 0;
      assert fs2 == [];
    } else {
      var init, x := fs1[..|fs1| - 1], fs1[|fs1| - 1];
      assert fs1 == init + [x];
      assert x in multiset(fs2);
      var j :| 0 <= j < |fs2| && fs2[j] == x;
      var a, b := fs2[..j], fs2[j + 1..];
      assert fs2 == (a + [x]) + b;
      calc {
        multiset(init) + multiset{x};
        multiset(fs1);
        multiset(fs2);
        multiset(a + [x] + b);
        multiset(a) + multiset{x} + multiset(b);
        multiset(a + b) + multiset{x};
      }
      assert multiset(init) == (multiset(init) + multiset{x}) - multiset{x};
      assert multiset(a + b) == (multiset(a + b) + multiset{x}) - multiset{x};
      ContributionsPermutation(env, init, a + b);
      ContributionsAppend(env, init, [x]);
      ContributionsAppend(env, a + [x], b);
      ContributionsAppend(env, a, [x]);
      ContributionsAppend(env, a, b);
      JoinSwap(Contributions(env, a), Contributions(env, [x]), Contributions(env, b));
    }
  }

  /** With areas only, the workers' coverings laid end to end are the contributions of the whole
      stream the workers were cut from. */
  lemma {:induction false} WorkerCoveringsAreasOnly<H>(env: LocalityIndexEnv<H>, workers: seq<seq<Feature>>)
    requires AreasOnly(env)
    ensures WorkerCoverings(env, workers).None? <==> Contributions(env, Flatten(workers)).None?
    ensures WorkerCoverings(env, workers).Some? ==>
      Flatten(WorkerCoverings(env, workers).value) == Contributions(env, Flatten(workers)).value
  {
    if workers != [] {
      var init, last := workers[..|workers| - 1], workers[|workers| - 1];
      WorkerCoveringsAreasOnly(env, init);
      WorkerRunAreasOnly(env, EmptyObject, last);
      ContributionsAppend(env, Flatten(init), last);
      if WorkerCoverings(env, workers).Some? {
        var parts := WorkerCoverings(env, init).value;
        var st := WorkerRun(env, EmptyObject, last).value;
        assert WorkerCoverings(env, workers).value == parts + [st.covering];
        assert (parts + [st.covering])[..|parts|] == parts;
      }
    }
  }

  /** The coverings of all workers, in worker order, when every feature is built from a fresh object;
      None when a feature aborts. */
  function FreshCoverings<H>(env: LocalityIndexEnv<H>, workers: seq<seq<Feature>>): (r: Option<seq<seq<CoveringEntry>>>)
    ensures r.Some? ==> |r.value| == |workers|
  {
    if workers == [] then Some([])
    else match FreshCoverings(env, workers[..|workers| - 1])
      case None => None
      case Some(parts) =>
        match Contributions(env, workers[|workers| - 1])
        case None => None
        case Some(c) => Some(parts + [c])
  }

  /** With fresh objects, the workers' coverings laid end to end are the contributions of the whole
      stream the workers were cut from. */
  lemma {:induction false} FreshFlatten<H>(env: LocalityIndexEnv<H>, workers: seq<seq<Feature>>)
    ensures FreshCoverings(env, workers).None? <==> Contributions(env, Flatten(workers)).None?
    ensures FreshCoverings(env, workers).Some? ==>
      Flatten(FreshCoverings(env, workers).value) == Contributions(env, Flatten(workers)).value
  {
    if workers != [] {
      var init, last := workers[..|workers| - 1], workers[|workers| - 1];
      FreshFlatten(env, init);
      ContributionsAppend(env, Flatten(init), last);
      if FreshCoverings(env, workers).Some? {
        var parts := FreshCoverings(env, init).value;
        var c := Contributions(env, last).value;
        assert FreshCoverings(env, workers).value == parts + [c];
        assert (parts + [c])[..|parts|] == parts;
      }
    }
  }

  /** With every feature built from a fresh object, for any filter, handing the same features to the
      workers in any way neither changes whether the run aborts nor the multiset of merged entries. */
  lemma FreshIgnoresPartition<H>(env: LocalityIndexEnv<H>, workers1: seq<seq<Feature>>, workers2: seq<seq<Feature>>)
    requires multiset(Flatten(workers1)) == multiset(Flatten(workers2))
    ensures FreshCoverings(env, workers1).None? <==> FreshCoverings(env, workers2).None?
    ensures FreshCoverings(env, workers1).Some? ==>
      multiset(ConcatFromLast(FreshCoverings(env, workers1).value)) ==
      multiset(ConcatFromLast(FreshCoverings(env, workers2).value))
  {
    FreshFlatten(env, workers1);
    FreshFlatten(env, workers2);
    ContributionsPermutation(env, Flatten(workers1), Flatten(workers2));
    if FreshCoverings(env, workers1).Some? {
      MergedLengthAndEntries(FreshCoverings(env, workers1).value);
      MergedLengthAndEntries(FreshCoverings(env, workers2).value);
    }
  }

  /** With an areas-only filter, handing the same features to the workers in any way (any assignment of
      features to workers, in any order) neither changes whether the run aborts nor which entries (with
      their multiplicities) reach BuildCoveringIndex. */
  lemma AreasOnlyCoveringIgnoresPartition<H>(env: LocalityIndexEnv<H>, workers1: seq<seq<Feature>>, workers2: seq<seq<Feature>>)
    requires AreasOnly(env) && multiset(Flatten(workers1)) == multiset(Flatten(workers2))
    ensures WorkerCoverings(env, workers1).None? <==> WorkerCoverings(env, workers2).None?
    ensures WorkerCoverings(env, workers1).Some? ==>
      multiset(ConcatFromLast(WorkerCoverings(env, workers1).value)) ==
      multiset(ConcatFromLast(WorkerCoverings(env, workers2).value))
  {
    WorkerCoveringsAreasOnly(env, workers1);
    WorkerCoveringsAreasOnly(env, workers2);
    ContributionsPermutation(env, Flatten(workers1), Flatten(workers2));
    if WorkerCoverings(env, workers1).Some? {
      MergedLengthAndEntries(WorkerCoverings(env, workers1).value);
      MergedLengthAndEntries(WorkerCoverings(env, workers2).value);
    }
  }
}
