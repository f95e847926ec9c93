/** The locality object builder: geometry normalisation (simplification, ring flattening, strip
    triangulation with a convex-hull retry) and the construction of the object handed to Cover.
    Every geometric computation is an oracle over an opaque GeometryHolder state H. */
module Normalizer {
  import opened Wrappers
  import opened Features
  import opened Sequences

  /** What GeometryHolder::TryToMakeStrip reports: whether a single strip was found, the holder afterwards
      and the point list afterwards (the list is handed over as a variable and may come back reordered). */
  datatype StripAttempt<H> = StripAttempt(ok: bool, holder: H, points: seq<PointD>)

  /** The geometry the builder relies on but does not define. */
  datatype GeometryOracles<!H> = GeometryOracles(
    makeHolder: Feature -> H,                      // GeometryHolder{fb, header, max uint32 triangles}
    sourcePoints: H -> seq<PointD>,                // holder.GetSourcePoints()
    simplify: seq<PointD> -> seq<PointD>,          // SimplifyPoints at the upper scale
    addPoints: (H, seq<PointD>) -> H,              // holder.AddPoints(points, 0)
    needProcessTriangles: H -> bool,               // holder.NeedProcessTriangles()
    tryToMakeStrip: (H, seq<PointD>) -> StripAttempt<H>,
    setInner: H -> H,                              // holder.SetInner()
    convexHull: seq<PointD> -> seq<PointD>,        // m2::ConvexHull(points, 1e-16).Points()
    innerPts: H -> seq<PointD>,                    // holder.GetBuffer().m_innerPts
    innerTrg: H -> seq<PointD>,                    // holder.GetBuffer().m_innerTrg
    stripToTriangles: seq<PointD> -> seq<PointD>)  // serial::StripToTriangles

  /** The simplified source points of the feature's holder. */
  function Simplified<H>(o: GeometryOracles<H>, fb: Feature): seq<PointD>
  {
    o.simplify(o.sourcePoints(o.makeHolder(fb)))
  }

  /** The holder after the line points are added (lines only). */
  function PreparedHolder<H>(o: GeometryOracles<H>, fb: Feature): H
  {
    var h := o.makeHolder(fb);
    if IsLine(fb) then o.addPoints(h, Simplified(o, fb)) else h
  }

  /** The points an area is triangulated from: the simplified outer ring without its closing point,
      replaced by all raw rings one after another when the feature does not have exactly one ring. */
  function AreaPoints(fb: Feature, simplified: seq<PointD>): (points: seq<PointD>)
    requires simplified != []
    ensures |fb.geometry| == 1 ==> points == simplified[..|simplified| - 1]
    ensures |fb.geometry| != 1 ==> |points| == TotalLength(fb.geometry)
    ensures |fb.geometry| != 1 ==> forall k | 0 <= k < |fb.geometry| ::
      TotalLength(fb.geometry[..k]) + |fb.geometry[k]| <= |points| &&
      points[TotalLength(fb.geometry[..k])..TotalLength(fb.geometry[..k]) + |fb.geometry[k]|] == fb.geometry[k]
  {
    if |fb.geometry| != 1 then FlattenLength(fb.geometry); FlattenParts(fb.geometry); Flatten(fb.geometry)
    else simplified[..|simplified| - 1]
  }

  /** Strip triangulation of more than two points, retried on the convex hull of the points when the
      first strip cannot be built; None when the retry fails as well. */
  function Triangulate<H>(o: GeometryOracles<H>, h: H, points: seq<PointD>): Option<H>
  {
    if |points| <= 2 then Some(h)
    else
      var first := o.tryToMakeStrip(h, points);
      if first.ok then Some(first.holder)
      else
        var second := o.tryToMakeStrip(o.setInner(first.holder), o.convexHull(first.points));
        if second.ok then Some(second.holder) else None
  }

  /** The holder MakeGeometryHolder returns, or None when the feature is dropped. */
  function Normalize<H>(o: GeometryOracles<H>, fb: Feature): (r: Option<H>)
    ensures Simplified(o, fb) == [] ==> r.None?
    ensures !IsArea(fb) ==> r == if Simplified(o, fb) == [] then None else Some(PreparedHolder(o, fb))
    ensures r.Some? && IsArea(fb) ==> !o.needProcessTriangles(r.value)
  {
    var points := Simplified(o, fb);
    if points == [] then None
    else
      var h := PreparedHolder(o, fb);
      if IsArea(fb) && o.needProcessTriangles(h) then
        match Triangulate(o, h, AreaPoints(fb, points))
        case None => None
        case Some(h') => if o.needProcessTriangles(h') then None else Some(h')
      else Some(h)
  }

  /** The convex hull is consulted only after a strip over more than two points has failed. */
  lemma HullOnlyAfterFailedStrip<H>(o: GeometryOracles<H>, hull: seq<PointD> -> seq<PointD>, h: H, points: seq<PointD>)
    requires |points| <= 2 || o.tryToMakeStrip(h, points).ok
    ensures Triangulate(o.(convexHull := hull), h, points) == Triangulate(o, h, points)
  {
  }

  /** No strip is attempted on two points or fewer. */
  lemma NoStripForTwoPoints<H>(o: GeometryOracles<H>, strip: (H, seq<PointD>) -> StripAttempt<H>, h: H, points: seq<PointD>)
    requires |points| <= 2
    ensures Triangulate(o.(tryToMakeStrip := strip), h, points) == Some(h)
  {
  }

  /** An area is dropped when the strip over its points and the strip over their hull both fail. */
  lemma AreaDroppedWhenHullStripFails<H>(o: GeometryOracles<H>, fb: Feature)
    requires IsArea(fb) && Simplified(o, fb) != []
    requires o.needProcessTriangles(PreparedHolder(o, fb))
    requires var points := AreaPoints(fb, Simplified(o, fb));
      var first := o.tryToMakeStrip(PreparedHolder(o, fb), points);
      |points| > 2 && !first.ok &&
      !o.tryToMakeStrip(o.setInner(first.holder), o.convexHull(first.points)).ok
    ensures Normalize(o, fb) == None
  {
  }

  /** An area that no longer needs triangles once prepared is kept with its prepared holder. */
  lemma AreaKeptWithoutTriangulation<H>(o: GeometryOracles<H>, fb: Feature)
    requires IsArea(fb) && Simplified(o, fb) != []
    requires !o.needProcessTriangles(PreparedHolder(o, fb))
    ensures Normalize(o, fb) == Some(PreparedHolder(o, fb))
  {
  }

  /** An area of two points or fewer is not triangulated: it is kept with its prepared holder exactly
      when that holder does not need triangles. */
  lemma AreaOfTwoPointsKeptAsPrepared<H>(o: GeometryOracles<H>, fb: Feature)
    requires IsArea(fb) && Simplified(o, fb) != []
    requires |AreaPoints(fb, Simplified(o, fb))| <= 2
    ensures Normalize(o, fb) ==
      if o.needProcessTriangles(PreparedHolder(o, fb)) then None else Some(PreparedHolder(o, fb))
  {
  }

  /** When the first strip over more than two points succeeds, the area is kept with the holder that
      strip left, unless that holder still needs triangles. */
  lemma AreaKeptAfterFirstStrip<H>(o: GeometryOracles<H>, fb: Feature)
    requires IsArea(fb) && Simplified(o, fb) != []
    requires o.needProcessTriangles(PreparedHolder(o, fb))
    requires var points := AreaPoints(fb, Simplified(o, fb));
      |points| > 2 && o.tryToMakeStrip(PreparedHolder(o, fb), points).ok
    ensures var first := o.tryToMakeStrip(PreparedHolder(o, fb), AreaPoints(fb, Simplified(o, fb)));
      Normalize(o, fb) == if o.needProcessTriangles(first.holder) then None else Some(first.holder)
  {
  }

  /** When the first strip fails and the strip over the hull of the points it left succeeds, the area
      is kept with the holder the second strip left, unless that holder still needs triangles. */
  lemma AreaKeptAfterHullStrip<H>(o: GeometryOracles<H>, fb: Feature)
    requires IsArea(fb) && Simplified(o, fb) != []
    requires o.needProcessTriangles(PreparedHolder(o, fb))
    requires var points := AreaPoints(fb, Simplified(o, fb));
      var first := o.tryToMakeStrip(PreparedHolder(o, fb), points);
      |points| > 2 && !first.ok &&
      o.tryToMakeStrip(o.setInner(first.holder), o.convexHull(first.points)).ok
    ensures var first := o.tryToMakeStrip(PreparedHolder(o, fb), AreaPoints(fb, Simplified(o, fb)));
      var second := o.tryToMakeStrip(o.setInner(first.holder), o.convexHull(first.points));
      Normalize(o, fb) == if o.needProcessTriangles(second.holder) then None else Some(second.holder)
  {
  }

  /** MakeGeometryHolder: simplify, then for an area that still needs triangles drop the closing point,
      flatten the rings when there is not exactly one, and triangulate with the hull retry. */
  method MakeGeometryHolder<H>(o: GeometryOracles<H>, fb: Feature) returns (r: Option<H>)
    ensures r == Normalize(o, fb)
  {
    var holder := o.makeHolder(fb);
    var points := o.simplify(o.sourcePoints(holder));
    if points == [] {
      return None;
    }
    if IsLine(fb) {
      holder := o.addPoints(holder, points);
    }
    if IsArea(fb) && o.needProcessTriangles(holder) {
      points := points[..|points| - 1];
      var polys := fb.geometry;
      if |polys| != 1 {
        points := [];
        var i := 0;
        while i < |polys|
          invariant 0 <= i <= |polys|
          invariant points == Flatten(polys[..i])
        {
          assert polys[..i + 1][..i] == polys[..i];
          points := points + polys[i];
          i := i + 1;
        }
        assert polys[..i] == polys;
      }
      if |points| > 2 {
        var first := o.tryToMakeStrip(holder, points);
        holder, points := first.holder, first.points;
        if !first.ok {
          var hullPoints := o.convexHull(points);
          holder := o.setInner(holder);
          var second := o.tryToMakeStrip(holder, hullPoints);
          holder := second.holder;
          if !second.ok {
            return None;
          }
        }
      }
      if o.needProcessTriangles(holder) {
        return None;
      }
    }
    return Some(holder);
  }

  /** The outcome of one call of the builder: the feature is dropped, an object is built, or a CHECK /
      UNREACHABLE aborts the process. */
  datatype BuildResult = Dropped | Built(obj: LocalityObject) | Fatal

  /** The object the builder hands out, given the object it holds from its previous call. Only the
      field the feature's kind sets is replaced: the id always, the points for points and lines, the
      triangles for areas. */
  function BuildObject<H>(o: GeometryOracles<H>, current: LocalityObject, fb: Feature): (r: BuildResult)
    ensures Normalize(o, fb).None? <==> r == Dropped
    ensures Normalize(o, fb).Some? && (fb.geomType == Point || fb.geomType == Line) ==> r.Built?
    ensures r.Built? ==> r.obj.id == fb.encodedId
    ensures r.Built? && fb.geomType == Point ==>
      r.obj.points == [fb.keyPoint] && r.obj.triangles == current.triangles
    ensures r.Built? && fb.geomType == Line ==>
      r.obj.points == o.innerPts(Normalize(o, fb).value) && r.obj.triangles == current.triangles
    ensures IsArea(fb) && Normalize(o, fb).Some? ==>
      (r == Fatal <==> |o.innerTrg(Normalize(o, fb).value)| < 3)
    ensures r.Built? && IsArea(fb) ==>
      r.obj.triangles == o.stripToTriangles(o.innerTrg(Normalize(o, fb).value)) &&
      r.obj.points == current.points
    ensures fb.geomType == Undefined ==> !r.Built?
  {
    match Normalize(o, fb)
    case None => Dropped
    case Some(h) =>
      var obj := current.(id := fb.encodedId);
      match fb.geomType
      case Point => Built(obj.(points := [fb.keyPoint]))
      case Line => Built(obj.(points := o.innerPts(h)))
      case Area =>
        if |o.innerTrg(h)| < 3 then Fatal else Built(obj.(triangles := o.stripToTriangles(o.innerTrg(h))))
      case Undefined => Fatal
  }

  /** LocalityObjectBuilder: keeps one locality object and one points buffer that every call reuses. */
  class LocalityObjectBuilder<H> {
    const geometry: GeometryOracles<H>
    var localityObject: LocalityObject
    var pointsBuffer: seq<PointD>

    constructor (geometry: GeometryOracles<H>)
      ensures this.geometry == geometry
      ensures localityObject == EmptyObject && pointsBuffer == []
    {
      this.geometry := geometry;
      localityObject := EmptyObject;
      pointsBuffer := [];
    }

    /** operator(): normalise the feature and, when it is kept, update and hand out the held object. */
    method Apply(fb: Feature) returns (r: BuildResult)
      modifies this
      ensures r == BuildObject(geometry, old(localityObject), fb)
      ensures r.Built? ==> localityObject == r.obj
      ensures r.Dropped? ==> localityObject == old(localityObject)
      ensures r.Built? && IsArea(fb) ==> pointsBuffer == geometry.innerTrg(Normalize(geometry, fb).value)
      ensures !(r.Built? && IsArea(fb)) ==> pointsBuffer == old(pointsBuffer)
    {
      var holder := MakeGeometryHolder(geometry, fb);
      if holder.None? {
        return Dropped;
      }
      var h := holder.value;
      ghost var expected := BuildObject(geometry, localityObject, fb);
      var obj := localityObject.(id := fb.encodedId);
      match fb.geomType {
        case Point =>
          obj := obj.(points := [fb.keyPoint]);
          assert Built(obj) == expected;
        case Line =>
          obj := obj.(points := geometry.innerPts(h));
          assert Built(obj) == expected;
        case Area =>
          var trg := geometry.innerTrg(h);
          if |trg| < 3 {
            assert expected == Fatal;
            return Fatal;
          }
          var buffer := [];
          buffer := buffer + trg;
          pointsBuffer := buffer;
          obj := obj.(triangles := geometry.stripToTriangles(buffer));
          assert buffer == trg && Built(obj) == expected;
        case Undefined =>
          assert expected == Fatal;
          return Fatal;
      }
      localityObject := obj;
      r := Built(obj);
    }
  }
}
