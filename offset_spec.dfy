/** What `offset_with_arc_segments` of `src/offset.rs` computes for each shape,
    as functions of the shape, the distance and the arc segment count, with
    the properties the crate relies on.

    A point becomes a ring of 2n + 1 vertices on the circle of radius
    `distance`; a segment becomes a "stadium" made of two arcs; every other
    shape is assembled from those with the clipper's union and difference. */
module OffsetSpec {
  import opened Numerics
  import opened Edges
  import opened Geo
  import opened Arcs

  /** The only error the offset functions declare. */
  datatype OffsetError = EdgeError(edgeError: EdgeError)

  type OffsetResult = Result<MultiPolygon, OffsetError>

  /** Arcs around corners are made of 5 segments unless the caller says otherwise. */
  const DEFAULT_ARC_SEGMENTS: nat := 5

  /** Segment counts the offset code handles: at least one (the arc generator
      lowers an even count by one, which underflows for zero) and small enough
      that doubling it fits a `u32`. */
  predicate ValidArcSegments(n: nat) {
    1 <= n < 0x8000_0000
  }

  /** `f64::abs`. */
  function Abs(d: real): (r: real)
    ensures 0.0 <= r && (r == d || r == -d)
  {
    if d < 0.0 then -d else d
  }

  // ---------------------------------------------------------------------------
  // Containers

  /** The container loop: the member results are unioned, in order, into an
      accumulator that starts empty, and the first member error is returned
      unchanged. The result is `Ok` exactly when every member result is. */
  function UnionAll(clip: Clipper, rs: seq<OffsetResult>): (r: OffsetResult)
    ensures r.Ok? <==> forall i :: 0 <= i < |rs| ==> rs[i].Ok?
    ensures r.Err? ==> exists i :: 0 <= i < |rs| && rs[i] == Err(r.error) && forall j :: 0 <= j < i ==> rs[j].Ok?
    decreases |rs|
  {
    if |rs| == 0 then Ok([])
    else
      match UnionAll(clip, rs[..|rs| - 1])
      case Err(e) => Err(e)
      case Ok(acc) =>
        match rs[|rs| - 1]
        case Err(e) => Err(e)
        case Ok(m) => Ok(clip.union(acc, m, CLIPPER_SCALE))
  }

  /** `acc` with each polygon of `holes` subtracted in turn. */
  function DifferenceFrom(clip: Clipper, acc: MultiPolygon, holes: seq<Polygon>): MultiPolygon
    decreases |holes|
  {
    if |holes| == 0 then acc
    else clip.difference(DifferenceFrom(clip, acc, holes[..|holes| - 1]), [holes[|holes| - 1]], CLIPPER_SCALE)
  }

  /** The polyline's second pass: keep the first polygon and subtract every
      later one from it, in order. Nothing gives nothing, and one polygon is
      kept as it is. */
  function SubtractLater(clip: Clipper, mp: MultiPolygon): (r: MultiPolygon)
    ensures |mp| == 0 ==> r == []
    ensures |mp| == 1 ==> r == mp
  {
    if |mp| == 0 then [] else DifferenceFrom(clip, [mp[0]], mp[1..])
  }

  // ---------------------------------------------------------------------------
  // Point

  /** `vertice_count`: twice the segment count, made odd by adding one. It is
      always 2n + 1. */
  function VertexCount(arcSegments: nat): (count: nat)
    requires arcSegments < 0x8000_0000
    ensures count == 2 * arcSegments + 1
  {
    var doubled: nat := arcSegments * 2;
    if doubled % 2 == 0 then doubled + 1 else doubled
  }

  /** The angle between consecutive vertices of the point's ring. */
  function PointStep(count: nat): real
    requires 1 <= count
  {
    2.0 * PI / (count as real)
  }

  /** The ring vertex at `angle` around `p` at `distance`. */
  function PointVertex(lib: MathLib, p: Coord, distance: real, angle: real): Coord {
    Coord(p.x + distance * lib.cos(angle), p.y + distance * lib.sin(angle))
  }

  /** The first `m` vertices of the point's ring: vertex k sits k + 1 steps
      round from angle 0. */
  function PointVertices(lib: MathLib, p: Coord, distance: real, step: real, m: nat): (r: seq<Coord>)
    ensures |r| == m
    ensures forall k :: 0 <= k < m ==> r[k] == PointVertex(lib, p, distance, StepAngle(0.0, step, k + 1))
  {
    if m == 0 then []
    else PointVertices(lib, p, distance, step, m - 1) + [PointVertex(lib, p, distance, StepAngle(0.0, step, m))]
  }

  /** `Point::offset_with_arc_segments`. */
  function PointOffset(lib: MathLib, p: Coord, distance: real, arcSegments: nat): (r: OffsetResult)
    requires arcSegments < 0x8000_0000
    ensures r.Ok?
    ensures distance < 0.0 ==> r.value == []
    ensures 0.0 <= distance ==> |r.value| == 1 && r.value[0].interiors == []
  {
    if distance < 0.0 then Ok([])
    else
      var count := VertexCount(arcSegments);
      Ok([NewPolygon(PointVertices(lib, p, distance, PointStep(count), count), [])])
  }

  // ---------------------------------------------------------------------------
  // Line

  /** The two offset copies of the segment: the segment moved by the inwards
      normal times the distance, and the reversed segment moved by the
      outwards normal times the distance. */
  function LineOffsets(e: Edge, inNormal: Coord, outNormal: Coord, distance: real): (offsets: seq<Edge>)
    ensures |offsets| == 2
    ensures offsets[0].current == Add(e.current, Scale(inNormal, distance))
    ensures offsets[0].next == Add(e.next, Scale(inNormal, distance))
    ensures offsets[1].current == Add(e.next, Scale(outNormal, distance))
    ensures offsets[1].next == Add(e.current, Scale(outNormal, distance))
    ensures Direction(offsets[0]) == Direction(e) && Direction(offsets[1]) == Neg(Direction(e))
  {
    [WithOffset(e, inNormal.x * distance, inNormal.y * distance),
     InverseWithOffset(e, outNormal.x * distance, outNormal.y * distance)]
  }

  /** The stadium ring: an arc about the start from the end of the second
      offset copy to the start of the first, then an arc about the end from
      the end of the first copy to the start of the second. */
  function StadiumRing(lib: MathLib, line: Line, distance: real, arcSegments: nat,
                       inNormal: Coord, outNormal: Coord): (ring: seq<Coord>)
    requires 1 <= arcSegments
    ensures |ring| == 2 * OddSegmentCount(arcSegments) + 2
    ensures ring[0] == Add(line.start, Scale(outNormal, distance))
    ensures ring[OddSegmentCount(arcSegments)] == Add(line.start, Scale(inNormal, distance))
    ensures ring[OddSegmentCount(arcSegments) + 1] == Add(line.end, Scale(inNormal, distance))
    ensures ring[|ring| - 1] == Add(line.end, Scale(outNormal, distance))
  {
    var offsets := LineOffsets(New(line.start, line.end), inNormal, outNormal, distance);
    ArcPoints(lib, line.start, distance, offsets[1].next, offsets[0].current, arcSegments, true)
      + ArcPoints(lib, line.end, distance, offsets[0].next, offsets[1].current, arcSegments, true)
  }

  /** `Line::offset_with_arc_segments`: the stadium when both normals exist,
      otherwise the offset of the start point. */
  function LineOffset(lib: MathLib, line: Line, distance: real, arcSegments: nat): (r: OffsetResult)
    requires ValidArcSegments(arcSegments)
    ensures r.Ok?
    ensures distance < 0.0 ==> r.value == []
    ensures 0.0 <= distance ==> |r.value| == 1 && r.value[0].interiors == []
  {
    if distance < 0.0 then Ok([])
    else
      var e1 := New(line.start, line.end);
      var inNormal, outNormal := InwardsNormal(lib, e1), OutwardsNormal(lib, e1);
      if inNormal.Ok? && outNormal.Ok? then
        Ok([NewPolygon(StadiumRing(lib, line, distance, arcSegments, inNormal.value, outNormal.value), [])])
      else
        PointOffset(lib, line.start, distance, arcSegments)
  }

  // ---------------------------------------------------------------------------
  // LineString and MultiLineString

  /** The offset of every segment of a polyline, in order. */
  function LineResults(lib: MathLib, lines: seq<Line>, distance: real, arcSegments: nat): (rs: seq<OffsetResult>)
    requires ValidArcSegments(arcSegments)
    ensures |rs| == |lines|
    ensures forall i :: 0 <= i < |lines| ==> rs[i] == LineOffset(lib, lines[i], distance, arcSegments)
  {
    seq(|lines|, i requires 0 <= i < |lines| => LineOffset(lib, lines[i], distance, arcSegments))
  }

  /** `LineString::offset_with_arc_segments`: the segment stadiums unioned in
      order, then every later polygon subtracted from the first. */
  function LineStringOffset(clip: Clipper, lib: MathLib, ls: LineString, distance: real, arcSegments: nat): (r: OffsetResult)
    requires ValidArcSegments(arcSegments)
    ensures r.Ok?
    ensures distance < 0.0 ==> r.value == []
  {
    if distance < 0.0 then Ok([])
    else
      match UnionAll(clip, LineResults(lib, Lines(ls), distance, arcSegments))
      case Err(e) => Err(e)
      case Ok(unioned) => Ok(SubtractLater(clip, unioned))
  }

  /** The offset of every polyline, in order. */
  function LineStringResults(clip: Clipper, lib: MathLib, mls: MultiLineString, distance: real, arcSegments: nat): (rs: seq<OffsetResult>)
    requires ValidArcSegments(arcSegments)
    ensures |rs| == |mls|
    ensures forall i :: 0 <= i < |mls| ==> rs[i] == LineStringOffset(clip, lib, mls[i], distance, arcSegments)
  {
    seq(|mls|, i requires 0 <= i < |mls| => LineStringOffset(clip, lib, mls[i], distance, arcSegments))
  }

  /** `MultiLineString::offset_with_arc_segments`. */
  function MultiLineStringOffset(clip: Clipper, lib: MathLib, mls: MultiLineString, distance: real, arcSegments: nat): (r: OffsetResult)
    requires ValidArcSegments(arcSegments)
    ensures r.Ok?
    ensures distance < 0.0 ==> r.value == []
  {
    if distance < 0.0 then Ok([])
    else UnionAll(clip, LineStringResults(clip, lib, mls, distance, arcSegments))
  }

  // ---------------------------------------------------------------------------
  // MultiPoint

  /** The offset of every point, in order. */
  function PointResults(lib: MathLib, points: MultiPoint, distance: real, arcSegments: nat): (rs: seq<OffsetResult>)
    requires arcSegments < 0x8000_0000
    ensures |rs| == |points|
    ensures forall i :: 0 <= i < |points| ==> rs[i] == PointOffset(lib, points[i], distance, arcSegments)
  {
    seq(|points|, i requires 0 <= i < |points| => PointOffset(lib, points[i], distance, arcSegments))
  }

  /** `MultiPoint::offset_with_arc_segments`. */
  function MultiPointOffset(clip: Clipper, lib: MathLib, points: MultiPoint, distance: real, arcSegments: nat): (r: OffsetResult)
    requires arcSegments < 0x8000_0000
    ensures r.Ok?
    ensures distance < 0.0 ==> r.value == []
  {
    if distance < 0.0 then Ok([])
    else UnionAll(clip, PointResults(lib, points, distance, arcSegments))
  }

  // ---------------------------------------------------------------------------
  // Polygon and MultiPolygon

  /** `Polygon::offset_with_arc_segments`: both the exterior and the interior
      rings are buffered at the absolute distance; a non-negative distance
      unions them onto the polygon, a negative one subtracts them from it. */
  function PolygonOffset(clip: Clipper, lib: MathLib, p: Polygon, distance: real, arcSegments: nat): (r: OffsetResult)
    requires ValidArcSegments(arcSegments)
    ensures r.Ok?
  {
    match LineStringOffset(clip, lib, p.exterior, Abs(distance), arcSegments)
    case Err(e) => Err(e)
    case Ok(exterior) =>
      match MultiLineStringOffset(clip, lib, p.interiors, Abs(distance), arcSegments)
      case Err(e) => Err(e)
      case Ok(interiors) =>
        Ok(if 0.0 <= distance then
             clip.union(clip.union([p], exterior, CLIPPER_SCALE), interiors, CLIPPER_SCALE)
           else
             clip.difference(clip.difference([p], exterior, CLIPPER_SCALE), interiors, CLIPPER_SCALE))
  }

  /** The offset of every polygon, in order. */
  function PolygonResults(clip: Clipper, lib: MathLib, mp: MultiPolygon, distance: real, arcSegments: nat): (rs: seq<OffsetResult>)
    requires ValidArcSegments(arcSegments)
    ensures |rs| == |mp|
    ensures forall i :: 0 <= i < |mp| ==> rs[i] == PolygonOffset(clip, lib, mp[i], distance, arcSegments)
  {
    seq(|mp|, i requires 0 <= i < |mp| => PolygonOffset(clip, lib, mp[i], distance, arcSegments))
  }

  /** `MultiPolygon::offset_with_arc_segments`; a negative distance is passed
      on to every polygon. */
  function MultiPolygonOffset(clip: Clipper, lib: MathLib, mp: MultiPolygon, distance: real, arcSegments: nat): (r: OffsetResult)
    requires ValidArcSegments(arcSegments)
    ensures r.Ok?
  {
    UnionAll(clip, PolygonResults(clip, lib, mp, distance, arcSegments))
  }

  // ---------------------------------------------------------------------------
  // Geometry and GeometryCollection

  /** `Geometry::offset_with_arc_segments`: dispatch on the variant, a
      triangle or rectangle being offset as a polygon. */
  function GeometryOffset(clip: Clipper, lib: MathLib, g: Geometry, distance: real, arcSegments: nat): (r: OffsetResult)
    requires ValidArcSegments(arcSegments)
    ensures r.Ok?
    decreases g
  {
    match g
    case PointGeometry(p) => PointOffset(lib, p, distance, arcSegments)
    case LineGeometry(line) => LineOffset(lib, line, distance, arcSegments)
    case LineStringGeometry(ls) => LineStringOffset(clip, lib, ls, distance, arcSegments)
    case TriangleGeometry(t) => PolygonOffset(clip, lib, TriangleToPolygon(t), distance, arcSegments)
    case RectGeometry(rect) => PolygonOffset(clip, lib, RectToPolygon(rect), distance, arcSegments)
    case PolygonGeometry(p) => PolygonOffset(clip, lib, p, distance, arcSegments)
    case MultiPointGeometry(points) => MultiPointOffset(clip, lib, points, distance, arcSegments)
    case MultiLineStringGeometry(mls) => MultiLineStringOffset(clip, lib, mls, distance, arcSegments)
    case MultiPolygonGeometry(mp) => MultiPolygonOffset(clip, lib, mp, distance, arcSegments)
    case GeometryCollectionGeometry(c) => CollectionOffset(clip, lib, c, distance, arcSegments)
  }

  /** The offset of every member of a collection, in order. */
  function GeometryResults(clip: Clipper, lib: MathLib, c: GeometryCollection, distance: real, arcSegments: nat): (rs: seq<OffsetResult>)
    requires ValidArcSegments(arcSegments)
    ensures |rs| == |c.items|
    ensures forall i :: 0 <= i < |c.items| ==> rs[i] == GeometryOffset(clip, lib, c.items[i], distance, arcSegments)
    decreases c, 0
  {
    seq(|c.items|, i requires 0 <= i < |c.items| => GeometryOffset(clip, lib, c.items[i], distance, arcSegments))
  }

  /** `GeometryCollection::offset_with_arc_segments`. */
  function CollectionOffset(clip: Clipper, lib: MathLib, c: GeometryCollection, distance: real, arcSegments: nat): (r: OffsetResult)
    requires ValidArcSegments(arcSegments)
    ensures r.Ok?
    decreases c, 1
  {
    UnionAll(clip, GeometryResults(clip, lib, c, distance, arcSegments))
  }

  /** `Offset::offset`: the geometry offset with the default segment count. */
  function Offset(clip: Clipper, lib: MathLib, g: Geometry, distance: real): (r: OffsetResult)
    ensures r.Ok?
    ensures r == GeometryOffset(clip, lib, g, distance, DEFAULT_ARC_SEGMENTS)
  {
    GeometryOffset(clip, lib, g, distance, DEFAULT_ARC_SEGMENTS)
  }
}
