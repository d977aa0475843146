/** The `offset_with_arc_segments` implementations of `src/offset.rs` as the
    step-by-step procedures they are: the point's angle accumulator, the
    segment's two arcs pushed into one vertex buffer, and the container loops
    that union each member's offset into a running multipolygon and return a
    member's error at once. Each is proved to compute the function of the
    same name in `OffsetSpec`. */
module Offsets {
  import opened Numerics
  import opened Edges
  import opened Geo
  import opened Arcs
  import opened OffsetSpec
  import opened OffsetProperties

  /** `Point::offset_with_arc_segments`: an angle advanced by 2 PI / count
      before each of the count vertices. */
  method OffsetPoint(lib: MathLib, p: Coord, distance: real, arcSegments: nat) returns (r: OffsetResult)
    requires arcSegments < 0x8000_0000
    ensures r == PointOffset(lib, p, distance, arcSegments)
  {
    if distance < 0.0 {
      return Ok([]);
    }
    var angle := 0.0;
    var verticeCount := VertexCount(arcSegments);
    var contour: seq<Coord> := [];
    for k := 0 to verticeCount
      invariant angle == StepAngle(0.0, PointStep(verticeCount), k)
      invariant contour == PointVertices(lib, p, distance, PointStep(verticeCount), k)
    {
      StepAngleNext(0.0, PointStep(verticeCount), k);
      angle := angle + PointStep(verticeCount);
      assert angle == StepAngle(0.0, PointStep(verticeCount), k + 1);
      var vertex := Coord(p.x + distance * lib.cos(angle), p.y + distance * lib.sin(angle));
      assert vertex == PointVertex(lib, p, distance, angle);
      contour := contour + [vertex];
    }
    return Ok([NewPolygon(contour, [])]);
  }

  /** `Line::offset_with_arc_segments`: for each of the two offset copies, an
      arc about the matching endpoint from the end of the previous copy to the
      start of the current one; a failed normal falls back to the start point. */
  method OffsetLine(lib: MathLib, line: Line, distance: real, arcSegments: nat) returns (r: OffsetResult)
    requires ValidArcSegments(arcSegments)
    ensures r == LineOffset(lib, line, distance, arcSegments)
  {
    if distance < 0.0 {
      return Ok([]);
    }
    var v1, v2 := line.start, line.end;
    var e1 := New(v1, v2);
    var inNormal, outNormal := InwardsNormal(lib, e1), OutwardsNormal(lib, e1);
    if inNormal.Ok? && outNormal.Ok? {
      var offsets := [WithOffset(e1, inNormal.value.x * distance, inNormal.value.y * distance),
                      InverseWithOffset(e1, outNormal.value.x * distance, outNormal.value.y * distance)];
      ghost var first := ArcPoints(lib, v1, distance, offsets[1].next, offsets[0].current, arcSegments, true);
      ghost var second := ArcPoints(lib, v2, distance, offsets[0].next, offsets[1].current, arcSegments, true);
      var len := 2;
      var vertices := new VertexBuffer();
      for i := 0 to len
        invariant vertices.points == if i == 0 then [] else if i == 1 then first else first + second
      {
        var currentEdge := offsets[i];
        var prevEdge := offsets[(i + len + 1) % len];
        CreateArc(lib, vertices, if i == 0 then v1 else v2, distance, prevEdge.next, currentEdge.current, arcSegments, true);
      }
      return Ok([NewPolygon(vertices.points, [])]);
    } else {
      r := OffsetPoint(lib, line.start, distance, arcSegments);
    }
  }

  /** `LineString::offset_with_arc_segments`: the segment offsets unioned in
      order, then every later polygon subtracted from the first. */
  method OffsetLineString(clip: Clipper, lib: MathLib, ls: LineString, distance: real, arcSegments: nat) returns (r: OffsetResult)
    requires ValidArcSegments(arcSegments)
    ensures r == LineStringOffset(clip, lib, ls, distance, arcSegments)
  {
    if distance < 0.0 {
      return Ok([]);
    }
    var lines := Lines(ls);
    ghost var rs := LineResults(lib, lines, distance, arcSegments);
    var lineStringWithOffset: MultiPolygon := [];
    for i := 0 to |lines|
      invariant UnionAll(clip, rs[..i]) == Ok(lineStringWithOffset)
    {
      var lineWithOffset := OffsetLine(lib, lines[i], distance, arcSegments);
      if lineWithOffset.Err? {
        return lineWithOffset;
      }
      UnionAllStep(clip, rs, i, lineStringWithOffset);
      lineStringWithOffset := clip.union(lineStringWithOffset, lineWithOffset.value, CLIPPER_SCALE);
    }
    assert rs[..|lines|] == rs;
    return Ok(SubtractLater(clip, lineStringWithOffset));
  }

  /** `MultiLineString::offset_with_arc_segments`. */
  method OffsetMultiLineString(clip: Clipper, lib: MathLib, mls: MultiLineString, distance: real, arcSegments: nat) returns (r: OffsetResult)
    requires ValidArcSegments(arcSegments)
    ensures r == MultiLineStringOffset(clip, lib, mls, distance, arcSegments)
  {
    if distance < 0.0 {
      return Ok([]);
    }
    ghost var rs := LineStringResults(clip, lib, mls, distance, arcSegments);
    var multiLineStringWithOffset: MultiPolygon := [];
    for i := 0 to |mls|
      invariant UnionAll(clip, rs[..i]) == Ok(multiLineStringWithOffset)
    {
      var lineStringWithOffset := OffsetLineString(clip, lib, mls[i], distance, arcSegments);
      if lineStringWithOffset.Err? {
        return lineStringWithOffset;
      }
      UnionAllStep(clip, rs, i, multiLineStringWithOffset);
      multiLineStringWithOffset := clip.union(multiLineStringWithOffset, lineStringWithOffset.value, CLIPPER_SCALE);
    }
    assert rs[..|mls|] == rs;
    return Ok(multiLineStringWithOffset);
  }

  /** `MultiPoint::offset_with_arc_segments`. */
  method OffsetMultiPoint(clip: Clipper, lib: MathLib, points: MultiPoint, distance: real, arcSegments: nat) returns (r: OffsetResult)
    requires arcSegments < 0x8000_0000
    ensures r == MultiPointOffset(clip, lib, points, distance, arcSegments)
  {
    if distance < 0.0 {
      return Ok([]);
    }
    ghost var rs := PointResults(lib, points, distance, arcSegments);
    var multiPointWithOffset: MultiPolygon := [];
    for i := 0 to |points|
      invariant UnionAll(clip, rs[..i]) == Ok(multiPointWithOffset)
    {
      var pointWithOffset := OffsetPoint(lib, points[i], distance, arcSegments);
      if pointWithOffset.Err? {
        return pointWithOffset;
      }
      UnionAllStep(clip, rs, i, multiPointWithOffset);
      multiPointWithOffset := clip.union(multiPointWithOffset, pointWithOffset.value, CLIPPER_SCALE);
    }
    assert rs[..|points|] == rs;
    return Ok(multiPointWithOffset);
  }

  /** `Polygon::offset_with_arc_segments`. */
  method OffsetPolygon(clip: Clipper, lib: MathLib, p: Polygon, distance: real, arcSegments: nat) returns (r: OffsetResult)
    requires ValidArcSegments(arcSegments)
    ensures r == PolygonOffset(clip, lib, p, distance, arcSegments)
  {
    var exteriorWithOffset := OffsetLineString(clip, lib, p.exterior, Abs(distance), arcSegments);
    if exteriorWithOffset.Err? {
      return exteriorWithOffset;
    }
    var interiorsWithOffset := OffsetMultiLineString(clip, lib, p.interiors, Abs(distance), arcSegments);
    if interiorsWithOffset.Err? {
      return interiorsWithOffset;
    }
    if 0.0 <= distance {
      return Ok(clip.union(clip.union([p], exteriorWithOffset.value, CLIPPER_SCALE), interiorsWithOffset.value, CLIPPER_SCALE));
    } else {
      return Ok(clip.difference(clip.difference([p], exteriorWithOffset.value, CLIPPER_SCALE), interiorsWithOffset.value, CLIPPER_SCALE));
    }
  }

  /** `MultiPolygon::offset_with_arc_segments`. */
  method OffsetMultiPolygon(clip: Clipper, lib: MathLib, mp: MultiPolygon, distance: real, arcSegments: nat) returns (r: OffsetResult)
    requires ValidArcSegments(arcSegments)
    ensures r == MultiPolygonOffset(clip, lib, mp, distance, arcSegments)
  {
    ghost var rs := PolygonResults(clip, lib, mp, distance, arcSegments);
    var polygons: MultiPolygon := [];
    for i := 0 to |mp|
      invariant UnionAll(clip, rs[..i]) == Ok(polygons)
    {
      var polygonWithOffset := OffsetPolygon(clip, lib, mp[i], distance, arcSegments);
      if polygonWithOffset.Err? {
        return polygonWithOffset;
      }
      UnionAllStep(clip, rs, i, polygons);
      polygons := clip.union(polygons, polygonWithOffset.value, CLIPPER_SCALE);
    }
    assert rs[..|mp|] == rs;
    return Ok(polygons);
  }

  /** `Geometry::offset_with_arc_segments`. */
  method OffsetGeometry(clip: Clipper, lib: MathLib, g: Geometry, distance: real, arcSegments: nat) returns (r: OffsetResult)
    requires ValidArcSegments(arcSegments)
    ensures r == GeometryOffset(clip, lib, g, distance, arcSegments)
    decreases g
  {
    match g
    case PointGeometry(point) => r := OffsetPoint(lib, point, distance, arcSegments);
    case LineGeometry(line) => r := OffsetLine(lib, line, distance, arcSegments);
    case LineStringGeometry(ls) => r := OffsetLineString(clip, lib, ls, distance, arcSegments);
    case TriangleGeometry(triangle) => r := OffsetPolygon(clip, lib, TriangleToPolygon(triangle), distance, arcSegments);
    case RectGeometry(rect) => r := OffsetPolygon(clip, lib, RectToPolygon(rect), distance, arcSegments);
    case PolygonGeometry(polygon) => r := OffsetPolygon(clip, lib, polygon, distance, arcSegments);
    case MultiPointGeometry(points) => r := OffsetMultiPoint(clip, lib, points, distance, arcSegments);
    case MultiLineStringGeometry(mls) => r := OffsetMultiLineString(clip, lib, mls, distance, arcSegments);
    case MultiPolygonGeometry(mp) => r := OffsetMultiPolygon(clip, lib, mp, distance, arcSegments);
    case GeometryCollectionGeometry(collection) => r := OffsetGeometryCollection(clip, lib, collection, distance, arcSegments);
  }

  /** `GeometryCollection::offset_with_arc_segments`. */
  method OffsetGeometryCollection(clip: Clipper, lib: MathLib, c: GeometryCollection, distance: real, arcSegments: nat) returns (r: OffsetResult)
    requires ValidArcSegments(arcSegments)
    ensures r == CollectionOffset(clip, lib, c, distance, arcSegments)
    decreases c
  {
    ghost var rs := GeometryResults(clip, lib, c, distance, arcSegments);
    var geometryCollectionWithOffset: MultiPolygon := [];
    for i := 0 to |c.items|
      invariant UnionAll(clip, rs[..i]) == Ok(geometryCollectionWithOffset)
    {
      var geometryWithOffset := OffsetGeometry(clip, lib, c.items[i], distance, arcSegments);
      if geometryWithOffset.Err? {
        return geometryWithOffset;
      }
      UnionAllStep(clip, rs, i, geometryCollectionWithOffset);
      geometryCollectionWithOffset := clip.union(geometryCollectionWithOffset, geometryWithOffset.value, CLIPPER_SCALE);
    }
    assert rs[..|c.items|] == rs;
    return Ok(geometryCollectionWithOffset);
  }

  /** `Offset::offset`: the geometry offset with `DEFAULT_ARC_SEGMENTS`. */
  method OffsetDefault(clip: Clipper, lib: MathLib, g: Geometry, distance: real) returns (r: OffsetResult)
    ensures r == Offset(clip, lib, g, distance)
  {
    r := OffsetGeometry(clip, lib, g, distance, DEFAULT_ARC_SEGMENTS);
  }
}
