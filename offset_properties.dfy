/** Properties of the offset functions of `src/offset.rs` that relate several
    calls or need the laws of the math library: the shape of a point's ring
    and of a segment's stadium, the fallback of a degenerate segment, the
    order of the folds, and the sign rule for polygons. */
module OffsetProperties {
  import opened Numerics
  import opened Edges
  import opened Geo
  import opened Arcs
  import opened OffsetSpec

  // ---------------------------------------------------------------------------
  // Point

  /** A point offset by a non-negative distance is one hole-free polygon
      whose closed ring holds the 2n + 1 computed vertices, vertex k at angle
      (k + 1) 2 PI / (2n + 1), followed by the first vertex again exactly
      when the last one differs from it. */
  lemma PointOffsetRing(lib: MathLib, p: Coord, distance: real, arcSegments: nat)
    requires arcSegments < 0x8000_0000 && 0.0 <= distance
    ensures
      var count := 2 * arcSegments + 1;
      var ring := PointOffset(lib, p, distance, arcSegments).value[0].exterior;
      (|ring| == count || (|ring| == count + 1 && ring[count] == ring[0])) &&
      IsClosed(ring) && (|ring| == count <==> ring[count - 1] == ring[0]) &&
      forall k :: 0 <= k < count ==> ring[k] == PointVertex(lib, p, distance, StepAngle(0.0, PointStep(count), k + 1))
  {
    var count := VertexCount(arcSegments);
    var contour := PointVertices(lib, p, distance, PointStep(count), count);
    var ring := Close(contour);
    assert PointOffset(lib, p, distance, arcSegments).value[0].exterior == ring;
    assert forall k :: 0 <= k < count ==> ring[k] == contour[k];
  }

  /** With cos^2 + sin^2 = 1, every vertex of a point's ring lies on the
      circle of radius `distance` about the point. */
  lemma PointOffsetOnCircle(lib: MathLib, p: Coord, distance: real, arcSegments: nat)
    requires Pythagorean(lib) && arcSegments < 0x8000_0000 && 0.0 <= distance
    ensures forall v :: v in PointOffset(lib, p, distance, arcSegments).value[0].exterior ==>
      SquaredNorm(Sub(v, p)) == distance * distance
  {
    var count := VertexCount(arcSegments);
    var contour := PointVertices(lib, p, distance, PointStep(count), count);
    assert PointOffset(lib, p, distance, arcSegments).value[0].exterior == Close(contour);
    forall v | v in Close(contour)
      ensures SquaredNorm(Sub(v, p)) == distance * distance
    {
      assert v in contour;
      var j :| 0 <= j < count && contour[j] == v;
      PointVertexOnCircle(lib, p, distance, StepAngle(0.0, PointStep(count), j + 1));
    }
  }

  /** One vertex of a point's ring lies on its circle. */
  lemma PointVertexOnCircle(lib: MathLib, p: Coord, distance: real, angle: real)
    requires Pythagorean(lib)
    ensures SquaredNorm(Sub(PointVertex(lib, p, distance, angle), p)) == distance * distance
  {
    assert PointVertex(lib, p, distance, angle) == ArcPoint(lib, p, distance, angle);
    ArcPointOnCircle(lib, p, distance, angle);
  }

  /** The default offset of a point by a non-negative distance is a closed
      ring of eleven computed vertices, the k-th at angle (k + 1) 2 PI / 11,
      followed by a twelfth equal to the first exactly when the eleventh
      differs from the first. */
  lemma DefaultPointOffset(clip: Clipper, lib: MathLib, p: Coord, distance: real)
    requires 0.0 <= distance
    ensures
      var r := Offset(clip, lib, PointGeometry(p), distance);
      |r.value| == 1 && r.value[0].interiors == [] &&
      (|r.value[0].exterior| == 11 || (|r.value[0].exterior| == 12 && r.value[0].exterior[11] == r.value[0].exterior[0])) &&
      IsClosed(r.value[0].exterior) && (|r.value[0].exterior| == 11 <==> r.value[0].exterior[10] == r.value[0].exterior[0]) &&
      forall k :: 0 <= k < 11 ==>
        r.value[0].exterior[k] == PointVertex(lib, p, distance, StepAngle(0.0, PointStep(11), k + 1))
  {
    PointOffsetRing(lib, p, distance, DEFAULT_ARC_SEGMENTS);
  }

  // ---------------------------------------------------------------------------
  // Line

  /** A non-degenerate segment offset by a non-negative distance is one
      hole-free polygon: an arc about the start from start + out d to
      start + in d, then an arc about the end from end + in d to
      end + out d, where `in` is the unit inwards normal and `out` its
      opposite; the ring is closed by one more vertex, since its first and
      last vertices differ. */
  lemma LineStadium(lib: MathLib, line: Line, distance: real, arcSegments: nat)
    requires SqrtLaw(lib) && ValidArcSegments(arcSegments) && 0.0 <= distance
    requires line.start != line.end
    ensures InwardsNormal(lib, New(line.start, line.end)).Ok?
    ensures
      var u := InwardsNormal(lib, New(line.start, line.end)).value;
      var ring := ArcPoints(lib, line.start, distance, Add(line.start, Scale(Neg(u), distance)), Add(line.start, Scale(u, distance)), arcSegments, true)
                + ArcPoints(lib, line.end, distance, Add(line.end, Scale(u, distance)), Add(line.end, Scale(Neg(u), distance)), arcSegments, true);
      Dot(u, u) == 1.0 &&
      LineOffset(lib, line, distance, arcSegments) == Ok([Polygon(ring + [ring[0]], [])]) &&
      |ring + [ring[0]]| == 2 * OddSegmentCount(arcSegments) + 3
  {
    var e := New(line.start, line.end);
    InwardsNormalIsLeftUnitNormal(lib, e);
    var u := InwardsNormal(lib, e).value;
    var offsets := LineOffsets(e, u, Neg(u), distance);
    assert offsets[1].next == Add(line.start, Scale(Neg(u), distance));
    assert offsets[0].current == Add(line.start, Scale(u, distance));
    assert offsets[0].next == Add(line.end, Scale(u, distance));
    assert offsets[1].current == Add(line.end, Scale(Neg(u), distance));
    var ring := StadiumRing(lib, line, distance, arcSegments, u, Neg(u));
    assert ring[0] == Add(line.start, Scale(Neg(u), distance));
    assert ring[|ring| - 1] == Add(line.end, Scale(Neg(u), distance));
    assert !IsClosed(ring);
  }

  /** A degenerate segment (start == end) is offset exactly like its start
      point: the normals fail and the error is never surfaced. */
  lemma DegenerateLineIsPoint(lib: MathLib, line: Line, distance: real, arcSegments: nat)
    requires SqrtLaw(lib) && ValidArcSegments(arcSegments)
    requires line.start == line.end
    ensures LineOffset(lib, line, distance, arcSegments) == PointOffset(lib, line.start, distance, arcSegments)
  {
    InwardsNormalFailsIff(lib, New(line.start, line.end));
    FailedNormalIsPoint(lib, line, distance, arcSegments);
  }

  /** When the inwards normal fails, the segment is offset like its start point. */
  lemma FailedNormalIsPoint(lib: MathLib, line: Line, distance: real, arcSegments: nat)
    requires ValidArcSegments(arcSegments)
    requires InwardsNormal(lib, New(line.start, line.end)).Err?
    ensures LineOffset(lib, line, distance, arcSegments) == PointOffset(lib, line.start, distance, arcSegments)
  {
  }

  /** `c + u d` lies at distance `d` from `c` for a unit vector `u`. */
  lemma UnitOffsetOnCircle(c: Coord, u: Coord, d: real)
    requires Dot(u, u) == 1.0
    ensures SquaredNorm(Sub(Add(c, Scale(u, d)), c)) == d * d
  {
    assert Sub(Add(c, Scale(u, d)), c) == Coord(u.x * d, u.y * d);
    SquareOfProduct(u.x, d);
    SquareOfProduct(u.y, d);
    DistribRight(u.x * u.x, u.y * u.y, d * d);
    calc {
      SquaredNorm(Coord(u.x * d, u.y * d));
      == (u.x * d) * (u.x * d) + (u.y * d) * (u.y * d);
      == (u.x * u.x) * (d * d) + (u.y * u.y) * (d * d);
      == (u.x * u.x + u.y * u.y) * (d * d);
      == { assert u.x * u.x + u.y * u.y == Dot(u, u); }
      1.0 * (d * d);
    }
  }

  /** The opposite of a unit vector is a unit vector. */
  lemma NegUnit(u: Coord)
    requires Dot(u, u) == 1.0
    ensures Dot(Neg(u), Neg(u)) == 1.0
  {
    SquareOfNegation(u.x);
    SquareOfNegation(u.y);
    calc {
      Dot(Neg(u), Neg(u));
      == (-u.x) * (-u.x) + (-u.y) * (-u.y);
      == u.x * u.x + u.y * u.y;
      == Dot(u, u);
    }
  }

  /** An arc whose two end vertices lie on the circle lies on it entirely. */
  lemma ArcOnCircle(lib: MathLib, center: Coord, radius: real, startVertex: Coord, endVertex: Coord,
                    segmentCount: nat, outwards: bool)
    requires Pythagorean(lib) && 1 <= segmentCount
    requires SquaredNorm(Sub(startVertex, center)) == radius * radius
    requires SquaredNorm(Sub(endVertex, center)) == radius * radius
    ensures forall v :: v in ArcPoints(lib, center, radius, startVertex, endVertex, segmentCount, outwards) ==>
      SquaredNorm(Sub(v, center)) == radius * radius
  {
    var arc := ArcPoints(lib, center, radius, startVertex, endVertex, segmentCount, outwards);
    forall v | v in arc
      ensures SquaredNorm(Sub(v, center)) == radius * radius
    {
      var k :| 0 <= k < |arc| && arc[k] == v;
      if 0 < k < |arc| - 1 {
        ArcInteriorOnCircle(lib, center, radius, startVertex, endVertex, segmentCount, outwards, k);
      }
    }
  }

  /** With exact square roots and cos^2 + sin^2 = 1, every vertex of the
      stadium of a non-degenerate segment lies at distance `distance` from
      the start or from the end of the segment. */
  lemma StadiumOnBoundary(lib: MathLib, line: Line, distance: real, arcSegments: nat)
    requires SqrtLaw(lib) && Pythagorean(lib) && ValidArcSegments(arcSegments) && 0.0 <= distance
    requires line.start != line.end
    ensures forall v :: v in LineOffset(lib, line, distance, arcSegments).value[0].exterior ==>
      SquaredNorm(Sub(v, line.start)) == distance * distance || SquaredNorm(Sub(v, line.end)) == distance * distance
  {
    LineStadium(lib, line, distance, arcSegments);
    var u := InwardsNormal(lib, New(line.start, line.end)).value;
    NegUnit(u);
    UnitOffsetOnCircle(line.start, u, distance);
    UnitOffsetOnCircle(line.start, Neg(u), distance);
    UnitOffsetOnCircle(line.end, u, distance);
    UnitOffsetOnCircle(line.end, Neg(u), distance);
    var a1 := ArcPoints(lib, line.start, distance, Add(line.start, Scale(Neg(u), distance)), Add(line.start, Scale(u, distance)), arcSegments, true);
    var a2 := ArcPoints(lib, line.end, distance, Add(line.end, Scale(u, distance)), Add(line.end, Scale(Neg(u), distance)), arcSegments, true);
    ArcOnCircle(lib, line.start, distance, Add(line.start, Scale(Neg(u), distance)), Add(line.start, Scale(u, distance)), arcSegments, true);
    ArcOnCircle(lib, line.end, distance, Add(line.end, Scale(u, distance)), Add(line.end, Scale(Neg(u), distance)), arcSegments, true);
    var ring := a1 + a2;
    forall v | v in ring + [ring[0]]
      ensures SquaredNorm(Sub(v, line.start)) == distance * distance || SquaredNorm(Sub(v, line.end)) == distance * distance
    {
      assert v in a1 || v in a2;
    }
  }

  // ---------------------------------------------------------------------------
  // LineString

  /** A polyline of fewer than two vertices has no segments, so its offset
      is empty. */
  lemma ShortLineStringIsEmpty(clip: Clipper, lib: MathLib, ls: LineString, distance: real, arcSegments: nat)
    requires ValidArcSegments(arcSegments) && |ls| < 2
    ensures LineStringOffset(clip, lib, ls, distance, arcSegments) == Ok([])
  {
    assert LineResults(lib, Lines(ls), distance, arcSegments) == [];
  }

  /** The second pass subtracts the later polygons in order: one more
      polygon at the end is subtracted from what the others gave. */
  lemma SubtractLaterAppend(clip: Clipper, mp: MultiPolygon, hole: Polygon)
    requires |mp| >= 1
    ensures SubtractLater(clip, mp + [hole]) == clip.difference(SubtractLater(clip, mp), [hole], CLIPPER_SCALE)
  {
    assert (mp + [hole])[0] == mp[0];
    assert (mp + [hole])[1..] == mp[1..] + [hole];
    assert (mp[1..] + [hole])[..|mp[1..] + [hole]| - 1] == mp[1..];
  }

  /** A polyline of one segment is offset to that segment's stadium unioned
      onto the empty multipolygon (and nothing subtracted from it when the
      union is one polygon). */
  lemma SingleSegmentLineString(clip: Clipper, lib: MathLib, a: Coord, b: Coord, distance: real, arcSegments: nat)
    requires ValidArcSegments(arcSegments) && 0.0 <= distance
    ensures LineStringOffset(clip, lib, [a, b], distance, arcSegments)
         == Ok(SubtractLater(clip, clip.union([], LineOffset(lib, Line(a, b), distance, arcSegments).value, CLIPPER_SCALE)))
  {
    assert Lines([a, b]) == [Line(a, b)];
    var rs := LineResults(lib, Lines([a, b]), distance, arcSegments);
    assert rs == [LineOffset(lib, Line(a, b), distance, arcSegments)];
    UnionAllSingle(clip, LineOffset(lib, Line(a, b), distance, arcSegments));
  }

  // ---------------------------------------------------------------------------
  // Containers

  /** Once a prefix of member results fails, the members after it do not
      matter: the container returns the prefix's first error. */
  lemma {:induction false} UnionAllStopsAtError(clip: Clipper, a: seq<OffsetResult>, b: seq<OffsetResult>)
    requires UnionAll(clip, a).Err?
    ensures UnionAll(clip, a + b) == UnionAll(clip, a)
    decreases |b|
  {
    if |b| == 0 {
      assert a + b == a;
    } else {
      var front := b[..|b| - 1];
      UnionAllStopsAtError(clip, a, front);
      assert (a + b)[..|a + b| - 1] == a + front;
    }
  }

  /** A single successful member result is unioned onto the empty multipolygon. */
  lemma UnionAllSingle(clip: Clipper, r: OffsetResult)
    requires r.Ok?
    ensures UnionAll(clip, [r]) == Ok(clip.union([], r.value, CLIPPER_SCALE))
  {
    assert [r][..0] == [];
  }

  /** One more member result is unioned onto what the earlier ones gave. */
  lemma UnionAllAppend(clip: Clipper, rs: seq<OffsetResult>, m: MultiPolygon)
    requires UnionAll(clip, rs).Ok?
    ensures UnionAll(clip, rs + [Ok(m)]) == Ok(clip.union(UnionAll(clip, rs).value, m, CLIPPER_SCALE))
  {
    assert (rs + [Ok(m)])[..|rs|] == rs;
  }

  /** The container loop's step: the accumulator of the first i member
      results, unioned with member i, is the accumulator of the first i + 1. */
  lemma UnionAllStep(clip: Clipper, rs: seq<OffsetResult>, i: nat, acc: MultiPolygon)
    requires i < |rs| && rs[i].Ok? && UnionAll(clip, rs[..i]) == Ok(acc)
    ensures UnionAll(clip, rs[..i + 1]) == Ok(clip.union(acc, rs[i].value, CLIPPER_SCALE))
  {
    assert rs[..i + 1] == rs[..i] + [rs[i]];
    UnionAllAppend(clip, rs[..i], rs[i].value);
  }

  /** A multipoint with one more point: its offset is unioned onto the
      offset of the others. */
  lemma MultiPointAppend(clip: Clipper, lib: MathLib, points: MultiPoint, q: Coord, distance: real, arcSegments: nat)
    requires arcSegments < 0x8000_0000 && 0.0 <= distance
    ensures MultiPointOffset(clip, lib, points + [q], distance, arcSegments)
         == Ok(clip.union(MultiPointOffset(clip, lib, points, distance, arcSegments).value,
                          PointOffset(lib, q, distance, arcSegments).value, CLIPPER_SCALE))
  {
    var rs := PointResults(lib, points, distance, arcSegments);
    assert PointResults(lib, points + [q], distance, arcSegments) == rs + [PointOffset(lib, q, distance, arcSegments)];
    UnionAllAppend(clip, rs, PointOffset(lib, q, distance, arcSegments).value);
  }

  /** A multipolyline with one more polyline: its offset is unioned onto the
      offset of the others. */
  lemma MultiLineStringAppend(clip: Clipper, lib: MathLib, mls: MultiLineString, ls: LineString, distance: real, arcSegments: nat)
    requires ValidArcSegments(arcSegments) && 0.0 <= distance
    ensures MultiLineStringOffset(clip, lib, mls + [ls], distance, arcSegments)
         == Ok(clip.union(MultiLineStringOffset(clip, lib, mls, distance, arcSegments).value,
                          LineStringOffset(clip, lib, ls, distance, arcSegments).value, CLIPPER_SCALE))
  {
    var rs := LineStringResults(clip, lib, mls, distance, arcSegments);
    assert LineStringResults(clip, lib, mls + [ls], distance, arcSegments) == rs + [LineStringOffset(clip, lib, ls, distance, arcSegments)];
    UnionAllAppend(clip, rs, LineStringOffset(clip, lib, ls, distance, arcSegments).value);
  }

  /** A multipolygon with one more polygon: its offset is unioned onto the
      offset of the others, whatever the sign of the distance. */
  lemma MultiPolygonAppend(clip: Clipper, lib: MathLib, mp: MultiPolygon, p: Polygon, distance: real, arcSegments: nat)
    requires ValidArcSegments(arcSegments)
    ensures MultiPolygonOffset(clip, lib, mp + [p], distance, arcSegments)
         == Ok(clip.union(MultiPolygonOffset(clip, lib, mp, distance, arcSegments).value,
                          PolygonOffset(clip, lib, p, distance, arcSegments).value, CLIPPER_SCALE))
  {
    var rs := PolygonResults(clip, lib, mp, distance, arcSegments);
    assert PolygonResults(clip, lib, mp + [p], distance, arcSegments) == rs + [PolygonOffset(clip, lib, p, distance, arcSegments)];
    UnionAllAppend(clip, rs, PolygonOffset(clip, lib, p, distance, arcSegments).value);
  }

  /** A collection with one more geometry: its offset is unioned onto the
      offset of the others, whatever the sign of the distance. */
  lemma CollectionAppend(clip: Clipper, lib: MathLib, items: seq<Geometry>, g: Geometry, distance: real, arcSegments: nat)
    requires ValidArcSegments(arcSegments)
    ensures CollectionOffset(clip, lib, GeometryCollection(items + [g]), distance, arcSegments)
         == Ok(clip.union(CollectionOffset(clip, lib, GeometryCollection(items), distance, arcSegments).value,
                          GeometryOffset(clip, lib, g, distance, arcSegments).value, CLIPPER_SCALE))
  {
    var rs := GeometryResults(clip, lib, GeometryCollection(items), distance, arcSegments);
    assert GeometryResults(clip, lib, GeometryCollection(items + [g]), distance, arcSegments)
        == rs + [GeometryOffset(clip, lib, g, distance, arcSegments)];
    UnionAllAppend(clip, rs, GeometryOffset(clip, lib, g, distance, arcSegments).value);
  }

  // ---------------------------------------------------------------------------
  // Polygon

  /** The sign of the distance picks the operation, not the buffers: the
      exterior and interior rings are buffered at |distance| either way, a
      non-negative distance unions the buffers onto the polygon and the
      opposite distance subtracts the very same buffers from it. */
  lemma PolygonOffsetSign(clip: Clipper, lib: MathLib, p: Polygon, distance: real, arcSegments: nat)
    requires ValidArcSegments(arcSegments) && 0.0 <= distance
    ensures
      var exterior := LineStringOffset(clip, lib, p.exterior, distance, arcSegments).value;
      var interiors := MultiLineStringOffset(clip, lib, p.interiors, distance, arcSegments).value;
      PolygonOffset(clip, lib, p, distance, arcSegments)
        == Ok(clip.union(clip.union([p], exterior, CLIPPER_SCALE), interiors, CLIPPER_SCALE)) &&
      (0.0 < distance ==>
        PolygonOffset(clip, lib, p, -distance, arcSegments)
          == Ok(clip.difference(clip.difference([p], exterior, CLIPPER_SCALE), interiors, CLIPPER_SCALE)))
  {
    assert Abs(distance) == distance && Abs(-distance) == distance;
  }

  /** A multipolygon does not return early on a negative distance: each
      polygon is shrunk by subtracting its buffered rings. */
  lemma NegativeMultiPolygonShrinks(clip: Clipper, lib: MathLib, p: Polygon, distance: real, arcSegments: nat)
    requires ValidArcSegments(arcSegments) && distance < 0.0
    ensures
      var exterior := LineStringOffset(clip, lib, p.exterior, -distance, arcSegments).value;
      var interiors := MultiLineStringOffset(clip, lib, p.interiors, -distance, arcSegments).value;
      MultiPolygonOffset(clip, lib, [p], distance, arcSegments)
        == Ok(clip.union([], clip.difference(clip.difference([p], exterior, CLIPPER_SCALE), interiors, CLIPPER_SCALE), CLIPPER_SCALE))
  {
    var rs := PolygonResults(clip, lib, [p], distance, arcSegments);
    assert rs == [PolygonOffset(clip, lib, p, distance, arcSegments)];
    UnionAllSingle(clip, PolygonOffset(clip, lib, p, distance, arcSegments));
    PolygonOffsetSign(clip, lib, p, -distance, arcSegments);
  }
}
