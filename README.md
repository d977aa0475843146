# geo-offset in Dafny

A model of the core of `geo-offset`, a Rust crate that dilates and shrinks
planar geometries (a port of the JavaScript `polygon-offset` library). Given a
distance, every geometry is turned into a multipolygon:

- a point becomes a regular polygon with an odd number of vertices on the
  circle of that radius;
- a segment becomes a "stadium": two half-circle arcs joined by the two
  copies of the segment moved along its normals;
- a polyline becomes the union of its segments' stadiums, after which every
  later polygon is subtracted from the first;
- a polygon has its exterior and interior rings buffered at the absolute
  distance. The buffers are unioned onto the polygon for a non-negative
  distance and subtracted from it for a negative one;
- multi-geometries and collections union the offsets of their members and
  stop at the first member error.

The model has these modules:

- `Numerics` (`numerics.dfy`): reals, the `Result` type, and the four libm
  functions as a `MathLib` record.
- `Edges` (`edge.dfy`): the directed edge of `src/edge.rs` and its normals.
- `Geo` (`geo.dfy`): the `geo_types` shapes, the two ring helpers of that
  crate the offset code relies on, and the boolean engine of `geo_clipper`
  as a `Clipper` record of two functions.
- `Arcs` (`arc.dfy`): the arc generator `create_arc`.
  - The output `Vec` it pushes into is a `VertexBuffer` class.
  - `CreateArc` is a method proved to append exactly `ArcPoints`.
- `OffsetSpec` (`offset_spec.dfy`): one pure function per
  `offset_with_arc_segments` implementation.
- `OffsetProperties` (`offset_properties.dfy`): lemmas relating those
  functions: ring shapes, fallbacks, fold order and the sign rule.
- `Offsets` (`offset.dfy`): the same implementations as the step-by-step
  loops they are.
  - The point's angle accumulator and the segment's two arcs are kept as
    loops, each proved to compute its `OffsetSpec` function.
  - The containers' union loops also return early on the first error, and
    are likewise proved against their `OffsetSpec` functions.
- `Orientation` (`utils.dfy`): `orient_rings`, a shoelace accumulator and an
  in-place reversal. It is proved against `OrientRing`, about which the
  orientation lemmas are stated.

Coordinates are reals. `sqrt`, `atan2`, `cos` and `sin` are parameters. A
lemma that needs one of them asks only for the law it uses:

- `SqrtLaw`: a non-negative square root;
- `Atan2Range`: a result in [-PI, PI];
- `Pythagorean`: cos² + sin² = 1.

The clipper is a parameter too, and nothing is assumed about it. The
statements about union and difference are therefore statements about which
operands the offset code passes, and in which order.

## Model

| member | source | states |
|---|---|---|
| Edges.New | src/edge.rs:15-20 | the edge stores the two given vertices as `current` and `next` |
| Edges.NewWithOffset | src/edge.rs:22-27 | both vertices are moved by (dx, dy), and the direction is unchanged |
| Edges.WithOffset | src/edge.rs:48-50 | each vertex moves by exactly (dx, dy), and the direction is kept |
| Edges.Inverse | src/edge.rs:56-58 | the vertices are swapped, and the direction is negated |
| Edges.InverseWithOffset | src/edge.rs:52-54 | the inverse edge translated by (dx, dy), whose direction is the negated direction |
| Edges.InwardsNormal | src/edge.rs:29-41 | a degenerate edge (with sqrt(0) = 0) gives `VerticesOverlap`. `InwardsNormalFailsIff` states that it fails exactly for coinciding vertices; `InwardsNormalIsLeftUnitNormal` states that otherwise it is the unit normal to the left |
| Edges.OutwardsNormal | src/edge.rs:43-46 | fails exactly when the inwards normal fails, and otherwise is its negation |
| Edges.InverseInvolution | src/edge.rs:56-58 | inverting twice gives the edge back |
| Edges.DirectionZeroIff | src/edge.rs:30-31 | the direction (dx, dy) is zero iff the two vertices coincide |
| Edges.InwardsNormalFailsIff | src/edge.rs:29-41 | with a true square root, the normal is `VerticesOverlap` iff the vertices coincide |
| Edges.UnitLeftNormal | src/edge.rs:32-34 | (-dy/len, dx/len) with len² = dx² + dy² > 0 has unit length, is perpendicular to the edge and lies to its left |
| Edges.InwardsNormalIsLeftUnitNormal | src/edge.rs:29-41 | for distinct vertices the inwards normal exists, has unit length, is perpendicular and points left of travel |
| Edges.InverseSwapsNormals | src/edge.rs:29-58 | the inwards normal of the inverse edge is the outwards normal of the edge, and vice versa |
| Edges.VerticalEdgeNormals | src/tests/mod.rs:8-20 | the edge (0,0)→(0,5) keeps its vertices; its inwards normal is (-1,0) and its outwards normal is (1,0) |
| Geo.Close | src/offset.rs:209-212 | the ring `Polygon::new` stores is closed and keeps the input as a prefix; it is one vertex longer exactly when the input was open, and unchanged when closed |
| Geo.NewPolygon | src/offset.rs:265-268 | `Polygon::new` closes the exterior and each interior ring |
| Geo.Lines | src/offset.rs:152 | a polyline of n ≥ 2 vertices has n − 1 segments, and none when shorter; segment i joins vertex i to i + 1, and consecutive segments share an endpoint |
| Geo.TriangleToPolygon | src/offset.rs:58-60 | a triangle becomes the hole-free ring a, b, c, a |
| Geo.RectToPolygon | src/offset.rs:61-63 | a rectangle becomes a hole-free closed ring of five vertices, each a corner of the rectangle |
| Arcs.VertexBuffer.constructor | src/offset.rs:193 | the vertex buffer starts empty |
| Arcs.VertexBuffer.Push | src/offset.rs:311 | pushing appends one vertex and keeps the others |
| Arcs.OddSegmentCount | src/offset.rs:297-301 | the segment count used is odd; it equals an odd request and is one less than an even one |
| Arcs.NormalizeAngle | src/offset.rs:284-288 | normalising adds 0 or a full turn; an `atan2` result lands in [0, 2 PI) |
| Arcs.VertexAngle | src/offset.rs:283-295 | the normalised `atan2` angle of a vertex about the center; `VertexAngleRange` proves it lies in [0, 2 PI) |
| Arcs.Sweep | src/offset.rs:309 | the signed turn of the whole arc, `-span` outwards and `2 PI - span` otherwise; `SweepRange` bounds it and `SweepLandsOnEnd` shows it lands on the end angle |
| Arcs.SegmentAngle | src/offset.rs:309 | the sweep split into sc equal steps; `StepsMakeSweep` proves sc steps make the whole sweep |
| Arcs.ArcSpan | src/offset.rs:303-307 | start − span is the end angle up to a full turn. For normalised angles the span is in (0, 2 PI], and is a full turn iff the angles agree |
| Arcs.ArcInterior | src/offset.rs:312-318 | the k-th interior point is the circle point k + 1 steps from the start angle |
| Arcs.ArcPoints | src/offset.rs:311-319 | the arc has `OddSegmentCount + 1` vertices, starts at the start vertex and ends at the end vertex |
| Arcs.CreateArc | src/offset.rs:272-320 | the buffer ends as its old contents followed by exactly `ArcPoints` |
| Arcs.ArcPointOnCircle | src/offset.rs:314-317 | with cos² + sin² = 1, every generated point is at distance `radius` from the center |
| Arcs.ArcInteriorOnCircle | src/offset.rs:312-318 | every interior point of an arc lies on the circle |
| Arcs.VertexAngleRange | src/offset.rs:283-295 | with `atan2` in [-PI, PI], the normalised angles lie in [0, 2 PI) |
| Arcs.StepsMakeSweep | src/offset.rs:309-313 | sc steps of `segment_angle` from the start turn by exactly the whole sweep |
| Arcs.SweepRange | src/offset.rs:309 | an outwards sweep is clockwise, in [-2 PI, 0); otherwise it is counter-clockwise, in [0, 2 PI) |
| Arcs.SweepLandsOnEnd | src/offset.rs:303-309 | start + sweep is the end angle up to a full turn |
| Arcs.ArcAngles | src/offset.rs:283-313 | the span is in (0, 2 PI] and the sweep stays within one turn; the last step lands on the end angle up to a full turn |
| OffsetSpec.Abs | src/offset.rs:106 | `distance.abs()` is non-negative and is ±distance |
| OffsetSpec.UnionAll | src/offset.rs:151-155 | the union fold with `?` succeeds iff every member does; otherwise it returns the error of the first failing member |
| OffsetSpec.SubtractLater | src/offset.rs:157-166 | the difference fold returns nothing for no polygons and the polygon itself for one |
| OffsetSpec.VertexCount | src/offset.rs:250-253 | a point's ring has 2n + 1 computed vertices |
| OffsetSpec.PointVertices | src/offset.rs:255-263 | vertex k of a point's ring sits k + 1 steps of 2 PI / count round from angle 0 |
| OffsetSpec.PointOffset | src/offset.rs:238-270 | never fails; empty for a negative distance, otherwise one hole-free polygon |
| OffsetSpec.LineOffsets | src/offset.rs:187-190 | two offset copies: the segment moved by in·d, and the reversed segment moved by out·d. Each endpoint is stated, and the copies keep and reverse the direction |
| OffsetSpec.StadiumRing | src/offset.rs:192-207 | 2·sc + 2 vertices: from start + out·d round the start to start + in·d, then from end + in·d round the end to end + out·d |
| OffsetSpec.LineOffset | src/offset.rs:172-217 | never fails; empty for a negative distance, otherwise one hole-free polygon |
| OffsetSpec.LineStringOffset | src/offset.rs:141-170 | never fails; empty for a negative distance |
| OffsetSpec.MultiLineStringOffset | src/offset.rs:120-139 | never fails; empty for a negative distance |
| OffsetSpec.MultiPointOffset | src/offset.rs:219-236 | never fails; empty for a negative distance |
| OffsetSpec.PolygonOffset | src/offset.rs:98-118 | never fails |
| OffsetSpec.MultiPolygonOffset | src/offset.rs:83-96 | never fails |
| OffsetSpec.GeometryOffset | src/offset.rs:42-81 | never fails, whatever the variant |
| OffsetSpec.CollectionOffset | src/offset.rs:26-40 | never fails |
| OffsetSpec.Offset | src/offset.rs:14-17 | `offset` never fails and is `offset_with_arc_segments` with 5 segments |
| OffsetProperties.PointOffsetRing | src/offset.rs:248-268 | for d ≥ 0 the ring is closed and holds the 2n + 1 vertices in order. A repeat of the first vertex is added exactly when the last computed vertex differs from it |
| OffsetProperties.PointOffsetOnCircle | src/offset.rs:255-263 | with cos² + sin² = 1, every vertex of a point's ring is at distance d from the point |
| OffsetProperties.DefaultPointOffset | src/tests/mod.rs:23-78 | the default offset of a point is one closed, hole-free ring of eleven vertices at angles (k + 1)·2 PI/11. A twelfth vertex equal to the first is added exactly when the eleventh differs from the first; which case applies depends on the libm values |
| OffsetProperties.LineStadium | src/offset.rs:182-212 | a non-degenerate segment gives one polygon of 2·sc + 3 vertices. It is an arc about the start from start − u·d to start + u·d, then an arc about the end from end + u·d to end − u·d, closed; u is the unit inwards normal |
| OffsetProperties.DegenerateLineIsPoint | src/offset.rs:186-215 | a segment whose endpoints coincide is offset as its start point; no error surfaces |
| OffsetProperties.FailedNormalIsPoint | src/offset.rs:213-215 | whenever the normal fails, the segment falls back to the point offset of its start |
| OffsetProperties.ArcOnCircle | src/offset.rs:311-319 | if the start and end vertices are on the circle, every vertex of the arc is |
| OffsetProperties.StadiumOnBoundary | src/offset.rs:186-207 | every vertex of a segment's stadium is at distance d from the start or from the end |
| OffsetProperties.ShortLineStringIsEmpty | src/offset.rs:151-166 | a polyline of fewer than two vertices has no segments and offsets to the empty multipolygon |
| OffsetProperties.SubtractLaterAppend | src/offset.rs:157-166 | a polygon appended after the first is subtracted from the result of the others |
| OffsetProperties.SingleSegmentLineString | src/offset.rs:151-166 | a one-segment polyline offsets to that segment's stadium unioned onto the empty multipolygon, then folded by the difference |
| OffsetProperties.UnionAllStopsAtError | src/offset.rs:153 | once a prefix has failed, later members do not change the returned error |
| OffsetProperties.UnionAllAppend | src/offset.rs:151-155 | one more successful member is unioned onto the accumulated result |
| OffsetProperties.UnionAllStep | src/offset.rs:151-155 | the accumulator of the first i members unioned with member i is the accumulator of i + 1 members |
| OffsetProperties.MultiPointAppend | src/offset.rs:229-234 | a multipoint with one more point unions that point's offset onto the others' |
| OffsetProperties.MultiLineStringAppend | src/offset.rs:130-137 | a multi-polyline with one more polyline unions its offset onto the others' |
| OffsetProperties.MultiPolygonAppend | src/offset.rs:89-94 | a multipolygon with one more polygon unions its offset onto the others', for either sign of distance |
| OffsetProperties.CollectionAppend | src/offset.rs:32-38 | a collection with one more geometry unions its offset onto the others' |
| OffsetProperties.PolygonOffsetSign | src/offset.rs:104-116 | the rings are buffered at \|d\| either way; +d unions the buffers onto the polygon, −d subtracts the same buffers |
| OffsetProperties.NegativeMultiPolygonShrinks | src/offset.rs:83-118 | a multipolygon does not return early for d < 0; its polygon is shrunk by difference, then unioned onto the empty result |
| Offsets.OffsetPoint | src/offset.rs:238-270 | the angle-accumulator loop computes `PointOffset` |
| Offsets.OffsetLine | src/offset.rs:172-217 | the two `create_arc` calls into one buffer compute `LineOffset` |
| Offsets.OffsetLineString | src/offset.rs:141-170 | the union loop with an early return on error, then the difference fold, computes `LineStringOffset` |
| Offsets.OffsetMultiLineString | src/offset.rs:120-139 | the union loop computes `MultiLineStringOffset` |
| Offsets.OffsetMultiPoint | src/offset.rs:219-236 | the union loop computes `MultiPointOffset` |
| Offsets.OffsetPolygon | src/offset.rs:98-118 | computes `PolygonOffset` |
| Offsets.OffsetMultiPolygon | src/offset.rs:83-96 | the union loop computes `MultiPolygonOffset` |
| Offsets.OffsetGeometry | src/offset.rs:42-81 | the dispatch computes `GeometryOffset` |
| Offsets.OffsetGeometryCollection | src/offset.rs:26-40 | the union loop computes `CollectionOffset` |
| Offsets.OffsetDefault | src/offset.rs:14-17 | computes `Offset` |
| Orientation.Reverse | src/utils.rs:14-16 | the reversed ring has the same length, and vertex i is vertex n − 1 − i of the input |
| Orientation.ReverseInPlace | src/utils.rs:15 | the array ends as the reverse of its old contents |
| Orientation.OrientRings | src/utils.rs:5-19 | the accumulator loop and the conditional in-place reversal compute `OrientRing` |
| Orientation.PartialShoelace | src/utils.rs:9-12 | the accumulator after k cyclic pairs; `PartialIsOpen` proves that before the wrap pair it is the open sum of the prefix |
| Orientation.ShoelaceSum | src/utils.rs:6-12 | the final accumulator: the sum over all n cyclic pairs. It is zero for rings of fewer than three vertices |
| Orientation.NeedsReversal | src/utils.rs:14 | an exterior ring is reversed when its sum is ≥ 0 (zero counts as positive), a hole when its sum is < 0 |
| Orientation.OrientRing | src/utils.rs:5-19 | the input, or its reverse when `NeedsReversal`; `OrientRingPermutes`, `OrientRingSign`, `OrientRingIdempotent` and `ZeroAreaExteriorFlips` state its properties |
| Orientation.ShoelaceSplit | src/utils.rs:9-12 | the cyclic sum is the sum over consecutive pairs plus the closing pair (last, first) |
| Orientation.ShoelaceReverse | src/utils.rs:9-16 | reversing a ring negates its shoelace sum |
| Orientation.ReverseMultiset | src/utils.rs:14-16 | reversal keeps the multiset of vertices |
| Orientation.OrientRingPermutes | src/utils.rs:7-18 | the output is the input or its reverse, with the same length and multiset of vertices |
| Orientation.OrientRingSign | src/utils.rs:9-16 | the output sum is the input's, negated exactly when reversed. An exterior ring comes out with sum ≤ 0, a hole with sum ≥ 0 |
| Orientation.OrientRingIdempotent | src/utils.rs:14-16 | orienting a hole, or an exterior ring of nonzero area, a second time changes nothing |
| Orientation.ZeroAreaExteriorFlips | src/utils.rs:6-16 | an exterior ring of zero area is reversed on every call, so two calls give it back |

## Left out

- Floating point. All arithmetic is over the reals, so none of the following is modelled:
  - rounding;
  - overflow to infinity, e.g. `dx * dx` for huge coordinates;
  - NaN inputs.
  - `is_finite` in `inwards_normal` becomes "the length is not zero". Over the reals, that is the only way the division fails.
- Edges.InwardsNormal: assumes an exact square root. With IEEE overflow, `sqrt(dx² + dy²)` can be infinite and the normal finite but zero; this is not captured.
- Negative zero. `distance.is_sign_positive()` is modelled as `0 <= distance`. So:
  - a polygon offset by `-0.0`, which takes the difference branch in the source, takes the union branch here;
  - an `atan2` result of `-0.0`, which `create_arc` moves to 2 PI, stays 0 here.
- In `orient_rings`, `is_sign_positive` and `is_sign_negative` of the area become `>= 0` and `< 0`. The accumulator starts at `+0.0`, and a sum that returns to zero is `+0.0` under round-to-nearest. So only NaN areas differ.
- OffsetSpec.PointVertices: vertex k is at angle (k + 1) · step, computed exactly. The source adds the step k + 1 times in floating point, so the rounding drift of that accumulator is not modelled.
- libm accuracy is not modelled. `sqrt`, `atan2`, `cos` and `sin` are caller-supplied functions, and only the laws named in each lemma's precondition are used. For that reason the exact coordinates of the point test in `src/tests/mod.rs:23-82` are not reproduced; `DefaultPointOffset` states the ring's structure instead.
- The clipper. `geo_clipper`'s union and difference at scale 1000.0 are opaque parameters, so no geometric property of the final multipolygons is stated, only the operands and their order.
- `geo_types` is not part of this model. `Polygon::new` (closing rings), `LineString::lines`, `Triangle::to_polygon` and `Rect::to_polygon` are given as the definitions that crate documents; the rectangle's corner order follows `geo_types`.
- u32 bounds. `arc_segments * 2` overflows for 2^31 or more, so every point-based entry requires fewer segments.
- OffsetSpec.LineOffset: requires at least one arc segment. `create_arc` computes `segment_count - 1` for an even count, which underflows for zero.
- OffsetSpec.LineStringOffset: requires the same bound, and so do the functions that reach it: polygons, multi-polylines, multipolygons, geometries and collections. The source would also accept zero when no non-degenerate segment is ever reached.
- The `Offset` trait is not modelled as a trait. There is one function and one method per implementing type, and `Offset` / `OffsetDefault` stand for the trait's default `offset`.
- The member errors propagated by `?` can never occur, since no offset fails (every `OffsetSpec` function ensures `Ok`). The early returns are modelled anyway.
- `create_arc` is only ever called with `outwards = true`. The `false` branch is modelled but unused.
- `src/utils.rs` is not declared as a module in `src/lib.rs`, so `orient_rings` is not compiled into the crate. It is modelled on its own.
- The test fixtures (`src/tests/fixtures.rs`), their JSON/serde conversion and the SVG rendering in the tests are not modelled.
