/** The arc generator `create_arc` of `src/offset.rs`: it appends to a vertex
    buffer the start vertex, the intermediate points of a circular arc about
    a centre, and the end vertex.

    The angles are measured with the caller's `atan2`, normalised into
    [0, 2 PI), and the arc turns clockwise (`outwards`) by the span from the
    start angle down to the end angle, or counter-clockwise by the rest of the
    turn. */
module Arcs {
  import opened Numerics

  /** The growable vertex list (`Vec<Coord>`) the arcs are pushed onto. */
  class VertexBuffer {
    var points: seq<Coord>

    constructor ()
      ensures points == []
    {
      points := [];
    }

    /** `Vec::push`. */
    method Push(p: Coord)
      modifies this
      ensures points == old(points) + [p]
    {
      points := points + [p];
    }
  }

  /** The segment count actually used: an even request is lowered by one. The
      result is odd and at most one below the request. */
  function OddSegmentCount(segmentCount: nat): (sc: nat)
    requires 1 <= segmentCount
    ensures sc % 2 == 1
    ensures sc <= segmentCount <= sc + 1
    ensures segmentCount % 2 == 1 ==> sc == segmentCount
  {
    if segmentCount % 2 == 0 then segmentCount - 1 else segmentCount
  }

  /** A negative angle is moved up by a full turn. The result denotes the same
      direction, and lands in [0, 2 PI) for any input in [-2 PI, 2 PI). */
  function NormalizeAngle(a: real): (r: real)
    ensures r - a == 0.0 || r - a == TAU
    ensures -TAU <= a < TAU ==> 0.0 <= r < TAU
  {
    if a < 0.0 then a + TAU else a
  }

  /** The direction of `v` seen from `center`, normalised. */
  function VertexAngle(lib: MathLib, center: Coord, v: Coord): real {
    NormalizeAngle(lib.atan2(v.y - center.y, v.x - center.x))
  }

  /** The clockwise span from the start angle down to the end angle. For
      normalised angles it lies in (0, 2 PI], is a full turn exactly when the
      two angles agree, and turning clockwise by it from the start lands on
      the end angle, up to a full turn. */
  function ArcSpan(startAngle: real, endAngle: real): (span: real)
    ensures startAngle - span == endAngle || startAngle - span == endAngle - TAU
    ensures 0.0 <= startAngle < TAU && 0.0 <= endAngle < TAU ==>
      0.0 < span <= TAU && (span == TAU <==> startAngle == endAngle)
  {
    if startAngle > endAngle then startAngle - endAngle else startAngle + TAU - endAngle
  }

  /** The signed angle the whole arc turns through: clockwise by the span
      when `outwards`, otherwise counter-clockwise by the rest of the turn. */
  function Sweep(span: real, outwards: bool): real {
    if outwards then -span else TAU - span
  }

  /** The angle between consecutive arc points: the sweep split into `sc`
      equal steps. */
  function SegmentAngle(span: real, outwards: bool, sc: nat): real
    requires 1 <= sc
  {
    Sweep(span, outwards) / (sc as real)
  }

  /** The point at `angle` on the circle of `radius` about `center`. */
  function ArcPoint(lib: MathLib, center: Coord, radius: real, angle: real): Coord {
    Coord(center.x + lib.cos(angle) * radius, center.y + lib.sin(angle) * radius)
  }

  /** The angle after `i` steps from `a0`. */
  function StepAngle(a0: real, step: real, i: nat): real {
    a0 + step * (i as real)
  }

  /** One more step adds the step angle once more. */
  lemma StepAngleNext(a0: real, step: real, i: nat)
    ensures StepAngle(a0, step, i + 1) == StepAngle(a0, step, i) + step
  {
    DistribRight(i as real, 1.0, step);
    assert step * ((i + 1) as real) == step * (i as real) + step;
  }

  /** The points after 1 .. count steps from `a0`, in order. */
  function ArcInterior(lib: MathLib, center: Coord, radius: real, a0: real, step: real, count: nat): (r: seq<Coord>)
    ensures |r| == count
    ensures forall k :: 0 <= k < count ==> r[k] == ArcPoint(lib, center, radius, StepAngle(a0, step, k + 1))
  {
    if count == 0 then []
    else ArcInterior(lib, center, radius, a0, step, count - 1) + [ArcPoint(lib, center, radius, StepAngle(a0, step, count))]
  }

  /** Everything `create_arc` appends: the start vertex, the points after
      1 .. sc - 1 steps from the start angle, and the end vertex. */
  function ArcPoints(lib: MathLib, center: Coord, radius: real, startVertex: Coord, endVertex: Coord,
                     segmentCount: nat, outwards: bool): (r: seq<Coord>)
    requires 1 <= segmentCount
    ensures |r| == OddSegmentCount(segmentCount) + 1
    ensures r[0] == startVertex && r[|r| - 1] == endVertex
  {
    var startAngle := VertexAngle(lib, center, startVertex);
    var endAngle := VertexAngle(lib, center, endVertex);
    var sc := OddSegmentCount(segmentCount);
    var step := SegmentAngle(ArcSpan(startAngle, endAngle), outwards, sc);
    [startVertex] + ArcInterior(lib, center, radius, startAngle, step, sc - 1) + [endVertex]
  }

  /** `create_arc`: appends `ArcPoints` to the buffer and leaves what was
      already there untouched. */
  method CreateArc(lib: MathLib, vertices: VertexBuffer, center: Coord, radius: real,
                   startVertex: Coord, endVertex: Coord, segmentCount: nat, outwards: bool)
    requires 1 <= segmentCount
    modifies vertices
    ensures vertices.points == old(vertices.points) + ArcPoints(lib, center, radius, startVertex, endVertex, segmentCount, outwards)
  {
    var startAngle := VertexAngle(lib, center, startVertex);
    var endAngle := VertexAngle(lib, center, endVertex);
    var sc := OddSegmentCount(segmentCount);
    var segmentAngle := SegmentAngle(ArcSpan(startAngle, endAngle), outwards, sc);

    vertices.Push(startVertex);
    ghost var before := vertices.points;
    for i := 1 to sc
      invariant vertices.points == before + ArcInterior(lib, center, radius, startAngle, segmentAngle, i - 1)
    {
      var a := StepAngle(startAngle, segmentAngle, i);
      assert ArcInterior(lib, center, radius, startAngle, segmentAngle, i)
          == ArcInterior(lib, center, radius, startAngle, segmentAngle, i - 1) + [ArcPoint(lib, center, radius, a)];
      var p := Coord(center.x + lib.cos(a) * radius, center.y + lib.sin(a) * radius);
      assert p == ArcPoint(lib, center, radius, a);
      vertices.Push(p);
    }
    vertices.Push(endVertex);
    ghost var arc := ArcPoints(lib, center, radius, startVertex, endVertex, segmentCount, outwards);
    ghost var interior := ArcInterior(lib, center, radius, startAngle, segmentAngle, sc - 1);
    assert arc == [startVertex] + interior + [endVertex];
    assert vertices.points == old(vertices.points) + [startVertex] + interior + [endVertex];
  }

  /** Every point of an arc of non-negative radius lies on the circle. */
  lemma ArcPointOnCircle(lib: MathLib, center: Coord, radius: real, angle: real)
    requires Pythagorean(lib)
    ensures SquaredNorm(Sub(ArcPoint(lib, center, radius, angle), center)) == radius * radius
  {
    var c, s := lib.cos(angle), lib.sin(angle);
    assert c * c + s * s == 1.0;
    assert Sub(ArcPoint(lib, center, radius, angle), center) == Coord(c * radius, s * radius);
    SquareOfProduct(c, radius);
    SquareOfProduct(s, radius);
    DistribRight(c * c, s * s, radius * radius);
    calc {
      SquaredNorm(Coord(c * radius, s * radius));
      == (c * radius) * (c * radius) + (s * radius) * (s * radius);
      == (c * c) * (radius * radius) + (s * s) * (radius * radius);
      == (c * c + s * s) * (radius * radius);
      == 1.0 * (radius * radius);
      == radius * radius;
    }
  }

  /** All intermediate points of an arc lie on its circle. */
  lemma ArcInteriorOnCircle(lib: MathLib, center: Coord, radius: real, startVertex: Coord, endVertex: Coord,
                            segmentCount: nat, outwards: bool, k: nat)
    requires Pythagorean(lib) && 1 <= segmentCount
    requires 0 < k < OddSegmentCount(segmentCount)
    ensures SquaredNorm(Sub(ArcPoints(lib, center, radius, startVertex, endVertex, segmentCount, outwards)[k], center))
         == radius * radius
  {
    var startAngle := VertexAngle(lib, center, startVertex);
    var endAngle := VertexAngle(lib, center, endVertex);
    var sc := OddSegmentCount(segmentCount);
    var step := SegmentAngle(ArcSpan(startAngle, endAngle), outwards, sc);
    var interior := ArcInterior(lib, center, radius, startAngle, step, sc - 1);
    assert ArcPoints(lib, center, radius, startVertex, endVertex, segmentCount, outwards)[k] == interior[k - 1];
    ArcPointOnCircle(lib, center, radius, StepAngle(startAngle, step, k));
  }

  /** With `atan2` in [-PI, PI], the direction of a vertex normalises into
      [0, 2 PI). */
  lemma VertexAngleRange(lib: MathLib, center: Coord, v: Coord)
    requires Atan2Range(lib)
    ensures 0.0 <= VertexAngle(lib, center, v) < TAU
  {
    var a := lib.atan2(v.y - center.y, v.x - center.x);
    assert -PI <= a <= PI;
  }

  /** `sc` steps of the segment angle make up the whole sweep. */
  lemma StepsMakeSweep(a0: real, span: real, outwards: bool, sc: nat)
    requires 1 <= sc
    ensures StepAngle(a0, SegmentAngle(span, outwards, sc), sc) == a0 + Sweep(span, outwards)
  {
    DivCancel(Sweep(span, outwards), sc as real);
  }

  /** A span in (0, 2 PI] gives a clockwise sweep in [-2 PI, 0) when
      `outwards`, and a counter-clockwise one in [0, 2 PI) otherwise. */
  lemma SweepRange(span: real, outwards: bool)
    requires 0.0 < span <= TAU
    ensures outwards ==> -TAU <= Sweep(span, outwards) < 0.0
    ensures !outwards ==> 0.0 <= Sweep(span, outwards) < TAU
  {
  }

  /** Turning from the start angle by the sweep lands on the end angle, up
      to a full turn. */
  lemma SweepLandsOnEnd(s: real, e: real, outwards: bool)
    ensures
      var turns := s + Sweep(ArcSpan(s, e), outwards) - e;
      turns == 0.0 || turns == TAU || turns == -TAU
  {
  }

  /** With `atan2` in [-PI, PI], the span of an arc lies in (0, 2 PI], its
      sweep turns by at most a full turn (clockwise when `outwards`), and sc
      steps from the start angle land on the end angle up to a full turn. */
  lemma ArcAngles(lib: MathLib, center: Coord, startVertex: Coord, endVertex: Coord, segmentCount: nat, outwards: bool)
    requires Atan2Range(lib) && 1 <= segmentCount
    ensures 0.0 < ArcSpan(VertexAngle(lib, center, startVertex), VertexAngle(lib, center, endVertex)) <= TAU
    ensures outwards ==> -TAU <= Sweep(ArcSpan(VertexAngle(lib, center, startVertex), VertexAngle(lib, center, endVertex)), outwards) < 0.0
    ensures !outwards ==> 0.0 <= Sweep(ArcSpan(VertexAngle(lib, center, startVertex), VertexAngle(lib, center, endVertex)), outwards) < TAU
    ensures
      var s := VertexAngle(lib, center, startVertex);
      var e := VertexAngle(lib, center, endVertex);
      var step := SegmentAngle(ArcSpan(s, e), outwards, OddSegmentCount(segmentCount));
      var turns := StepAngle(s, step, OddSegmentCount(segmentCount)) - e;
      turns == 0.0 || turns == TAU || turns == -TAU
  {
    VertexAngleRange(lib, center, startVertex);
    VertexAngleRange(lib, center, endVertex);
    var s := VertexAngle(lib, center, startVertex);
    var e := VertexAngle(lib, center, endVertex);
    SweepRange(ArcSpan(s, e), outwards);
    StepsMakeSweep(s, ArcSpan(s, e), outwards, OddSegmentCount(segmentCount));
    SweepLandsOnEnd(s, e, outwards);
  }
}
