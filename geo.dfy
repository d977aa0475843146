/** The `geo_types` shapes the offset code accepts and returns, the two ring
    helpers of that crate it relies on (`Polygon::new` closing its rings and
    `LineString::lines`), and the boolean engine of `geo_clipper`.

    `geo_types` and `geo_clipper` are not part of this model: their shapes are
    given here as plain values, the ring helpers as the definitions the crate
    documents, and the engine as a `Clipper` record of two functions supplied by
    the caller, about which nothing is assumed. */
module Geo {
  import opened Numerics

  /** A polyline or ring: its vertices in order. */
  type LineString = seq<Coord>

  /** A polygon: an exterior ring and any number of interior rings (holes). */
  datatype Polygon = Polygon(exterior: LineString, interiors: seq<LineString>)

  type MultiPoint = seq<Coord>
  type MultiLineString = seq<LineString>
  type MultiPolygon = seq<Polygon>

  /** A single segment from `start` to `end`. */
  datatype Line = Line(start: Coord, end: Coord)

  datatype Triangle = Triangle(a: Coord, b: Coord, c: Coord)

  /** An axis-aligned rectangle given by its two extreme corners. */
  datatype Rect = Rect(min: Coord, max: Coord)

  /** The closed sum of shapes; a collection nests further geometries. */
  datatype Geometry =
    | PointGeometry(point: Coord)
    | LineGeometry(line: Line)
    | LineStringGeometry(lineString: LineString)
    | PolygonGeometry(polygon: Polygon)
    | MultiPointGeometry(multiPoint: MultiPoint)
    | MultiLineStringGeometry(multiLineString: MultiLineString)
    | MultiPolygonGeometry(multiPolygon: MultiPolygon)
    | GeometryCollectionGeometry(collection: GeometryCollection)
    | RectGeometry(rect: Rect)
    | TriangleGeometry(triangle: Triangle)

  datatype GeometryCollection = GeometryCollection(items: seq<Geometry>)

  /** A ring is closed when it is empty or its first and last vertices agree. */
  predicate IsClosed(ring: LineString) {
    |ring| == 0 || ring[0] == ring[|ring| - 1]
  }

  /** `LineString::close`: append the first vertex unless the ring is already
      closed. The result is closed, keeps the input as a prefix and grows by
      exactly one vertex when the input was open. */
  function Close(ring: LineString): (r: LineString)
    ensures IsClosed(r)
    ensures |r| == if IsClosed(ring) then |ring| else |ring| + 1
    ensures r[..|ring|] == ring
    ensures IsClosed(ring) ==> r == ring
  {
    if IsClosed(ring) then ring else ring + [ring[0]]
  }

  /** `Polygon::new`: the exterior and each interior ring, closed. */
  function NewPolygon(exterior: LineString, interiors: seq<LineString>): (p: Polygon)
    ensures p.exterior == Close(exterior)
    ensures |p.interiors| == |interiors|
    ensures forall i :: 0 <= i < |interiors| ==> p.interiors[i] == Close(interiors[i])
  {
    Polygon(Close(exterior), seq(|interiors|, i requires 0 <= i < |interiors| => Close(interiors[i])))
  }

  /** `LineString::lines`: the segments between consecutive vertices. There is
      one fewer segment than vertices (none for fewer than two vertices), the
      i-th joins vertex i to vertex i + 1, so consecutive segments share an
      endpoint. */
  function Lines(ls: LineString): (r: seq<Line>)
    ensures |r| == if |ls| < 2 then 0 else |ls| - 1
    ensures forall i :: 0 <= i < |r| ==> r[i].start == ls[i] && r[i].end == ls[i + 1]
    ensures forall i :: 0 <= i < |r| - 1 ==> r[i].end == r[i + 1].start
  {
    if |ls| < 2 then [] else seq(|ls| - 1, i requires 0 <= i < |ls| - 1 => Line(ls[i], ls[i + 1]))
  }

  /** `Triangle::to_polygon`: the closed ring a, b, c, a without holes. */
  function TriangleToPolygon(t: Triangle): (p: Polygon)
    ensures p.exterior == [t.a, t.b, t.c, t.a] && p.interiors == []
  {
    NewPolygon([t.a, t.b, t.c, t.a], [])
  }

  /** `Rect::to_polygon`: the four corners counter-clockwise from
      (max.x, min.y), closed, without holes. */
  function RectToPolygon(r: Rect): (p: Polygon)
    ensures |p.exterior| == 5 && IsClosed(p.exterior) && p.interiors == []
    ensures forall i :: 0 <= i < 5 ==>
      (p.exterior[i].x == r.min.x || p.exterior[i].x == r.max.x) &&
      (p.exterior[i].y == r.min.y || p.exterior[i].y == r.max.y)
  {
    NewPolygon([Coord(r.max.x, r.min.y), Coord(r.max.x, r.max.y), Coord(r.min.x, r.max.y),
                Coord(r.min.x, r.min.y), Coord(r.max.x, r.min.y)], [])
  }

  /** The scale factor every boolean operation of the offset code passes. */
  const CLIPPER_SCALE: real := 1000.0

  /** `geo_clipper`'s boolean operations on multipolygons with a scale factor. */
  datatype Clipper = Clipper(
    union: (MultiPolygon, MultiPolygon, real) -> MultiPolygon,
    difference: (MultiPolygon, MultiPolygon, real) -> MultiPolygon)

}
