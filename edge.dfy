/** The directed segment of `src/edge.rs`: construction, translation,
    reversal and the unit normals on either side. */
module Edges {
  import opened Numerics

  /** A directed edge from `current` to `next`. */
  datatype Edge = Edge(current: Coord, next: Coord)

  /** The only failure: the two endpoints coincide, so no normal exists. */
  datatype EdgeError = VerticesOverlap

  /** The direction vector `next - current`. */
  function Direction(e: Edge): Coord {
    Sub(e.next, e.current)
  }

  /** `Edge::new`: the endpoints are stored as given. */
  function New(current: Coord, next: Coord): (e: Edge)
    ensures e.current == current && e.next == next
  {
    Edge(current, next)
  }

  /** `Edge::new_with_offset`: both endpoints moved by (dx, dy). */
  function NewWithOffset(current: Coord, next: Coord, dx: real, dy: real): (e: Edge)
    ensures e.current == Add(current, Coord(dx, dy)) && e.next == Add(next, Coord(dx, dy))
    ensures Direction(e) == Sub(next, current)
  {
    Edge(Coord(current.x + dx, current.y + dy), Coord(next.x + dx, next.y + dy))
  }

  /** The unit normal to the left of the direction of travel, `(-dy, dx) / len`.
      The source rejects the normal when a component is not finite; over the
      reals that is exactly a zero length (a division by zero). */
  function InwardsNormal(lib: MathLib, e: Edge): (r: Result<Coord, EdgeError>)
    ensures e.current == e.next && lib.sqrt(0.0) == 0.0 ==> r.Err?
  {
    var d := Direction(e);
    var edgeLength := lib.sqrt(SquaredNorm(d));
    if edgeLength != 0.0 then
      Ok(Coord(-d.y / edgeLength, d.x / edgeLength))
    else
      Err(VerticesOverlap)
  }

  /** The opposite normal: fails exactly when the inwards one fails. */
  function OutwardsNormal(lib: MathLib, e: Edge): (r: Result<Coord, EdgeError>)
    ensures r.Err? <==> InwardsNormal(lib, e).Err?
    ensures r.Ok? ==> r.value == Neg(InwardsNormal(lib, e).value)
  {
    match InwardsNormal(lib, e)
    case Err(err) => Err(err)
    case Ok(inwards) => Ok(Coord(-inwards.x, -inwards.y))
  }

  /** `Edge::with_offset`: the same edge translated by (dx, dy). */
  function WithOffset(e: Edge, dx: real, dy: real): (r: Edge)
    ensures Direction(r) == Direction(e)
    ensures Sub(r.current, e.current) == Coord(dx, dy) && Sub(r.next, e.next) == Coord(dx, dy)
  {
    NewWithOffset(e.current, e.next, dx, dy)
  }

  /** `Edge::inverse`: the endpoints swapped. */
  function Inverse(e: Edge): (r: Edge)
    ensures r.current == e.next && r.next == e.current
    ensures Direction(r) == Neg(Direction(e))
  {
    New(e.next, e.current)
  }

  /** `Edge::inverse_with_offset`: the reversed edge, translated by (dx, dy). */
  function InverseWithOffset(e: Edge, dx: real, dy: real): (r: Edge)
    ensures r == WithOffset(Inverse(e), dx, dy)
    ensures Direction(r) == Neg(Direction(e))
  {
    NewWithOffset(e.next, e.current, dx, dy)
  }

  /** Reversing twice gives the edge back. */
  lemma InverseInvolution(e: Edge)
    ensures Inverse(Inverse(e)) == e
  {
  }

  /** The normal fails exactly on a degenerate edge. */
  lemma InwardsNormalFailsIff(lib: MathLib, e: Edge)
    requires SqrtLaw(lib)
    ensures InwardsNormal(lib, e).Err? <==> e.current == e.next
  {
    LengthZeroIff(lib, Direction(e));
    DirectionZeroIff(e);
  }

  /** The direction vanishes exactly when the endpoints coincide. */
  lemma DirectionZeroIff(e: Edge)
    ensures Direction(e) == Coord(0.0, 0.0) <==> e.current == e.next
  {
  }

  /** The inwards normal of a non-degenerate edge has unit length, is
      perpendicular to the edge and points to its left: the cross product of
      the direction with the normal is positive. */
  lemma InwardsNormalIsLeftUnitNormal(lib: MathLib, e: Edge)
    requires SqrtLaw(lib)
    requires e.current != e.next
    ensures InwardsNormal(lib, e).Ok?
    ensures Dot(InwardsNormal(lib, e).value, InwardsNormal(lib, e).value) == 1.0
    ensures Dot(InwardsNormal(lib, e).value, Direction(e)) == 0.0
    ensures Cross(Direction(e), InwardsNormal(lib, e).value) > 0.0
  {
    InwardsNormalFailsIff(lib, e);
    var d := Direction(e);
    SquaredNormSign(d);
    SqrtZeroIff(lib, SquaredNorm(d));
    var l := lib.sqrt(SquaredNorm(d));
    UnitLeftNormal(d, l);
  }

  /** `(-d.y, d.x) / l` is a left unit normal of `d` when `l` is the length of `d`. */
  lemma UnitLeftNormal(d: Coord, l: real)
    requires 0.0 < l && l * l == SquaredNorm(d)
    ensures Dot(Coord(-d.y / l, d.x / l), Coord(-d.y / l, d.x / l)) == 1.0
    ensures Dot(Coord(-d.y / l, d.x / l), d) == 0.0
    ensures 0.0 < Cross(d, Coord(-d.y / l, d.x / l))
  {
    var p, q := -d.y / l, d.x / l;
    DivCancel(-d.y, l);
    DivCancel(d.x, l);
    // unit length
    SquareOfProduct(p, l);
    SquareOfProduct(q, l);
    DistribRight(p * p, q * q, l * l);
    SquareCongruence(p * l, -d.y);
    SquareCongruence(q * l, d.x);
    SquareOfNegation(d.y);
    calc {
      Dot(Coord(p, q), Coord(p, q)) * (l * l);
      == (p * p + q * q) * (l * l);
      == (p * p) * (l * l) + (q * q) * (l * l);
      == (p * l) * (p * l) + (q * l) * (q * l);
      == (-d.y) * (-d.y) + d.x * d.x;
      == d.y * d.y + d.x * d.x;
      == SquaredNorm(d);
      == l * l;
    }
    FactorIsOne(Dot(Coord(p, q), Coord(p, q)), l);
    // perpendicular
    DistribRight(p * d.x, q * d.y, l);
    calc {
      Dot(Coord(p, q), d) * l;
      == (p * d.x + q * d.y) * l;
      == (p * d.x) * l + (q * d.y) * l;
      == (p * l) * d.x + (q * l) * d.y;
      == (-d.y) * d.x + d.x * d.y;
      == 0.0;
    }
    FactorIsZero(Dot(Coord(p, q), d), l);
    // to the left
    DistribRight(d.x * q, p * d.y, l);
    SquarePositive(l);
    calc {
      Cross(d, Coord(p, q)) * l;
      == (d.x * q - p * d.y) * l;
      == (d.x * q) * l - (p * d.y) * l;
      == d.x * (q * l) - (p * l) * d.y;
      == d.x * d.x - (-d.y) * d.y;
      == SquaredNorm(d);
      == l * l;
      > 0.0;
    }
    FactorIsPositive(Cross(d, Coord(p, q)), l);
  }

  /** Reversing an edge swaps its two normals. */
  lemma InverseSwapsNormals(lib: MathLib, e: Edge)
    ensures InwardsNormal(lib, Inverse(e)) == OutwardsNormal(lib, e)
    ensures OutwardsNormal(lib, Inverse(e)) == InwardsNormal(lib, e)
  {
    var d := Direction(e);
    var l := lib.sqrt(SquaredNorm(d));
    if l != 0.0 {
      DivNegation(d.x, l);
      DivNegation(-d.y, l);
    }
    assert Direction(Inverse(e)) == Neg(d);
    calc {
      SquaredNorm(Neg(d));
      == (-d.x) * (-d.x) + (-d.y) * (-d.y);
      == { SquareOfNegation(d.x); SquareOfNegation(d.y); }
      d.x * d.x + d.y * d.y;
      == SquaredNorm(d);
    }
  }

  /** Under `SqrtLaw`, the vector (0, 5) has length 5. */
  lemma VerticalLength(lib: MathLib)
    requires SqrtLaw(lib)
    ensures lib.sqrt(SquaredNorm(Coord(0.0, 5.0))) == 5.0
  {
    calc {
      SquaredNorm(Coord(0.0, 5.0));
      == 0.0 * 0.0 + 5.0 * 5.0;
      == 5.0 * 5.0;
    }
    SqrtOfSquare(lib, 5.0);
  }

  /** The edge (0,0) -> (0,5) keeps its endpoints; its inwards normal is
      (-1, 0) and its outwards normal (1, 0). */
  lemma VerticalEdgeNormals(lib: MathLib)
    requires SqrtLaw(lib)
    ensures New(Coord(0.0, 0.0), Coord(0.0, 5.0)).current == Coord(0.0, 0.0)
    ensures New(Coord(0.0, 0.0), Coord(0.0, 5.0)).next == Coord(0.0, 5.0)
    ensures InwardsNormal(lib, New(Coord(0.0, 0.0), Coord(0.0, 5.0))) == Ok(Coord(-1.0, 0.0))
    ensures OutwardsNormal(lib, New(Coord(0.0, 0.0), Coord(0.0, 5.0))) == Ok(Coord(1.0, 0.0))
  {
    VerticalLength(lib);
    VerticalNormalsOfLength(lib);
  }

  /** With the length of (0, 5) known to be 5, the normals of (0,0) -> (0,5)
      are (-1, 0) and (1, 0). */
  lemma VerticalNormalsOfLength(lib: MathLib)
    requires lib.sqrt(SquaredNorm(Coord(0.0, 5.0))) == 5.0
    ensures InwardsNormal(lib, New(Coord(0.0, 0.0), Coord(0.0, 5.0))) == Ok(Coord(-1.0, 0.0))
    ensures OutwardsNormal(lib, New(Coord(0.0, 0.0), Coord(0.0, 5.0))) == Ok(Coord(1.0, 0.0))
  {
    var e := New(Coord(0.0, 0.0), Coord(0.0, 5.0));
    assert Direction(e) == Coord(0.0, 5.0);
    assert lib.sqrt(SquaredNorm(Direction(e))) == 5.0;
    assert Coord(-5.0 / 5.0, 0.0 / 5.0) == Coord(-1.0, 0.0);
  }
}
