/** Coordinates, the error-carrying result type and the floating-point
    library the offset code calls into.

    Coordinates are `real`s. The four libm functions the crate uses
    (`sqrt`, `atan2`, `cos`, `sin`) are not modelled: they are handed in as a
    `MathLib` record of functions, and each lemma that depends on one of them
    asks only for the law it needs (`SqrtLaw`, `Atan2Range`, `Pythagorean`). */
module Numerics {

  /** A 2D coordinate (`geo_types::Coord<f64>`). */
  datatype Coord = Coord(x: real, y: real)

  /** `Result<T, E>` of the Rust code. */
  datatype Result<+T, +E> = Ok(value: T) | Err(error: E)

  /** `std::f64::consts::PI` (the decimal value of the double). */
  const PI: real := 3.141592653589793

  /** `PI * 2.0`, the full turn used by the arc generator. */
  const TAU: real := PI * 2.0

  /** The libm functions the crate calls, supplied by the caller. */
  datatype MathLib = MathLib(
    sqrt: real -> real,
    atan2: (real, real) -> real,
    cos: real -> real,
    sin: real -> real)

  /** `sqrt` is the non-negative square root on non-negative arguments. */
  ghost predicate SqrtLaw(lib: MathLib) {
    forall s: real :: 0.0 <= s ==> 0.0 <= lib.sqrt(s) && lib.sqrt(s) * lib.sqrt(s) == s
  }

  /** `atan2(y, x)` returns an angle in [-PI, PI]. */
  ghost predicate Atan2Range(lib: MathLib) {
    forall y: real, x: real :: -PI <= lib.atan2(y, x) <= PI
  }

  /** `cos(a)^2 + sin(a)^2 == 1`. */
  ghost predicate Pythagorean(lib: MathLib) {
    forall a: real :: lib.cos(a) * lib.cos(a) + lib.sin(a) * lib.sin(a) == 1.0
  }

  function Add(p: Coord, q: Coord): Coord {
    Coord(p.x + q.x, p.y + q.y)
  }

  function Sub(p: Coord, q: Coord): Coord {
    Coord(p.x - q.x, p.y - q.y)
  }

  function Neg(p: Coord): Coord {
    Coord(-p.x, -p.y)
  }

  function Scale(p: Coord, k: real): Coord {
    Coord(p.x * k, p.y * k)
  }

  function Dot(p: Coord, q: Coord): real {
    p.x * q.x + p.y * q.y
  }

  /** The z component of the 2D cross product; positive when `q` lies to the left of `p`. */
  function Cross(p: Coord, q: Coord): real {
    p.x * q.y - q.x * p.y
  }

  /** The squared Euclidean length `x * x + y * y` of a vector. */
  function SquaredNorm(v: Coord): real {
    v.x * v.x + v.y * v.y
  }

  // Real-arithmetic facts, each proved in one small step so that the solver
  // never has to combine a nonlinear equation with a linear goal on its own.

  /** A nonzero real has a positive square. */
  lemma SquarePositive(a: real)
    requires a != 0.0
    ensures 0.0 < a * a
  {
    if a < 0.0 {
      assert (-a) * (-a) == a * a;
    }
  }

  /** A squared norm is non-negative, and zero exactly for the zero vector. */
  lemma SquaredNormSign(v: Coord)
    ensures 0.0 <= SquaredNorm(v)
    ensures SquaredNorm(v) == 0.0 <==> v == Coord(0.0, 0.0)
  {
    if v.x != 0.0 { SquarePositive(v.x); }
    if v.y != 0.0 { SquarePositive(v.y); }
    if v != Coord(0.0, 0.0) {
      calc {
        0.0;
        < v.x * v.x + v.y * v.y;
        == SquaredNorm(v);
      }
    } else {
      calc {
        SquaredNorm(v);
        == v.x * v.x + v.y * v.y;
        == 0.0 * 0.0 + 0.0 * 0.0;
        == 0.0;
      }
    }
  }

  /** Under `SqrtLaw`, the root is non-negative and zero exactly at zero. */
  lemma SqrtZeroIff(lib: MathLib, s: real)
    requires SqrtLaw(lib) && 0.0 <= s
    ensures 0.0 <= lib.sqrt(s) && lib.sqrt(s) * lib.sqrt(s) == s
    ensures lib.sqrt(s) == 0.0 <==> s == 0.0
  {
    var r := lib.sqrt(s);
    assert 0.0 <= r && r * r == s;
    if r == 0.0 {
      calc {
        s;
        == r * r;
        == 0.0 * 0.0;
        == 0.0;
      }
    } else {
      SquarePositive(r);
      calc {
        0.0;
        < r * r;
        == s;
      }
    }
  }

  /** Under `SqrtLaw`, the length `sqrt(SquaredNorm(v))` is zero exactly for the zero vector. */
  lemma LengthZeroIff(lib: MathLib, v: Coord)
    requires SqrtLaw(lib)
    ensures lib.sqrt(SquaredNorm(v)) == 0.0 <==> v == Coord(0.0, 0.0)
  {
    SquaredNormSign(v);
    SqrtZeroIff(lib, SquaredNorm(v));
  }

  lemma DivCancel(a: real, l: real)
    requires l != 0.0
    ensures (a / l) * l == a
  {
  }

  /** Under `SqrtLaw`, the root of a square of a non-negative number is that number. */
  lemma SqrtOfSquare(lib: MathLib, a: real)
    requires SqrtLaw(lib) && 0.0 <= a
    ensures lib.sqrt(a * a) == a
  {
    assert 0.0 <= a * a;
    SqrtZeroIff(lib, a * a);
    SquareRootUnique(lib.sqrt(a * a), a);
  }

  lemma DivNegation(a: real, l: real)
    requires l != 0.0
    ensures (-a) / l == -(a / l)
  {
  }

  lemma DistribRight(a: real, b: real, c: real)
    ensures (a + b) * c == a * c + b * c
    ensures (a - b) * c == a * c - b * c
  {
  }

  lemma SquareOfProduct(p: real, l: real)
    ensures (p * p) * (l * l) == (p * l) * (p * l)
  {
  }

  lemma SquareCongruence(a: real, b: real)
    requires a == b
    ensures a * a == b * b
  {
  }

  lemma SquareOfNegation(a: real)
    ensures (-a) * (-a) == a * a
  {
  }

  /** `x * l^2 == l^2` with `l > 0` forces `x == 1`. */
  lemma FactorIsOne(x: real, l: real)
    requires 0.0 < l && x * (l * l) == l * l
    ensures x == 1.0
  {
    SquarePositive(l);
    assert (x - 1.0) * (l * l) == 0.0;
  }

  lemma FactorIsZero(x: real, k: real)
    requires 0.0 < k && x * k == 0.0
    ensures x == 0.0
  {
  }

  lemma FactorIsPositive(x: real, k: real)
    requires 0.0 < k && 0.0 < x * k
    ensures 0.0 < x
  {
  }

  /** Squaring is strictly monotone on the non-negative reals. */
  lemma SquareMonotone(a: real, b: real)
    requires 0.0 <= a < b
    ensures a * a < b * b
  {
    assert 0.0 <= a * (b - a);
    assert a * (b - a) == a * b - a * a;
    assert 0.0 < b * (b - a);
    assert b * (b - a) == b * b - a * b;
  }

  /** The non-negative square root is unique. */
  lemma SquareRootUnique(r: real, t: real)
    requires 0.0 <= r && 0.0 <= t && r * r == t * t
    ensures r == t
  {
    if r < t { SquareMonotone(r, t); }
    else if t < r { SquareMonotone(t, r); }
  }
}
