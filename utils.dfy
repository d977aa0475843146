/** `orient_rings` of `src/utils.rs`: the signed (shoelace) area of a ring,
    accumulated over its cyclic pairs of vertices, decides whether the ring is
    reversed so that an exterior ring comes out with a non-positive sum and a
    hole with a non-negative one. */
module Orientation {
  import opened Numerics

  /** The ring read backwards. */
  function Reverse(s: seq<Coord>): (r: seq<Coord>)
    ensures |r| == |s|
    ensures forall i :: 0 <= i < |s| ==> r[i] == s[|s| - 1 - i]
  {
    seq(|s|, i requires 0 <= i < |s| => s[|s| - 1 - i])
  }

  /** The first `k` terms of the shoelace sum: the cross products of vertex i
      with vertex i + 1, the last vertex paired with the first. */
  function PartialShoelace(s: seq<Coord>, k: nat): real
    requires k <= |s|
  {
    if k == 0 then 0.0
    else PartialShoelace(s, k - 1) + Cross(s[k - 1], s[k % |s|])
  }

  /** Twice the signed area of the ring, positive for a counter-clockwise one
      in a y-up frame. A ring of fewer than three vertices encloses nothing. */
  function ShoelaceSum(s: seq<Coord>): (area: real)
    ensures |s| < 3 ==> area == 0.0
  {
    assert |s| == 1 ==> PartialShoelace(s, 1) == Cross(s[0], s[0]);
    assert |s| == 2 ==> PartialShoelace(s, 1) == Cross(s[0], s[1]);
    assert |s| == 2 ==> PartialShoelace(s, 2) == Cross(s[0], s[1]) + Cross(s[1], s[0]);
    PartialShoelace(s, |s|)
  }

  /** The shoelace terms of the open path s[0], ..., s[|s| - 1], without the
      closing pair. */
  function OpenSum(s: seq<Coord>): real {
    if |s| < 2 then 0.0 else OpenSum(s[..|s| - 1]) + Cross(s[|s| - 2], s[|s| - 1])
  }

  /** Whether `orient_rings` reverses a ring of the given sum and role: an
      exterior ring whose sum is non-negative, or a hole whose sum is negative.
      The accumulator starts at positive zero, so a zero sum counts as
      positive. */
  predicate NeedsReversal(area: real, isHole: bool) {
    (!isHole && area >= 0.0) || (isHole && area < 0.0)
  }

  /** What `orient_rings` returns for a ring. */
  function OrientRing(s: seq<Coord>, isHole: bool): seq<Coord> {
    if NeedsReversal(ShoelaceSum(s), isHole) then Reverse(s) else s
  }

  /** `<[T]>::reverse`: the array reversed in place by swapping mirrored
      pairs from the outside in. */
  method ReverseInPlace(a: array<Coord>)
    modifies a
    ensures a[..] == Reverse(old(a[..]))
  {
    ghost var s := a[..];
    var n := a.Length;
    for i := 0 to n / 2
      invariant forall k :: 0 <= k < i ==> a[k] == s[n - 1 - k] && a[n - 1 - k] == s[k]
      invariant forall k :: i <= k < n - i ==> a[k] == s[k]
    {
      a[i], a[n - 1 - i] := a[n - 1 - i], a[i];
    }
  }

  /** `orient_rings`: copy the ring, accumulate the shoelace sum over the
      cyclic pairs, and reverse the copy when its orientation does not match
      its role. */
  method OrientRings(coordinates: seq<Coord>, isHole: bool) returns (result: seq<Coord>)
    ensures result == OrientRing(coordinates, isHole)
  {
    var area := 0.0;
    var ring := new Coord[|coordinates|](i requires 0 <= i < |coordinates| => coordinates[i]);
    var n := ring.Length;
    for i := 0 to n
      invariant ring[..] == coordinates
      invariant area == PartialShoelace(coordinates, i)
    {
      var p1, p2 := ring[i], ring[(i + 1) % n];
      area := area + p1.x * p2.y;
      area := area - p2.x * p1.y;
    }
    if (!isHole && area >= 0.0) || (isHole && area < 0.0) {
      ReverseInPlace(ring);
    }
    result := ring[..];
  }

  /** The open sum peeled from the front instead of the back. */
  lemma {:induction false} OpenFront(s: seq<Coord>)
    requires 2 <= |s|
    ensures OpenSum(s) == Cross(s[0], s[1]) + OpenSum(s[1..])
    decreases |s|
  {
    if |s| > 2 {
      var init := s[..|s| - 1];
      OpenFront(init);
      assert init[1..] == s[1..][..|s| - 2];
    }
  }

  /** Walking an open path backwards negates every cross product. */
  lemma {:induction false} OpenSumReverse(s: seq<Coord>)
    ensures OpenSum(Reverse(s)) == -OpenSum(s)
    decreases |s|
  {
    if |s| >= 2 {
      var r := Reverse(s);
      assert r[..|r| - 1] == Reverse(s[1..]);
      OpenSumReverse(s[1..]);
      OpenFront(s);
    }
  }

  /** Every prefix of the shoelace sum that stops short of the closing pair is
      an open sum. */
  lemma {:induction false} PartialIsOpen(s: seq<Coord>, k: nat)
    requires k < |s|
    ensures PartialShoelace(s, k) == OpenSum(s[..k + 1])
  {
    if k > 0 {
      PartialIsOpen(s, k - 1);
      PartialStep(s, k);
      OpenPrefixStep(s, k);
    }
  }

  /** Before the closing pair, the k-th term pairs vertex k - 1 with vertex k. */
  lemma PartialStep(s: seq<Coord>, k: nat)
    requires 0 < k < |s|
    ensures PartialShoelace(s, k) == PartialShoelace(s, k - 1) + Cross(s[k - 1], s[k])
  {
    assert k % |s| == k;
  }

  /** Lengthening a prefix by one vertex adds one cross product to its open sum. */
  lemma OpenPrefixStep(s: seq<Coord>, k: nat)
    requires 0 < k < |s|
    ensures OpenSum(s[..k + 1]) == OpenSum(s[..k]) + Cross(s[k - 1], s[k])
  {
    var prefix := s[..k + 1];
    assert prefix[..k] == s[..k];
  }

  /** The cyclic sum is the open sum plus the closing pair (last, first). */
  lemma ShoelaceSplit(s: seq<Coord>)
    requires 1 <= |s|
    ensures ShoelaceSum(s) == OpenSum(s) + Cross(s[|s| - 1], s[0])
  {
    PartialIsOpen(s, |s| - 1);
    assert s[..|s|] == s;
  }

  /** Reversing a ring negates its signed area. */
  lemma ShoelaceReverse(s: seq<Coord>)
    ensures ShoelaceSum(Reverse(s)) == -ShoelaceSum(s)
  {
    if |s| >= 1 {
      ShoelaceSplit(s);
      ShoelaceSplit(Reverse(s));
      OpenSumReverse(s);
    }
  }

  lemma ReverseInvolution(s: seq<Coord>)
    ensures Reverse(Reverse(s)) == s
  {
  }

  /** Reversal keeps the points and their multiplicities. */
  lemma {:induction false} ReverseMultiset(s: seq<Coord>)
    ensures multiset(Reverse(s)) == multiset(s)
    decreases |s|
  {
    if |s| > 0 {
      var init := s[..|s| - 1];
      ReverseMultiset(init);
      assert Reverse(s) == [s[|s| - 1]] + Reverse(init);
      assert s == init + [s[|s| - 1]];
    }
  }

  /** The output is the input or its reverse, so it keeps the length and the
      multiset of points. */
  lemma OrientRingPermutes(s: seq<Coord>, isHole: bool)
    ensures OrientRing(s, isHole) == s || OrientRing(s, isHole) == Reverse(s)
    ensures |OrientRing(s, isHole)| == |s|
    ensures multiset(OrientRing(s, isHole)) == multiset(s)
  {
    ReverseMultiset(s);
  }

  /** The output's signed area is the input's, negated exactly when the ring
      was reversed: an exterior ring comes out with a sum of at most zero and
      a hole with a sum of at least zero. */
  lemma OrientRingSign(s: seq<Coord>, isHole: bool)
    ensures ShoelaceSum(OrientRing(s, isHole)) ==
      if NeedsReversal(ShoelaceSum(s), isHole) then -ShoelaceSum(s) else ShoelaceSum(s)
    ensures !isHole ==> ShoelaceSum(OrientRing(s, isHole)) <= 0.0
    ensures isHole ==> ShoelaceSum(OrientRing(s, isHole)) >= 0.0
  {
    ShoelaceReverse(s);
  }

  /** Orienting a hole, or an exterior ring of nonzero area, a second time
      changes nothing. */
  lemma OrientRingIdempotent(s: seq<Coord>, isHole: bool)
    requires isHole || ShoelaceSum(s) != 0.0
    ensures OrientRing(OrientRing(s, isHole), isHole) == OrientRing(s, isHole)
  {
    OrientRingSign(s, isHole);
  }

  /** An exterior ring of zero area is reversed by every call, so two calls
      give back the input. */
  lemma ZeroAreaExteriorFlips(s: seq<Coord>)
    requires ShoelaceSum(s) == 0.0
    ensures OrientRing(s, false) == Reverse(s)
    ensures OrientRing(OrientRing(s, false), false) == s
  {
    ShoelaceReverse(s);
    ReverseInvolution(s);
  }
}
