/** The interpolated quantile of scripts/analyze.go, in exact reals. */
module Percentile {

  predicate Ascending(xs: seq<real>) {
    forall i, j :: 0 <= i <= j < |xs| ==> xs[i] <= xs[j]
  }

  function Ceiling(x: real): int {
    -((-x).Floor)
  }

  predicate InRange(xs: seq<real>, pos: real) {
    0.0 <= pos <= (|xs| - 1) as real
  }

  function Blend(a: real, b: real, weight: real): real {
    a + (b - a) * weight
  }

  /** The value at a fractional index. */
  function ValueAt(xs: seq<real>, pos: real): real
    requires InRange(xs, pos)
  {
    var lo, hi := pos.Floor, Ceiling(pos);
    if lo == hi then xs[lo] else Blend(xs[lo], xs[hi], pos - lo as real)
  }

  function Position(xs: seq<real>, p: real): real {
    p * (|xs| - 1) as real
  }

  /** percentile. For p outside [0, 1] the source indexes outside a list of two or more. */
  function Quantile(xs: seq<real>, p: real): real
    requires |xs| >= 2 ==> 0.0 <= p <= 1.0
  {
    if |xs| == 0 then 0.0
    else if |xs| == 1 then xs[0]
    else
      PositionInRange(xs, p);
      ValueAt(xs, Position(xs, p))
  }

  lemma ScaleMonotone(k: real, p: real, q: real)
    requires 0.0 <= k && p <= q
    ensures p * k <= q * k
  {
  }

  lemma PositionInRange(xs: seq<real>, p: real)
    requires |xs| >= 2 && 0.0 <= p <= 1.0
    ensures InRange(xs, Position(xs, p))
  {
    ScaleMonotone((|xs| - 1) as real, 0.0, p);
    ScaleMonotone((|xs| - 1) as real, p, 1.0);
  }

  lemma PositionMonotone(xs: seq<real>, p: real, q: real)
    requires |xs| >= 1 && p <= q
    ensures Position(xs, p) <= Position(xs, q)
  {
    var k := (|xs| - 1) as real;
    assert Position(xs, p) == p * k && Position(xs, q) == q * k;
    ScaleMonotone(k, p, q);
  }

  lemma BlendMonotone(a: real, b: real, v: real, w: real)
    requires a <= b && 0.0 <= v <= w <= 1.0
    ensures a <= Blend(a, b, v) <= Blend(a, b, w) <= b
  {
    ScaleMonotone(b - a, 0.0, v);
    ScaleMonotone(b - a, v, w);
    ScaleMonotone(b - a, w, 1.0);
  }

  /** The value lies between the two neighbouring elements. */
  lemma ValueBetweenNeighbours(xs: seq<real>, pos: real)
    requires Ascending(xs) && InRange(xs, pos)
    ensures 0 <= pos.Floor <= Ceiling(pos) < |xs|
    ensures xs[pos.Floor] <= ValueAt(xs, pos) <= xs[Ceiling(pos)]
  {
    var lo, hi := pos.Floor, Ceiling(pos);
    BlendMonotone(xs[lo], xs[hi], pos - lo as real, pos - lo as real);
  }

  lemma ValueMonotone(xs: seq<real>, a: real, b: real)
    requires Ascending(xs) && InRange(xs, a) && InRange(xs, b) && a <= b
    ensures ValueAt(xs, a) <= ValueAt(xs, b)
  {
    ValueBetweenNeighbours(xs, a);
    ValueBetweenNeighbours(xs, b);
    var lo := a.Floor;
    if lo == b.Floor {
      if a != lo as real {
        BlendMonotone(xs[lo], xs[lo + 1], a - lo as real, b - lo as real);
      }
    } else {
      assert xs[Ceiling(a)] <= xs[b.Floor];
    }
  }

  /** Within the list, and between two neighbouring elements. */
  lemma QuantileWithinList(xs: seq<real>, p: real)
    requires |xs| >= 1 && Ascending(xs) && 0.0 <= p <= 1.0
    ensures xs[0] <= Quantile(xs, p) <= xs[|xs| - 1]
    ensures exists i, j :: 0 <= i <= j < |xs| && j <= i + 1 && xs[i] <= Quantile(xs, p) <= xs[j]
  {
    if |xs| >= 2 {
      PositionInRange(xs, p);
      ValueBetweenNeighbours(xs, Position(xs, p));
    }
  }

  lemma QuantileAtEnds(xs: seq<real>)
    ensures if xs == [] then forall p :: Quantile(xs, p) == 0.0
            else Quantile(xs, 0.0) == xs[0] && Quantile(xs, 1.0) == xs[|xs| - 1]
  {
    if |xs| >= 2 {
      assert 0.0 * (|xs| - 1) as real == 0.0;
      assert 1.0 * (|xs| - 1) as real == (|xs| - 1) as real;
    }
  }

  lemma QuantileMonotone(xs: seq<real>, p: real, q: real)
    requires Ascending(xs) && 0.0 <= p <= q <= 1.0
    ensures Quantile(xs, p) <= Quantile(xs, q)
  {
    if |xs| >= 2 {
      PositionInRange(xs, p);
      PositionInRange(xs, q);
      PositionMonotone(xs, p, q);
      ValueMonotone(xs, Position(xs, p), Position(xs, q));
    }
  }

  lemma FloorBetween(x: real, i: int)
    requires i as real <= x < (i + 1) as real
    ensures x.Floor == i && Ceiling(x) == if x == i as real then i else i + 1
  {
  }

  /** The weights of the two neighbours are the distances from the other one. */
  lemma QuantileInterpolates(xs: seq<real>, p: real, i: nat, w: real)
    requires i + 1 < |xs| && 0.0 <= p <= 1.0 && 0.0 <= w <= 1.0
    requires p * (|xs| - 1) as real == i as real + w
    ensures Quantile(xs, p) == (1.0 - w) * xs[i] + w * xs[i + 1]
  {
    var pos := Position(xs, p);
    assert pos == i as real + w;
    PositionInRange(xs, p);
    if w == 1.0 {
      FloorBetween(pos, i + 1);
    } else {
      FloorBetween(pos, i);
      Weighted(xs[i], xs[i + 1], w);
    }
  }

  lemma Weighted(a: real, b: real, w: real)
    ensures Blend(a, b, w) == (1.0 - w) * a + w * b
  {
  }

  lemma Spread(a: real, d: real, i: real, w: real)
    ensures (1.0 - w) * (a + d * i) + w * (a + d * (i + 1.0)) == a + d * (i + w)
  {
  }

  /** On equally spaced values the quantile is exact. */
  lemma QuantileOfProgression(xs: seq<real>, a: real, d: real, p: real)
    requires |xs| >= 2 && 0.0 <= p <= 1.0 && forall i :: 0 <= i < |xs| ==> xs[i] == a + d * i as real
    ensures Quantile(xs, p) == a + d * (p * (|xs| - 1) as real)
  {
    var pos := Position(xs, p);
    PositionInRange(xs, p);
    var i := if pos.Floor == |xs| - 1 then |xs| - 2 else pos.Floor;
    var w := pos - i as real;
    QuantileInterpolates(xs, p, i, w);
    assert xs[i + 1] == a + d * (i as real + 1.0);
    Spread(a, d, i as real, w);
  }
}
