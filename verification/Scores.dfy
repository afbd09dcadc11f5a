/** Retrieval scores and answer confidence. Numbers are real, so rounding errors of the machine are not modelled. */
module Scores {
  import opened Wrappers

  // ---------------------------------------------------------------------------------------------
  // Cosine similarity
  // ---------------------------------------------------------------------------------------------

  /** A product by name, so that proofs can take it apart by hand. */
  function Times(x: real, y: real): real {
    x * y
  }

  function Dot(a: seq<real>, b: seq<real>): real
    requires |a| == |b|
  {
    if a == [] then 0.0 else Dot(a[..|a| - 1], b[..|b| - 1]) + Times(a[|a| - 1], b[|b| - 1])
  }

  /** `sqrt` is right at `x`. */
  predicate RootAt(sqrt: real -> real, x: real) {
    sqrt(x) >= 0.0 && Times(sqrt(x), sqrt(x)) == x
  }

  /** Defined for vectors of equal length; clamped below only. */
  function Cosine(a: seq<real>, b: seq<real>, sqrt: real -> real): real {
    if |a| != |b| || a == [] || Dot(a, a) == 0.0 || Dot(b, b) == 0.0 || sqrt(Times(Dot(a, a), Dot(b, b))) == 0.0 then 0.0
    else
      var c := Dot(a, b) / sqrt(Times(Dot(a, a), Dot(b, b)));
      if c > 0.0 then c else 0.0
  }

  method CosineSimilarity(left: seq<real>, right: seq<real>, sqrt: real -> real) returns (c: real)
    requires |left| == |right| ==> RootAt(sqrt, Times(Dot(left, left), Dot(right, right)))
    ensures c == Cosine(left, right, sqrt) && 0.0 <= c <= 1.0
  {
    if |left| != |right| || |left| == 0 {
      return 0.0;
    }
    CosineInUnit(left, right, sqrt);
    var dot, leftMagnitude, rightMagnitude := 0.0, 0.0, 0.0;
    for i := 0 to |left|
      invariant dot == Dot(left[..i], right[..i])
      invariant leftMagnitude == Dot(left[..i], left[..i]) && rightMagnitude == Dot(right[..i], right[..i])
    {
      DotStep(left, right, i);
      DotStep(left, left, i);
      DotStep(right, right, i);
      dot := dot + left[i] * right[i];
      leftMagnitude := leftMagnitude + left[i] * left[i];
      rightMagnitude := rightMagnitude + right[i] * right[i];
    }
    assert left[..|left|] == left && right[..|right|] == right;
    if leftMagnitude == 0.0 || rightMagnitude == 0.0 {
      return 0.0;
    }
    assert leftMagnitude * rightMagnitude == Times(leftMagnitude, rightMagnitude);
    c := dot / sqrt(leftMagnitude * rightMagnitude);
    c := if c > 0.0 then c else 0.0;
  }

  lemma DotStep(a: seq<real>, b: seq<real>, i: nat)
    requires i < |a| == |b|
    ensures Dot(a[..i + 1], b[..i + 1]) == Dot(a[..i], b[..i]) + a[i] * b[i]
  {
    assert a[..i + 1][..i] == a[..i] && b[..i + 1][..i] == b[..i];
  }

  // Products ------------------------------------------------------------------------------------

  lemma Positive(x: real, y: real)
    requires x > 0.0 && y > 0.0
    ensures Times(x, y) > 0.0
  {
  }

  lemma Distribute(x: real, y: real, z: real)
    ensures Times(x + y, z) == Times(x, z) + Times(y, z)
    ensures Times(x - y, z) == Times(x, z) - Times(y, z)
    ensures Times(z, x + y) == Times(z, x) + Times(z, y)
    ensures Times(z, x - y) == Times(z, x) - Times(z, y)
  {
  }

  lemma Reorder(x: real, y: real, z: real)
    ensures Times(Times(x, y), z) == Times(x, Times(y, z)) == Times(y, Times(x, z)) == Times(Times(x, z), y)
  {
  }

  lemma Square(x: real)
    ensures Times(x, x) >= 0.0 && (x != 0.0 ==> Times(x, x) > 0.0)
  {
    if x > 0.0 {
      Positive(x, x);
    } else if x < 0.0 {
      Positive(-x, -x);
      assert Times(-x, -x) == Times(x, x);
    }
  }

  lemma SquareGrows(r: real, d: real)
    requires 0.0 <= r < d
    ensures Times(r, r) < Times(d, d)
  {
    Positive(d - r, d);
    Distribute(d, r, d);
    if r > 0.0 {
      Positive(d - r, r);
      Distribute(d, r, r);
    }
  }

  // Cauchy-Schwarz ------------------------------------------------------------------------------

  lemma {:induction false} MagnitudeIsNonNegative(a: seq<real>)
    ensures Dot(a, a) >= 0.0
  {
    if a == [] {
    } else {
      MagnitudeIsNonNegative(a[..|a| - 1]);
      Square(a[|a| - 1]);
    }
  }

  /** How much the two magnitudes together gain on the product with one more coordinate. */
  function Gap(m: real, n: real, d: real, x: real, y: real): real {
    Times(m, Times(y, y)) + Times(n, Times(x, x)) - 2.0 * Times(d, Times(x, y))
  }

  /** `m` times the gap is a square plus a product of two numbers that are not negative. */
  lemma ScaledGap(m: real, n: real, d: real, x: real, y: real)
    requires m > 0.0 && Times(d, d) <= Times(m, n)
    ensures Times(m, Gap(m, n, d, x, y)) >= 0.0
  {
    var my, dx := Times(m, y), Times(d, x);
    Square(my - dx);
    Square(x);
    Distribute(my, dx, my - dx);
    Distribute(my, dx, my);
    Distribute(my, dx, dx);
    Distribute(Times(m, n), Times(d, d), Times(x, x));
    CrossProduct(m, d, x, y);
    Reorder(m, n, Times(x, x));
  }

  lemma CrossProduct(m: real, d: real, x: real, y: real)
    ensures Times(Times(m, y), Times(d, x)) == Times(m, Times(d, Times(x, y))) == Times(Times(d, x), Times(m, y))
  {
  }

  lemma GapIsNonNegative(m: real, n: real, d: real, x: real, y: real)
    requires m >= 0.0 && n >= 0.0 && Times(d, d) <= Times(m, n)
    ensures Gap(m, n, d, x, y) >= 0.0
  {
    Square(x);
    Square(d);
    if m == 0.0 {
      assert d == 0.0;
    } else {
      ScaledGap(m, n, d, x, y);
      var gap := Gap(m, n, d, x, y);
      assert Times(m, -gap) == -Times(m, gap);
      if gap < 0.0 {
        Positive(m, -gap);
      }
    }
  }

  lemma OneMoreCoordinate(m: real, n: real, d: real, x: real, y: real)
    requires m >= 0.0 && n >= 0.0 && Times(d, d) <= Times(m, n)
    ensures Times(d + Times(x, y), d + Times(x, y)) <= Times(m + Times(x, x), n + Times(y, y))
  {
    GapIsNonNegative(m, n, d, x, y);
    var xx, yy, xy := Times(x, x), Times(y, y), Times(x, y);
    Distribute(m, xx, n + yy);
    Distribute(n, yy, m);
    Distribute(n, yy, xx);
    Distribute(d, xy, d + xy);
    Distribute(d, xy, d);
    Distribute(d, xy, xy);
  }

  /** The Cauchy-Schwarz inequality. */
  lemma {:induction false} CauchySchwarz(a: seq<real>, b: seq<real>)
    requires |a| == |b|
    ensures Times(Dot(a, b), Dot(a, b)) <= Times(Dot(a, a), Dot(b, b))
  {
    if a == [] {
    } else {
      var n := |a| - 1;
      CauchySchwarz(a[..n], b[..n]);
      MagnitudeIsNonNegative(a[..n]);
      MagnitudeIsNonNegative(b[..n]);
      OneMoreCoordinate(Dot(a[..n], a[..n]), Dot(b[..n], b[..n]), Dot(a[..n], b[..n]), a[n], b[n]);
    }
  }

  lemma QuotientOfSame(m: real, r: real)
    requires m == r && r != 0.0
    ensures m / r == 1.0
  {
  }

  lemma QuotientBelow(d: real, r: real)
    requires Times(d, d) <= Times(r, r) && r > 0.0
    ensures d / r <= 1.0
  {
    if r < d {
      SquareGrows(r, d);
    } else {
      var q := d / r;
      Distribute(q, 1.0, r);
      if 1.0 < q {
        Positive(q - 1.0, r);
      }
    }
  }

  /** The similarity of any two vectors lies between 0 and 1. */
  lemma CosineInUnit(a: seq<real>, b: seq<real>, sqrt: real -> real)
    requires |a| == |b| ==> RootAt(sqrt, Times(Dot(a, a), Dot(b, b)))
    ensures 0.0 <= Cosine(a, b, sqrt) <= 1.0
  {
    if |a| == |b| && Dot(a, a) != 0.0 && Dot(b, b) != 0.0 {
      CauchySchwarz(a, b);
      QuotientBelow(Dot(a, b), sqrt(Times(Dot(a, a), Dot(b, b))));
    }
  }

  lemma {:induction false} DotIsSymmetric(a: seq<real>, b: seq<real>)
    requires |a| == |b|
    ensures Dot(a, b) == Dot(b, a)
  {
    if a == [] {
    } else {
      DotIsSymmetric(a[..|a| - 1], b[..|b| - 1]);
    }
  }

  /** The bound is met: a vector that is not zero is as similar to itself as can be. And order does not matter. */
  lemma CosineIsSymmetricAndReflexive(a: seq<real>, b: seq<real>, sqrt: real -> real)
    requires RootAt(sqrt, Times(Dot(a, a), Dot(a, a))) && Dot(a, a) != 0.0
    ensures Cosine(a, a, sqrt) == 1.0
    ensures Cosine(a, b, sqrt) == Cosine(b, a, sqrt)
  {
    var m := Dot(a, a);
    var r := sqrt(Times(m, m));
    MagnitudeIsNonNegative(a);
    if m < r {
      SquareGrows(m, r);
    } else if r < m {
      SquareGrows(r, m);
    }
    QuotientOfSame(m, r);
    if |a| == |b| {
      DotIsSymmetric(a, b);
    }
  }
}
