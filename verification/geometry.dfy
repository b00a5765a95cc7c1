/**
 * Distances between 3D points, kept exact.
 *
 * Java's `Math.sqrt` has no exact counterpart over Dafny's `real`, so a
 * distance is kept as the radicand of its square root: `Sqrt(v)` stands for
 * the one real `r >= 0` with `r * r == v`. The order between two distances and
 * the epsilon tie test are decided exactly on radicands, and the lemmas below
 * show that both agree with the same comparisons made on the roots themselves.
 */
module Geometry {

  /** The tolerance under which two distances count as tied (`epsilon` in `naive_knn`). */
  const EPSILON: real := 0.00001

  /** `EPSILON * EPSILON`, written out so that the tie test stays linear in the radicands. */
  const EPSILON_SQUARED: real := 0.0000000001

  /** `Sqrt(v)` denotes the non-negative square root of `v`. */
  datatype Root = Sqrt(radicand: real)

  /**
   * Products are taken through `Product` so that facts about a square such as
   * `a * a > 0.0` stay attached to the square itself in the proofs below.
   */
  function Product(x: real, y: real): real
  {
    x * y
  }

  function Square(a: real): real
  {
    Product(a, a)
  }

  /** `r` is the real number that `d` denotes. */
  predicate Denotes(d: Root, r: real)
  {
    r >= 0.0 && Square(r) == d.radicand
  }

  function Abs(x: real): real
  {
    if x < 0.0 then -x else x
  }

  lemma ProductPositive(x: real, y: real)
    requires x > 0.0 && y > 0.0
    ensures Product(x, y) > 0.0
  {
  }

  lemma SquareSign(a: real)
    ensures Square(a) >= 0.0
    ensures Square(a) == 0.0 <==> a == 0.0
  {
    if a > 0.0 {
      ProductPositive(a, a);
    } else if a < 0.0 {
      ProductPositive(-a, -a);
      assert Product(-a, -a) == Product(a, a);
    } else {
      assert Square(a) == 0.0;
    }
  }

  /** Square root of the summed squared coordinate differences (`Math.pow(d, 2)` is `d * d`). */
  function EuclideanDistance(x1: real, y1: real, z1: real, x2: real, y2: real, z2: real): (r: Root)
    ensures r.radicand >= 0.0
    ensures r.radicand == 0.0 <==> x1 == x2 && y1 == y2 && z1 == z2
  {
    SquareSign(x2 - x1);
    SquareSign(y2 - y1);
    SquareSign(z2 - z1);
    Sqrt(Square(x2 - x1) + Square(y2 - y1) + Square(z2 - z1))
  }

  /** The distance does not depend on which point is measured from. */
  lemma DistanceSymmetric(x1: real, y1: real, z1: real, x2: real, y2: real, z2: real)
    ensures EuclideanDistance(x1, y1, z1, x2, y2, z2) == EuclideanDistance(x2, y2, z2, x1, y1, z1)
  {
    assert Square(x2 - x1) == Square(x1 - x2);
    assert Square(y2 - y1) == Square(y1 - y2);
    assert Square(z2 - z1) == Square(z1 - z2);
  }

  /** Whatever real root a distance denotes, it is non-negative and zero exactly at coinciding points. */
  lemma DistanceDenotesLength(x1: real, y1: real, z1: real, x2: real, y2: real, z2: real, r: real)
    requires Denotes(EuclideanDistance(x1, y1, z1, x2, y2, z2), r)
    ensures r >= 0.0
    ensures r == 0.0 <==> x1 == x2 && y1 == y2 && z1 == z2
  {
    SquareSign(r);
  }

  /** `a` is not farther than `b`: the order `Double.compareTo` gives on the roots. */
  predicate AtMost(a: Root, b: Root)
  {
    a.radicand <= b.radicand
  }

  /**
   * `|sqrt(a) - sqrt(b)| < EPSILON`, decided on radicands: squaring,
   * `a + b - 2 sqrt(a b) < EPSILON^2`, which holds when `a + b - EPSILON^2` is
   * negative or its square is below `4 a b`.
   */
  predicate WithinEpsilon(a: Root, b: Root)
  {
    var c := a.radicand + b.radicand - EPSILON_SQUARED;
    c < 0.0 || Square(c) < 4.0 * Product(a.radicand, b.radicand)
  }

  /** The tie test does not depend on the order of the two distances. */
  lemma WithinEpsilonSymmetric(a: Root, b: Root)
    ensures WithinEpsilon(a, b) <==> WithinEpsilon(b, a)
  {
    assert Product(a.radicand, b.radicand) == Product(b.radicand, a.radicand);
  }

  /** For non-negative reals, comparing squares compares the numbers. */
  lemma SquaresOrdered(x: real, y: real)
    requires x >= 0.0 && y >= 0.0
    ensures x <= y <==> Square(x) <= Square(y)
    ensures x < y <==> Square(x) < Square(y)
  {
    if x < y {
      ProductPositive(y - x, y + x);
      assert Product(y - x, y + x) == Square(y) - Square(x);
    } else if y < x {
      ProductPositive(x - y, x + y);
      assert Product(x - y, x + y) == Square(x) - Square(y);
    }
  }

  /** `AtMost` orders distances exactly as their real roots are ordered. */
  lemma AtMostMeansRootsOrdered(a: Root, b: Root, ra: real, rb: real)
    requires Denotes(a, ra) && Denotes(b, rb)
    ensures AtMost(a, b) <==> ra <= rb
  {
    SquaresOrdered(ra, rb);
  }

  lemma ProductNonNegative(x: real, y: real)
    requires x >= 0.0 && y >= 0.0
    ensures Product(x, y) >= 0.0
  {
    if x > 0.0 && y > 0.0 {
      ProductPositive(x, y);
    }
  }

  /** `WithinEpsilon` is exactly the test `Math.abs(ra - rb) < epsilon` on the real roots. */
  lemma WithinEpsilonMeansRootsClose(a: Root, b: Root, ra: real, rb: real)
    requires Denotes(a, ra) && Denotes(b, rb)
    ensures WithinEpsilon(a, b) <==> Abs(ra - rb) < EPSILON
  {
    var p := Product(ra, rb);
    var c := a.radicand + b.radicand - EPSILON_SQUARED;
    ProductNonNegative(ra, rb);
    // (ra - rb)^2 = a + b - 2 p, and a b = p^2
    assert Square(Abs(ra - rb)) == a.radicand + b.radicand - 2.0 * p;
    assert Product(a.radicand, b.radicand) == Square(p);
    SquaresOrdered(Abs(ra - rb), EPSILON);
    if c >= 0.0 {
      SquaresOrdered(c, 2.0 * p);
      assert Square(2.0 * p) == 4.0 * Square(p);
    }
  }

  /** Two distances that are not tied: the larger is at least `EPSILON` (its radicand at least `EPSILON^2`). */
  lemma UntiedMeansFar(b: Root, c: Root)
    requires 0.0 <= b.radicand <= c.radicand && !WithinEpsilon(b, c)
    ensures c.radicand >= EPSILON_SQUARED
  {
    var e, y, z := EPSILON_SQUARED, b.radicand, c.radicand;
    if z < e {
      // then y >= e - z > 0 and (z - e)^2 <= y^2, so (y + z - e)^2 - 4 y z <= 2 y (y - z - e) < 0
      assert Square(y + z - e) - 4.0 * Product(y, z) == Square(y) - 2.0 * Product(y, z + e) + Square(z - e);
      SquaresOrdered(e - z, y);
      assert Square(z - e) == Square(e - z);
      ProductPositive(y, z + e - y);
      assert false;
    }
  }

  /** In a chain `a <= b <= c`, a `b` that is not tied with `c` leaves `a` untied with `c` too. */
  lemma UntiedBelowStaysUntied(a: Root, b: Root, c: Root)
    requires 0.0 <= a.radicand
    requires AtMost(a, b) && AtMost(b, c) && !WithinEpsilon(b, c)
    ensures !WithinEpsilon(a, c)
  {
    var e, x, y, z := EPSILON_SQUARED, a.radicand, b.radicand, c.radicand;
    UntiedMeansFar(b, c);
    // (v + z - e)^2 - 4 v z only grows as v moves down from y to x
    assert Square(x + z - e) - 4.0 * Product(x, z) == Square(y + z - e) - 4.0 * Product(y, z) + Product(y - x, 2.0 * z + 2.0 * e - x - y);
    ProductNonNegative(y - x, 2.0 * z + 2.0 * e - x - y);
  }

  /** Symmetrically, `a <= b <= c` with `a` not tied to `b` leaves `a` untied with `c`. */
  lemma UntiedAboveStaysUntied(a: Root, b: Root, c: Root)
    requires 0.0 <= a.radicand
    requires AtMost(a, b) && AtMost(b, c) && !WithinEpsilon(a, b)
    ensures !WithinEpsilon(a, c)
  {
    var e, x, y, z := EPSILON_SQUARED, a.radicand, b.radicand, c.radicand;
    // g(v) = (x + v - e)^2 - 4 x v = (v - x)^2 - 2 e (x + v) + e^2; !WithinEpsilon(a, b) says g(y) >= 0 with x + y - e >= 0
    assert Square(x + y - e) - 4.0 * Product(x, y) == Square(y - x) - 2.0 * e * (x + y) + Square(e);
    if y < x + e {
      // then 0 <= y - x < e, so g(y) < 2 e (e - x - y) <= 0
      SquaresOrdered(y - x, e);
      assert false;
    }
    assert Square(x + z - e) - 4.0 * Product(x, z) == Square(x + y - e) - 4.0 * Product(x, y) + Product(z - y, z + y - 2.0 * x - 2.0 * e);
    ProductNonNegative(z - y, z + y - 2.0 * x - 2.0 * e);
  }
}
