/**
 * The selection `naive_knn` evidently means to make, next to concrete lists
 * on which the code as written departs from it.
 *
 * Meant: keep every star strictly nearer than the block of stars tied with
 * rank `k`, and fill the remaining places by drawing from that whole block,
 * rank `k` included. Then the result is always `k` stars, none of which is
 * farther than a star left out unless both are tied with rank `k`.
 */
module Intended {
  import opened Wrappers
  import opened Geometry
  import opened Catalog
  import opened Knn
  import opened KnnProperties

  /**
   * The corrected plan: `k` outside `[0, |t|]` is the exception `subList(0, k)`
   * throws, `k == |t|` keeps the whole list, and otherwise the run tied with
   * rank `k` is scanned down to position 0 and up to the end, the prefix stops
   * right before it, and the draws come from the run with rank `k` in it.
   */
  function IntendedPlan(t: seq<bool>, k: int): (r: Outcome<Plan>)
    ensures r.Success? <==> 0 <= k <= |t|
    ensures r.Failure? ==> r.error == (if k < 0 then IllegalArgument else IndexOutOfBounds)
    ensures r.Success? ==> r.value.prefix <= k && k - r.value.prefix <= |r.value.pool|
    ensures r.Success? ==> Distinct(r.value.pool)
    ensures r.Success? ==> forall j :: 0 <= j < |r.value.pool| ==> r.value.prefix <= r.value.pool[j] < |t|
  {
    if k < 0 then Failure(IllegalArgument)
    else if |t| < k then Failure(IndexOutOfBounds)
    else if k == |t| then Success(Plan(k, []))
    else
      var below, above := TiesBelow(t, k - 1, 0), TiesAbove(t, k + 1);
      Success(Plan(k - |below|, below + [k] + above))
  }

  /** A distance is tied with itself. */
  lemma WithinEpsilonReflexive(a: Root)
    requires a.radicand >= 0.0
    ensures WithinEpsilon(a, a)
  {
    var x, e := a.radicand, EPSILON_SQUARED;
    var c := x + x - e;
    if c >= 0.0 {
      // c^2 = 4 x^2 - e (4 x - e), and 4 x >= 2 e > e
      assert Square(c) == 4.0 * Product(x, x) - Product(e, 4.0 * x - e);
      ProductPositive(e, 4.0 * x - e);
    }
  }

  /**
   * The corrected pool is the block of positions from the prefix on, each
   * tied with rank `k`.
   */
  lemma IntendedPool(d: seq<Root>, k: int)
    requires NonNegative(d) && 0 <= k < |d|
    ensures var plan := IntendedPlan(Tied(d, k), k).value;
      && (forall j :: 0 <= j < |plan.pool| ==>
        plan.prefix <= plan.pool[j] < plan.prefix + |plan.pool| && WithinEpsilon(d[plan.pool[j]], d[k]))
      && (forall q :: plan.prefix <= q < plan.prefix + |plan.pool| ==> q in plan.pool)
  {
    var t := Tied(d, k);
    var below, above := TiesBelow(t, k - 1, 0), TiesAbove(t, k + 1);
    var plan := IntendedPlan(t, k).value;
    assert plan.pool == below + [k] + above;
    forall j | 0 <= j < |plan.pool|
      ensures WithinEpsilon(d[plan.pool[j]], d[k])
    {
      TiedAt(d, k, plan.pool[j]);
      if j == |below| {
        WithinEpsilonReflexive(d[k]);
      }
    }
    forall q | plan.prefix <= q < plan.prefix + |plan.pool|
      ensures q in plan.pool
    {
      if q < k {
        assert plan.pool[k - 1 - q] == q;
      } else if q == k {
        assert plan.pool[|below|] == q;
      } else {
        assert plan.pool[q - k + |below|] == q;
      }
    }
  }

  /**
   * Choosing the first `prefix` positions and drawing the rest from the block
   * `[prefix, prefix + |pool|)` of positions tied with rank `k` leaves out no
   * star nearer than a chosen one, except among the tied block.
   */
  lemma BlockDrawIsNearest(d: seq<Root>, k: int, prefix: nat, pool: seq<int>, drawn: seq<int>)
    requires Ascending(d) && prefix <= k <= |d| && prefix + |pool| <= |d|
    requires forall j :: 0 <= j < |pool| ==>
      prefix <= pool[j] < prefix + |pool| && 0 <= k < |d| && WithinEpsilon(d[pool[j]], d[k])
    requires forall q :: prefix <= q < prefix + |pool| ==> q in pool
    requires IsDraw(drawn, pool, k - prefix)
    ensures var chosen := Upto(prefix) + drawn;
      && |chosen| == k
      && (forall i :: 0 <= i < k ==> 0 <= chosen[i] < |d|)
      && Distinct(chosen)
      && forall i, q :: 0 <= i < k && 0 <= q < |d| && q !in chosen ==>
        AtMost(d[chosen[i]], d[q]) || (k < |d| && WithinEpsilon(d[chosen[i]], d[k]) && WithinEpsilon(d[q], d[k]))
  {
    var chosen := Upto(prefix) + drawn;
    var end := prefix + |pool|;
    forall j | 0 <= j < |drawn|
      ensures prefix <= drawn[j] < end && WithinEpsilon(d[drawn[j]], d[k])
    {
      var m :| 0 <= m < |pool| && pool[m] == drawn[j];
    }
    assert Distinct(chosen) by {
      forall p, q | 0 <= p < q < |chosen|
        ensures chosen[p] != chosen[q]
      {
        if p < prefix <= q {
          assert chosen[p] == p && chosen[q] == drawn[q - prefix];
        }
      }
    }
    forall q | 0 <= q < prefix
      ensures q in chosen
    {
      assert chosen[q] == q;
    }
    forall i, q | 0 <= i < k && 0 <= q < |d| && q !in chosen
      ensures AtMost(d[chosen[i]], d[q]) || (k < |d| && WithinEpsilon(d[chosen[i]], d[k]) && WithinEpsilon(d[q], d[k]))
    {
      if i < prefix {
        assert chosen[i] == i < q;
      } else {
        assert chosen[i] == drawn[i - prefix];
        if q < end {
          assert q in pool;
          var m :| 0 <= m < |pool| && pool[m] == q;
        } else {
          assert chosen[i] < q;
        }
      }
    }
  }

  /**
   * On a sorted list the corrected plan returns the nearest stars: whatever
   * the draws, the `k` chosen positions are distinct, and a chosen star is
   * never farther than a star left out unless both are tied with rank `k`.
   */
  lemma IntendedSelectsNearest(d: seq<Root>, k: int, drawn: seq<int>)
    requires Ascending(d) && NonNegative(d) && 0 <= k <= |d|
    requires IsDraw(drawn, IntendedPlan(Tied(d, k), k).value.pool, k - IntendedPlan(Tied(d, k), k).value.prefix)
    ensures var chosen := Upto(IntendedPlan(Tied(d, k), k).value.prefix) + drawn;
      && |chosen| == k
      && (forall i :: 0 <= i < k ==> 0 <= chosen[i] < |d|)
      && Distinct(chosen)
      && forall i, q :: 0 <= i < k && 0 <= q < |d| && q !in chosen ==>
        AtMost(d[chosen[i]], d[q]) || (k < |d| && WithinEpsilon(d[chosen[i]], d[k]) && WithinEpsilon(d[q], d[k]))
  {
    var plan := IntendedPlan(Tied(d, k), k).value;
    if k < |d| {
      IntendedPool(d, k);
    }
    BlockDrawIsNearest(d, k, plan.prefix, plan.pool, drawn);
  }

  /** The tie flags of the distances 1, 2, 2 against rank 1. */
  lemma FlagsOneTwoTwo()
    ensures Tied([Sqrt(1.0), Sqrt(4.0), Sqrt(4.0)], 1) == [false, true, true]
  {
    var d := [Sqrt(1.0), Sqrt(4.0), Sqrt(4.0)];
    TiedAt(d, 1, 0);
    TiedAt(d, 1, 1);
    TiedAt(d, 1, 2);
  }

  /**
   * As written, the prefix `k - 1 - |intsLessThanK|` stops one short: on
   * the distances 1, 2, 2 with `k == 1`, the nearest star (rank 0, tied with
   * nobody) is dropped for the star at rank 2. The corrected plan keeps it.
   */
  lemma AsWrittenDropsNearest(stars: seq<Star>, result: Outcome<seq<Star>>, drawn: seq<int>)
    requires |stars| == 3
    requires Returns(stars, Tied([Sqrt(1.0), Sqrt(4.0), Sqrt(4.0)], 1), 1, result, drawn)
    ensures KnnPlan(Tied([Sqrt(1.0), Sqrt(4.0), Sqrt(4.0)], 1), 1) == Success(Plan(0, [2]))
    ensures result == Success([stars[2]]) && drawn == [2]
    ensures !AtMost(Sqrt(4.0), Sqrt(1.0)) && !WithinEpsilon(Sqrt(1.0), Sqrt(4.0))
    ensures IntendedPlan(Tied([Sqrt(1.0), Sqrt(4.0), Sqrt(4.0)], 1), 1) == Success(Plan(1, [1, 2]))
  {
    FlagsOneTwoTwo();
    var t := [false, true, true];
    assert Less(t, 1) == [] && Greater(t, 1) == [2];
    assert KnnPlan(t, 1) == Success(Plan(0, [] + [2]));
    assert [] + [2] == [2];
    assert TiesBelow(t, 0, 0) == [] && TiesAbove(t, 2) == [2];
    assert IntendedPlan(t, 1) == Success(Plan(1, [] + [1] + [2]));
    assert [] + [1] + [2] == [1, 2];
    SingleDraw(stars, t, result, drawn, 2);
  }

  /** With an empty prefix, `k == 1` and a one-position pool, the result is the star at that position. */
  lemma SingleDraw(stars: seq<Star>, t: seq<bool>, result: Outcome<seq<Star>>, drawn: seq<int>, p: int)
    requires |t| == |stars| && Returns(stars, t, 1, result, drawn)
    requires KnnPlan(t, 1) == Success(Plan(0, [p]))
    ensures 0 <= p < |stars| && result == Success([stars[p]]) && drawn == [p]
  {
    assert drawn[0] in [p];
    assert drawn == [p];
    assert Pick(stars, drawn) == [stars[p]];
    assert stars[..0] + [stars[p]] == [stars[p]];
    assert result.value == [stars[p]];
  }

  /**
   * As written, `k` equal to a list length of at least 2 throws in the first
   * scan's `get(k)`, where the whole list is evidently meant.
   */
  lemma AsWrittenFullListThrows(stars: seq<Star>, result: Outcome<seq<Star>>, drawn: seq<int>)
    requires |stars| == 2
    requires Returns(stars, Tied([Sqrt(1.0), Sqrt(4.0)], 2), 2, result, drawn)
    ensures result == Failure(IndexOutOfBounds)
    ensures IntendedPlan(Tied([Sqrt(1.0), Sqrt(4.0)], 2), 2) == Success(Plan(2, []))
  {
  }

  /**
   * As written, a tie just below rank `k` with none above needs
   * `|intsLessThanK| + 1` draws from a pool of `|intsLessThanK|`:
   * on the distances 1, 2, 2, 3 with `k == 2`, `rand.nextInt(0)` throws. The
   * corrected plan draws one star out of two.
   */
  lemma AsWrittenRunsOutOfDraws(stars: seq<Star>, result: Outcome<seq<Star>>, drawn: seq<int>)
    requires |stars| == 4
    requires Returns(stars, Tied([Sqrt(1.0), Sqrt(4.0), Sqrt(4.0), Sqrt(9.0)], 2), 2, result, drawn)
    ensures KnnPlan(Tied([Sqrt(1.0), Sqrt(4.0), Sqrt(4.0), Sqrt(9.0)], 2), 2) == Success(Plan(0, [1]))
    ensures result == Failure(IllegalArgument)
    ensures IntendedPlan(Tied([Sqrt(1.0), Sqrt(4.0), Sqrt(4.0), Sqrt(9.0)], 2), 2) == Success(Plan(1, [1, 2]))
  {
    var d := [Sqrt(1.0), Sqrt(4.0), Sqrt(4.0), Sqrt(9.0)];
    var t := Tied(d, 2);
    TiedAt(d, 2, 0);
    TiedAt(d, 2, 1);
    TiedAt(d, 2, 2);
    TiedAt(d, 2, 3);
    assert t == [false, true, true, false];
    assert Less(t, 2) == [1] && Greater(t, 2) == [];
    assert TiesBelow(t, 1, 0) == [1] && TiesAbove(t, 3) == [];
    assert IntendedPlan(t, 2) == Success(Plan(1, [1] + [2] + []));
    assert [1] + [2] + [] == [1, 2];
  }

  /**
   * As written, `k == 0` with a tie at rank 1 asks for `subList(0, -1)` and
   * throws; nothing is evidently meant but the empty list.
   */
  lemma AsWrittenZeroThrowsOnTie(stars: seq<Star>, result: Outcome<seq<Star>>, drawn: seq<int>)
    requires |stars| == 2
    requires Returns(stars, Tied([Sqrt(1.0), Sqrt(1.0)], 0), 0, result, drawn)
    ensures result == Failure(IllegalArgument)
    ensures IntendedPlan(Tied([Sqrt(1.0), Sqrt(1.0)], 0), 0) == Success(Plan(0, [0, 1]))
  {
    var d := [Sqrt(1.0), Sqrt(1.0)];
    var t := Tied(d, 0);
    TiedAt(d, 0, 0);
    TiedAt(d, 0, 1);
    assert t == [true, true];
    assert Less(t, 0) == [] && Greater(t, 0) == [1];
    assert TiesAbove(t, 1) == [1] && TiesBelow(t, -1, 0) == [];
    assert IntendedPlan(t, 0) == Success(Plan(0, [] + [0] + [1]));
    assert [] + [0] + [1] == [0, 1];
  }
}
