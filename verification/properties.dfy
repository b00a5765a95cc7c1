/**
 * What the outcome of `naive_knn` guarantees, read off `Returns`: when it
 * throws and which exception, how the `k` returned stars are chosen, which
 * positions the tie branch can and cannot return, and, once the list is
 * sorted, that the two scans find every star tied with the one at rank `k`.
 */
module KnnProperties {
  import opened Wrappers
  import opened Geometry
  import opened Catalog
  import opened Knn

  /** The first scan finds a tie: position `k - 1` is tied and lies above position 0. */
  predicate TieBelow(t: seq<bool>, k: int)
  {
    2 <= k < |t| && t[k - 1]
  }

  /** The second scan finds a tie: position `k + 1` exists and is tied. */
  predicate TieAbove(t: seq<bool>, k: int)
  {
    0 <= k && k + 1 < |t| && t[k + 1]
  }

  /**
   * `naive_knn` returns normally exactly when `k` is a position of the list
   * or its length, but not the length once `k >= 2`; a tie just below rank
   * `k` needs one just above it, and a tie just above it needs `k >= 1`.
   * It throws `IndexOutOfBoundsException` exactly when `k` exceeds the list,
   * when `k` equals a length of at least 2, or when a negative `k` lets the
   * second scan start inside the list; every other failure is
   * `IllegalArgumentException`.
   */
  lemma OutcomeCases(stars: seq<Star>, t: seq<bool>, k: int, result: Outcome<seq<Star>>, drawn: seq<int>)
    requires |t| == |stars| && Returns(stars, t, k, result, drawn)
    ensures result.Success? <==>
      && 0 <= k <= |t|
      && (2 <= k ==> k < |t|)
      && (TieBelow(t, k) ==> TieAbove(t, k))
      && (TieAbove(t, k) ==> 1 <= k)
    ensures result == Failure(IndexOutOfBounds) <==> |t| < k || 2 <= k == |t| || (k < 0 && k + 1 < |t|)
  {
    if ScansInRange(|t|, k) {
      var less, greater := Less(t, k), Greater(t, k);
      assert less == [] <==> !TieBelow(t, k);
      assert greater == [] <==> !TieAbove(t, k);
      if less != [] || greater != [] {
        if 0 <= k - 1 - |less| {
          assert |less + greater| < k - (k - 1 - |less|) <==> greater == [];
        }
      }
    }
  }

  /** The positions `0, 1, ..., n - 1`. */
  function Upto(n: nat): (r: seq<int>)
    ensures |r| == n
    ensures forall j :: 0 <= j < n ==> r[j] == j
  {
    if n == 0 then [] else Upto(n - 1) + [n - 1]
  }

  /** What a normal return consists of: the plan's prefix followed by the drawn stars. */
  lemma ReturnedPlan(stars: seq<Star>, t: seq<bool>, k: int, result: Outcome<seq<Star>>, drawn: seq<int>)
    requires |t| == |stars| && Returns(stars, t, k, result, drawn) && result.Success?
    ensures KnnPlan(t, k).Success?
    ensures var plan := KnnPlan(t, k).value;
      && IsDraw(drawn, plan.pool, k - plan.prefix)
      && result.value == stars[..plan.prefix] + Pick(stars, drawn)
  {
  }

  /** Two position lists without repeats, all of the first below `bound` and all of the second above it. */
  lemma DistinctConcat(a: seq<int>, b: seq<int>, bound: int)
    requires Distinct(a) && Distinct(b)
    requires forall j :: 0 <= j < |a| ==> a[j] < bound
    requires forall j :: 0 <= j < |b| ==> bound < b[j]
    ensures Distinct(a + b)
  {
    forall p, q | 0 <= p < q < |a + b|
      ensures (a + b)[p] != (a + b)[q]
    {
      if q >= |a| && p < |a| {
        assert (a + b)[p] == a[p] && (a + b)[q] == b[q - |a|];
      }
    }
  }

  /** The first `prefix` stars followed by the drawn ones come from distinct positions. */
  lemma PrefixThenDrawn(stars: seq<Star>, prefix: nat, pool: seq<int>, drawn: seq<int>, selected: seq<Star>)
    requires prefix <= |stars|
    requires Distinct(drawn) && forall j :: 0 <= j < |drawn| ==> drawn[j] in pool
    requires forall j :: 0 <= j < |pool| ==> prefix < pool[j] < |stars|
    requires selected == stars[..prefix] + Pick(stars, drawn)
    ensures var positions := Upto(prefix) + drawn;
      && |selected| == |positions|
      && Distinct(positions)
      && (forall j :: 0 <= j < |positions| ==> 0 <= positions[j] < |stars| && selected[j] == stars[positions[j]])
  {
    var head := Upto(prefix);
    forall j | 0 <= j < |drawn|
      ensures prefix < drawn[j] < |stars|
    {
      var m :| 0 <= m < |pool| && pool[m] == drawn[j];
    }
    DistinctConcat(head, drawn, prefix);
    var picked := Pick(stars, drawn);
    forall j | 0 <= j < |head + drawn|
      ensures 0 <= (head + drawn)[j] < |stars| && selected[j] == stars[(head + drawn)[j]]
    {
      if j < prefix {
        assert (head + drawn)[j] == j;
        assert selected[j] == stars[j];
      } else {
        assert (head + drawn)[j] == drawn[j - prefix];
        assert selected[j] == picked[j - prefix];
      }
    }
  }

  /**
   * A normal return holds exactly `k` stars, taken from `k` distinct positions
   * of the sorted list: the first `prefix` positions in order, then the drawn
   * ones.
   */
  lemma SelectionIsDistinct(stars: seq<Star>, t: seq<bool>, k: int, result: Outcome<seq<Star>>, drawn: seq<int>)
    requires |t| == |stars| && Returns(stars, t, k, result, drawn) && result.Success?
    ensures KnnPlan(t, k).Success?
    ensures var positions := Upto(KnnPlan(t, k).value.prefix) + drawn;
      && |result.value| == |positions| == k
      && Distinct(positions)
      && (forall j :: 0 <= j < k ==> 0 <= positions[j] < |stars| && result.value[j] == stars[positions[j]])
  {
    ReturnedPlan(stars, t, k, result, drawn);
    var plan := KnnPlan(t, k).value;
    PrefixThenDrawn(stars, plan.prefix, plan.pool, drawn, result.value);
  }

  /**
   * On the tie branch every drawn position is one of the scanned ties: a
   * star other than the one at rank `k` whose distance is within epsilon of
   * that star's. Neither rank `k` nor rank `prefix`, the last one before the
   * ties, is ever returned from that branch.
   */
  lemma DrawnAreTied(stars: seq<Star>, d: seq<Root>, k: int, result: Outcome<seq<Star>>, drawn: seq<int>)
    requires |d| == |stars| && Returns(stars, Tied(d, k), k, result, drawn) && result.Success?
    ensures KnnPlan(Tied(d, k), k).Success?
    ensures forall j :: 0 <= j < |drawn| ==>
      && 0 <= k < |d|
      && 0 <= drawn[j] < |d|
      && drawn[j] != k
      && WithinEpsilon(d[drawn[j]], d[k])
    ensures drawn != [] ==>
      && KnnPlan(Tied(d, k), k).value.prefix < k
      && KnnPlan(Tied(d, k), k).value.prefix !in drawn
      && k !in drawn
  {
    var plan := KnnPlan(Tied(d, k), k).value;
    forall j | 0 <= j < |drawn|
      ensures 0 <= k < |d| && 0 <= drawn[j] < |d| && drawn[j] != k && WithinEpsilon(d[drawn[j]], d[k])
    {
      var m :| 0 <= m < |plan.pool| && plan.pool[m] == drawn[j];
      TiedAt(d, k, drawn[j]);
    }
  }

  /** Without a tie on either side of rank `k`, the result is the first `k` stars of the sorted list. */
  lemma NoTiesGivesFirstK(stars: seq<Star>, t: seq<bool>, k: int, result: Outcome<seq<Star>>, drawn: seq<int>)
    requires |t| == |stars| && Returns(stars, t, k, result, drawn)
    requires 0 <= k <= |t| && (2 <= k ==> k < |t|)
    requires !TieBelow(t, k) && !TieAbove(t, k)
    ensures result == Success(stars[..k])
  {
    assert Less(t, k) == [] && Greater(t, k) == [];
    assert KnnPlan(t, k) == Success(Plan(k, []));
    assert drawn == [] && Pick(stars, drawn) == [];
    assert stars[..k] + [] == stars[..k];
  }

  /**
   * On a sorted list, `intsLessThanK` is every position from 1 to `k - 1`
   * whose distance is within epsilon of the one at rank `k`: the scan's
   * `break` at the first untied position misses none.
   */
  lemma LessIsEveryTieBelow(d: seq<Root>, k: int)
    requires Ascending(d) && NonNegative(d) && 1 < k < |d|
    ensures forall i :: 1 <= i < k ==> (i in Less(Tied(d, k), k) <==> WithinEpsilon(d[i], d[k]))
  {
    var t := Tied(d, k);
    var less := Less(t, k);
    var m := k - 1 - |less|;
    forall i | 1 <= i < k
      ensures i in less <==> WithinEpsilon(d[i], d[k])
    {
      TiedAt(d, k, i);
      if i <= m {
        assert i !in less by {
          assert forall j :: 0 <= j < |less| ==> less[j] != i;
        }
        if i < m {
          TiedAt(d, k, m);
          UntiedBelowStaysUntied(d[i], d[m], d[k]);
        }
      } else {
        assert less[k - 1 - i] == i;
      }
    }
  }

  /**
   * On a sorted list, `intsGreaterThanK` is every position above `k` whose
   * distance is within epsilon of the one at rank `k`.
   */
  lemma GreaterIsEveryTieAbove(d: seq<Root>, k: int)
    requires Ascending(d) && NonNegative(d) && 0 <= k < |d|
    ensures forall i :: k < i < |d| ==> (i in Greater(Tied(d, k), k) <==> WithinEpsilon(d[i], d[k]))
  {
    var t := Tied(d, k);
    var greater := Greater(t, k);
    var m := k + 1 + |greater|;
    forall i | k < i < |d|
      ensures i in greater <==> WithinEpsilon(d[i], d[k])
    {
      TiedAt(d, k, i);
      if m <= i {
        assert i !in greater by {
          assert forall j :: 0 <= j < |greater| ==> greater[j] != i;
        }
        if m < i {
          TiedAt(d, k, m);
          WithinEpsilonSymmetric(d[m], d[k]);
          WithinEpsilonSymmetric(d[i], d[k]);
          UntiedAboveStaysUntied(d[k], d[m], d[i]);
        }
      } else {
        assert greater[i - k - 1] == i;
      }
    }
  }
}
