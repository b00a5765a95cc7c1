/**
 * `naive_knn`: stamp every star with its distance to the query star, sort the
 * list by that distance, look for stars tied with the one at rank `k`, and
 * return `k` stars, drawing the tied ones at random.
 *
 * The deterministic part of the procedure is the specification function
 * `KnnPlan`: from the sorted distances and `k` it yields either the exception
 * Java throws or a `Plan` (how many sorted stars are kept as they are, and
 * which positions the random draws come from). The methods follow the Java
 * loops and are proved to compute that plan; the lemmas state what the plan
 * guarantees about the result.
 */
module Knn {
  import opened Wrappers
  import opened Geometry
  import opened Catalog

  /** The Java exceptions `naive_knn` can end in. */
  datatype Exception = IndexOutOfBounds | IllegalArgument

  type Outcome<T> = Result<T, Exception>

  /**
   * The deterministic part of the selection: the result starts with the first
   * `prefix` sorted stars and continues with `k - prefix` positions drawn,
   * without replacement, from `pool`.
   */
  datatype Plan = Plan(prefix: nat, pool: seq<int>)

  predicate Distinct(s: seq<int>)
  {
    forall p, q :: 0 <= p < q < |s| ==> s[p] != s[q]
  }

  /** `s.get(i)` of a Java list: the element, or `IndexOutOfBoundsException`. */
  function Get<T>(s: seq<T>, i: int): (r: Outcome<T>)
    ensures r.Success? <==> 0 <= i < |s|
    ensures r.Success? ==> r.value == s[i]
    ensures r.Failure? ==> r.error == IndexOutOfBounds
  {
    if 0 <= i < |s| then Success(s[i]) else Failure(IndexOutOfBounds)
  }

  /**
   * `s.subList(from, to)` of a Java `ArrayList`, taken as a copy: an index
   * outside the list is `IndexOutOfBoundsException`, `from > to` is
   * `IllegalArgumentException`.
   */
  function SubList<T>(s: seq<T>, from: int, to: int): (r: Outcome<seq<T>>)
    ensures r.Success? <==> 0 <= from <= to <= |s|
    ensures r.Success? ==> r.value == s[from..to]
    ensures r.Failure? ==> r.error == (if from < 0 || |s| < to then IndexOutOfBounds else IllegalArgument)
  {
    if from < 0 || |s| < to then Failure(IndexOutOfBounds)
    else if from > to then Failure(IllegalArgument)
    else Success(s[from..to])
  }

  /** The stars of `s` at the positions `idx`, in that order. */
  function Pick(s: seq<Star>, idx: seq<int>): (r: seq<Star>)
    requires forall j :: 0 <= j < |idx| ==> 0 <= idx[j] < |s|
    ensures |r| == |idx|
    ensures forall j :: 0 <= j < |idx| ==> r[j] == s[idx[j]]
  {
    if idx == [] then [] else [s[idx[0]]] + Pick(s, idx[1..])
  }

  /**
   * The tie flags of the list: `Tied(d, k)[i]` says that the distance at
   * position `i` is within epsilon of the one at position `k` (and is false
   * throughout when there is no position `k`).
   */
  function Tied(d: seq<Root>, k: int): (t: seq<bool>)
    ensures |t| == |d|
  {
    TiedUpTo(d, k, |d|)
  }

  function TiedUpTo(d: seq<Root>, k: int, n: nat): (t: seq<bool>)
    requires n <= |d|
    ensures |t| == n
  {
    if n == 0 then [] else TiedUpTo(d, k, n - 1) + [0 <= k < |d| && WithinEpsilon(d[n - 1], d[k])]
  }

  lemma {:induction false} TiedUpToAt(d: seq<Root>, k: int, n: nat, i: int)
    requires 0 <= i < n <= |d|
    ensures TiedUpTo(d, k, n)[i] == (0 <= k < |d| && WithinEpsilon(d[i], d[k]))
  {
    if i < n - 1 {
      TiedUpToAt(d, k, n - 1, i);
    }
  }

  /** The flag at position `i` is the epsilon test between positions `i` and `k`. */
  lemma TiedAt(d: seq<Root>, k: int, i: int)
    requires 0 <= i < |d|
    ensures Tied(d, k)[i] == (0 <= k < |d| && WithinEpsilon(d[i], d[k]))
  {
    TiedUpToAt(d, k, |d|, i);
  }

  /**
   * `t` holds the tie flags of the stars: each flag is the epsilon test
   * between the distance that star carries and the one at position `k`.
   * Stated position by position, from the end, so that the methods below see
   * one flag at a time.
   */
  predicate FlagsOf(stars: seq<Star>, k: int, t: seq<bool>)
    reads stars
    requires Stamped(stars)
  {
    |t| == |stars| && FlagsUpTo(stars, k, t, |t|)
  }

  predicate FlagsUpTo(stars: seq<Star>, k: int, t: seq<bool>, n: nat)
    reads stars
    requires Stamped(stars) && n <= |t| == |stars|
  {
    n == 0 ||
    (&& FlagsUpTo(stars, k, t, n - 1)
     && t[n - 1] == (0 <= k < |stars| && WithinEpsilon(stars[n - 1].euclideanDistance.value, stars[k].euclideanDistance.value)))
  }

  lemma {:induction false} FlagsUpToAt(stars: seq<Star>, k: int, t: seq<bool>, n: nat, i: int)
    requires Stamped(stars) && n <= |t| == |stars| && FlagsUpTo(stars, k, t, n) && 0 <= i < n
    ensures t[i] == (0 <= k < |stars| && WithinEpsilon(stars[i].euclideanDistance.value, stars[k].euclideanDistance.value))
  {
    if i < n - 1 {
      FlagsUpToAt(stars, k, t, n - 1, i);
    }
  }

  /** Flag `i` of `t` is the epsilon test between stars `i` and `k`. */
  lemma FlagsAt(stars: seq<Star>, k: int, t: seq<bool>, i: int)
    requires Stamped(stars) && FlagsOf(stars, k, t) && 0 <= i < |stars|
    ensures t[i] == (0 <= k < |stars| && WithinEpsilon(stars[i].euclideanDistance.value, stars[k].euclideanDistance.value))
  {
    FlagsUpToAt(stars, k, t, |t|, i);
  }

  lemma {:induction false} TiedUpToFlags(stars: seq<Star>, k: int, n: nat)
    requires Stamped(stars) && n <= |stars|
    ensures FlagsUpTo(stars, k, Tied(Distances(stars), k), n)
  {
    if n > 0 {
      TiedUpToFlags(stars, k, n - 1);
      TiedAt(Distances(stars), k, n - 1);
    }
  }

  /** The flags `Tied` computes from the distances the stars carry are their tie flags. */
  lemma TiedAreFlags(stars: seq<Star>, k: int)
    requires Stamped(stars)
    ensures FlagsOf(stars, k, Tied(Distances(stars), k))
  {
    TiedUpToFlags(stars, k, |stars|);
  }

  /**
   * Positions `i, i - 1, ...`, down to `lowest` at most, that are flagged in
   * `t`, cut at the first one that is not.
   */
  function TiesBelow(t: seq<bool>, i: int, lowest: int): (r: seq<int>)
    requires lowest <= i ==> 0 <= lowest && i < |t|
    decreases i - lowest
    ensures |r| <= if lowest <= i then i - lowest + 1 else 0
    ensures forall j :: 0 <= j < |r| ==> r[j] == i - j && lowest <= r[j] && t[r[j]]
    ensures lowest <= i - |r| ==> !t[i - |r|]
  {
    if i < lowest then []
    else if t[i] then [i] + TiesBelow(t, i - 1, lowest)
    else []
  }

  /**
   * Positions `i, i + 1, ...`, up to the end of `t`, that are flagged, cut at
   * the first one that is not.
   */
  function TiesAbove(t: seq<bool>, i: int): (r: seq<int>)
    requires 0 <= i <= |t|
    decreases |t| - i
    ensures |r| <= |t| - i
    ensures forall j :: 0 <= j < |r| ==> r[j] == i + j && t[r[j]]
    ensures i + |r| < |t| ==> !t[i + |r|]
  {
    if i == |t| then []
    else if t[i] then [i] + TiesAbove(t, i + 1)
    else []
  }

  /** `intsLessThanK`: the run from `k - 1` down, which never looks at position 0. */
  function Less(t: seq<bool>, k: int): seq<int>
    requires 1 < k ==> k < |t|
  {
    TiesBelow(t, k - 1, 1)
  }

  /** `intsGreaterThanK`: the run from `k + 1` up to the end of the list. */
  function Greater(t: seq<bool>, k: int): seq<int>
    requires k + 1 < |t| ==> 0 <= k
  {
    if k + 1 < |t| then TiesAbove(t, k + 1) else []
  }

  /** Neither scan reads outside the list: `get(k)` and each `get(i)` are in range. */
  predicate ScansInRange(n: int, k: int)
  {
    !(1 < k && n <= k) && !(k < 0 && k + 1 < n)
  }

  /**
   * What `naive_knn` does with the tie flags `t` of the sorted list before its
   * random draws, including every exception it can throw on the way.
   */
  function KnnPlan(t: seq<bool>, k: int): (r: Outcome<Plan>)
    ensures r.Success? ==> r.value.prefix <= k && r.value.prefix <= |t|
    ensures r.Success? ==> (r.value.pool == [] <==> r.value.prefix == k)
    ensures r.Success? ==> Distinct(r.value.pool)
    ensures r.Success? ==> forall j :: 0 <= j < |r.value.pool| ==>
      && 0 <= k < |t|
      && r.value.prefix < r.value.pool[j] < |t|
      && r.value.pool[j] != k
      && t[r.value.pool[j]]
  {
    if 1 < k && |t| <= k then
      // the first scan reads get(k - 1) and get(k)
      Failure(IndexOutOfBounds)
    else if k < 0 && k + 1 < |t| then
      // the second scan reads get(k + 1) and get(k)
      Failure(IndexOutOfBounds)
    else
      var less, greater := Less(t, k), Greater(t, k);
      if less == [] && greater == [] then
        match SubList(t, 0, k)
        case Failure(e) => Failure(e)
        case Success(_) => Success(Plan(k, []))
      else if k - 1 - |less| < 0 then
        // subList(0, -1)
        Failure(IllegalArgument)
      else
        Success(Plan(k - 1 - |less|, less + greater))
  }

  /** `drawn` lists `count` distinct positions, each taken from `pool`. */
  predicate IsDraw(drawn: seq<int>, pool: seq<int>, count: int)
  {
    && |drawn| == count
    && Distinct(drawn)
    && forall j :: 0 <= j < |drawn| ==> drawn[j] in pool
  }

  /**
   * `result` is what `naive_knn` returns for the sorted list `stars`, whose
   * tie flags are `t`, when its random draws pick the positions `drawn`.
   */
  predicate Returns(stars: seq<Star>, t: seq<bool>, k: int, result: Outcome<seq<Star>>, drawn: seq<int>)
    requires |t| == |stars|
  {
    match KnnPlan(t, k)
    case Failure(e) => result == Failure(e)
    case Success(plan) =>
      if |plan.pool| < k - plan.prefix then
        // rand.nextInt(0) once the pool is used up
        result == Failure(IllegalArgument)
      else
        && result.Success?
        && IsDraw(drawn, plan.pool, k - plan.prefix)
        && result.value == stars[..plan.prefix] + Pick(stars, drawn)
  }

  /** The first loop of `naive_knn`: every star gets its distance to `mainStar`. */
  method StampDistances(stars: seq<Star>, mainStar: Star)
    modifies set s | s in stars
    ensures Stamped(stars)
    ensures forall i :: 0 <= i < |stars| ==> stars[i].euclideanDistance == Some(DistanceBetween(mainStar, stars[i]))
  {
    for i := 0 to |stars|
      invariant forall j :: 0 <= j < i ==> stars[j].euclideanDistance == Some(DistanceBetween(mainStar, stars[j]))
    {
      var dis := EuclideanDistance(mainStar.x, mainStar.y, mainStar.z, stars[i].x, stars[i].y, stars[i].z);
      stars[i].SetEuclideanDistance(dis);
    }
  }

  /**
   * The test both scans make: `get(i)` and `get(k)`, each of which throws when
   * out of range, then whether their distances are within epsilon.
   */
  method TiedWithRank(stars: seq<Star>, i: int, k: int, ghost t: seq<bool>) returns (result: Outcome<bool>)
    requires Stamped(stars) && FlagsOf(stars, k, t)
    ensures result.Success? <==> 0 <= i < |stars| && 0 <= k < |stars|
    ensures result.Failure? ==> result.error == IndexOutOfBounds
    ensures result.Success? ==> result.value == t[i]
  {
    var si :- Get(stars, i);
    var sk :- Get(stars, k);
    FlagsAt(stars, k, t, i);
    return Success(WithinEpsilon(si.euclideanDistance.value, sk.euclideanDistance.value));
  }

  /** A run with the shape `TiesBelow` describes is the one it computes. */
  lemma {:induction false} BelowRunUnique(t: seq<bool>, i: int, lowest: int, r: seq<int>)
    requires lowest <= i ==> 0 <= lowest && i < |t|
    requires forall j :: 0 <= j < |r| ==> r[j] == i - j && lowest <= r[j] && t[r[j]]
    requires lowest <= i - |r| ==> !t[i - |r|]
    ensures r == TiesBelow(t, i, lowest)
    decreases |r|
  {
    if r != [] {
      assert r[0] == i && lowest <= i && t[i];
      BelowRunUnique(t, i - 1, lowest, r[1..]);
      assert r == [i] + r[1..];
    }
  }

  /** A run with the shape `TiesAbove` describes is the one it computes. */
  lemma {:induction false} AboveRunUnique(t: seq<bool>, i: int, r: seq<int>)
    requires 0 <= i <= |t|
    requires forall j :: 0 <= j < |r| ==> r[j] == i + j && r[j] < |t| && t[r[j]]
    requires i + |r| < |t| ==> !t[i + |r|]
    ensures r == TiesAbove(t, i)
    decreases |r|
  {
    if r != [] {
      assert r[0] == i && i < |t| && t[i];
      AboveRunUnique(t, i + 1, r[1..]);
      assert r == [i] + r[1..];
    }
  }

  /** The loop that fills `intsLessThanK`; `t` are the tie flags of `stars`. */
  method ScanTiesBelow(stars: seq<Star>, k: int, ghost t: seq<bool>) returns (result: Outcome<seq<int>>)
    requires Stamped(stars) && FlagsOf(stars, k, t)
    ensures 1 < k && |stars| <= k ==> result == Failure(IndexOutOfBounds)
    ensures !(1 < k && |stars| <= k) ==> result == Success(Less(t, k))
  {
    var intsLessThanK: seq<int> := [];
    var i := k - 1;
    while i > 0
      invariant i == k - 1 - |intsLessThanK|
      invariant 1 < k && |stars| <= k ==> intsLessThanK == []
      invariant forall j :: 0 <= j < |intsLessThanK| ==>
        intsLessThanK[j] == k - 1 - j && 1 <= intsLessThanK[j] < |t| && t[intsLessThanK[j]]
    {
      var tied :- TiedWithRank(stars, i, k, t);
      if tied {
        intsLessThanK := intsLessThanK + [i];
      } else {
        break;
      }
      i := i - 1;
    }
    BelowRunUnique(t, k - 1, 1, intsLessThanK);
    return Success(intsLessThanK);
  }

  /** The loop that fills `intsGreaterThanK`; `t` are the tie flags of `stars`. */
  method ScanTiesAbove(stars: seq<Star>, k: int, ghost t: seq<bool>) returns (result: Outcome<seq<int>>)
    requires Stamped(stars) && FlagsOf(stars, k, t)
    ensures k < 0 && k + 1 < |stars| ==> result == Failure(IndexOutOfBounds)
    ensures !(k < 0 && k + 1 < |stars|) ==> result == Success(Greater(t, k))
  {
    var intsGreaterThanK: seq<int> := [];
    var i := k + 1;
    while i < |stars|
      invariant i == k + 1 + |intsGreaterThanK|
      invariant (k < 0 || |stars| <= k + 1) ==> intsGreaterThanK == []
      invariant forall j :: 0 <= j < |intsGreaterThanK| ==>
        intsGreaterThanK[j] == k + 1 + j && intsGreaterThanK[j] < |t| && t[intsGreaterThanK[j]]
      decreases |stars| - i
    {
      var tied :- TiedWithRank(stars, i, k, t);
      if tied {
        intsGreaterThanK := intsGreaterThanK + [i];
      } else {
        break;
      }
      i := i + 1;
    }
    if k + 1 < |stars| {
      AboveRunUnique(t, k + 1, intsGreaterThanK);
    }
    return Success(intsGreaterThanK);
  }

  /**
   * The closing `while` loop: appends stars drawn at random, without
   * replacement, from the positions in `pool` until the list holds `k`
   * stars. Each `rand.nextInt(bound)` is an arbitrary choice in
   * `[0, bound)`; with nothing left to draw it throws.
   */
  method DrawTies(stars: seq<Star>, firstPart: seq<Star>, pool: seq<int>, k: int)
    returns (result: Outcome<seq<Star>>, ghost drawn: seq<int>)
    requires |firstPart| <= k
    requires Distinct(pool)
    requires forall x :: x in pool ==> 0 <= x < |stars|
    ensures result.Success? <==> k - |firstPart| <= |pool|
    ensures result.Failure? ==> result.error == IllegalArgument
    ensures result.Success? ==> IsDraw(drawn, pool, k - |firstPart|)
    ensures result.Success? ==> result.value == firstPart + Pick(stars, drawn)
  {
    var list := firstPart;
    var starsToRandomlyChooseFrom := pool;
    drawn := [];
    while |list| < k
      invariant |list| == |firstPart| + |drawn| <= k
      invariant forall j :: 0 <= j < |drawn| ==> 0 <= drawn[j] < |stars|
      invariant list == firstPart + Pick(stars, drawn)
      invariant |starsToRandomlyChooseFrom| + |drawn| == |pool|
      invariant Distinct(starsToRandomlyChooseFrom) && Distinct(drawn)
      invariant forall x :: x in starsToRandomlyChooseFrom ==> x in pool && x !in drawn
      invariant forall j :: 0 <= j < |drawn| ==> drawn[j] in pool
      decreases k - |list|
    {
      if |starsToRandomlyChooseFrom| == 0 {
        return Failure(IllegalArgument), drawn;
      }
      var randomIndex :| 0 <= randomIndex < |starsToRandomlyChooseFrom|;
      var index1 := starsToRandomlyChooseFrom[randomIndex];
      assert index1 in pool;
      list := list + [stars[index1]];
      drawn := drawn + [index1];
      starsToRandomlyChooseFrom := RemoveAt(starsToRandomlyChooseFrom, randomIndex);
    }
    return Success(list), drawn;
  }

  /** `list.remove(int index)`. */
  function RemoveAt(s: seq<int>, i: nat): (r: seq<int>)
    requires i < |s| && Distinct(s)
    ensures |r| == |s| - 1 && Distinct(r)
    ensures forall x :: x in r <==> x in s && x != s[i]
  {
    s[..i] + s[i + 1..]
  }

  /** The paths of `naive_knn` that end before any draw. */
  lemma EarlyExits(stars: seq<Star>, t: seq<bool>, k: int)
    requires |t| == |stars|
    ensures 1 < k && |t| <= k ==> Returns(stars, t, k, Failure(IndexOutOfBounds), [])
    ensures !(1 < k && |t| <= k) && k < 0 && k + 1 < |t| ==> Returns(stars, t, k, Failure(IndexOutOfBounds), [])
    ensures ScansInRange(|t|, k) && Less(t, k) == [] && Greater(t, k) == [] ==>
      Returns(stars, t, k, SubList(stars, 0, k), [])
    ensures ScansInRange(|t|, k) && !(Less(t, k) == [] && Greater(t, k) == []) && k - 1 - |Less(t, k)| < 0 ==>
      Returns(stars, t, k, Failure(IllegalArgument), [])
  {
    if ScansInRange(|t|, k) && Less(t, k) == [] && Greater(t, k) == [] && 0 <= k <= |t| {
      assert Pick(stars, []) == [];
      assert stars[..k] == stars[0..k];
    }
  }

  /** The path that draws: the untied prefix, then whatever `DrawTies` returns. */
  lemma DrawReturns(stars: seq<Star>, t: seq<bool>, k: int, firstPart: seq<Star>, result: Outcome<seq<Star>>, drawn: seq<int>)
    requires |t| == |stars| && ScansInRange(|t|, k)
    requires !(Less(t, k) == [] && Greater(t, k) == []) && 0 <= k - 1 - |Less(t, k)| <= |stars|
    requires firstPart == stars[..k - 1 - |Less(t, k)|]
    requires var pool := Less(t, k) + Greater(t, k);
      && (result.Success? <==> k - |firstPart| <= |pool|)
      && (result.Failure? ==> result.error == IllegalArgument)
      && (result.Success? ==> IsDraw(drawn, pool, k - |firstPart|))
      && (result.Success? ==> result.value == firstPart + Pick(stars, drawn))
    ensures Returns(stars, t, k, result, drawn)
  {
    assert KnnPlan(t, k) == Success(Plan(k - 1 - |Less(t, k)|, Less(t, k) + Greater(t, k)));
  }

  /**
   * `naive_knn` after the sort, for the tie flags `t` of the sorted list: the
   * two tie scans, then either the first `k` stars or the untied prefix
   * followed by the random draws. It reads the stars and changes nothing.
   */
  method SelectNeighbours(stars: seq<Star>, k: int, ghost t: seq<bool>) returns (result: Outcome<seq<Star>>, ghost drawn: seq<int>)
    requires Stamped(stars) && FlagsOf(stars, k, t)
    ensures Returns(stars, t, k, result, drawn)
  {
    EarlyExits(stars, t, k);
    drawn := [];
    var intsLessThanK :- ScanTiesBelow(stars, k, t);
    var intsGreaterThanK :- ScanTiesAbove(stars, k, t);
    if |intsLessThanK| == 0 && |intsGreaterThanK| == 0 {
      return SubList(stars, 0, k), drawn;
    }
    var firstPartOfList :- SubList(stars, 0, (k - 1) - |intsLessThanK|);
    var starsToRandomlyChooseFrom := intsLessThanK + intsGreaterThanK;
    assert KnnPlan(t, k).Success?;
    result, drawn := DrawTies(stars, firstPartOfList, starsToRandomlyChooseFrom, k);
    DrawReturns(stars, t, k, firstPartOfList, result, drawn);
  }

  /** A reordering of stars stamped with their distances to `mainStar` carries non-negative distances. */
  lemma MeasuredFrom(mainStar: Star, original: seq<Star>, stars: seq<Star>)
    requires multiset(stars) == multiset(original)
    requires forall i :: 0 <= i < |original| ==> original[i].euclideanDistance == Some(DistanceBetween(mainStar, original[i]))
    ensures Stamped(stars) && NonNegative(Distances(stars))
  {
    forall i | 0 <= i < |stars|
      ensures stars[i].euclideanDistance == Some(DistanceBetween(mainStar, stars[i]))
    {
      assert stars[i] in multiset(original);
    }
  }

  /**
   * `naive_knn(starList, mainStar, k)`. The list is left stamped and sorted,
   * and the result is what `Returns` allows, for the tie flags of the sorted
   * distances and some draw `drawn`.
   *
   * The Java result of the tie branch is a `subList` view: each `add` also
   * inserts into `starList`, shifting the positions later draws read. Here
   * the result is a fresh sequence and the draws read the sorted list as it
   * was after the sort.
   */
  method NaiveKnn(starList: StarList, mainStar: Star, k: int) returns (result: Outcome<seq<Star>>, ghost drawn: seq<int>)
    modifies starList, set s | s in starList.items
    ensures multiset(starList.items) == multiset(old(starList.items))
    ensures forall s :: s in old(starList.items) ==> s.euclideanDistance == Some(DistanceBetween(mainStar, s))
    ensures Stamped(starList.items) && Ascending(Distances(starList.items)) && NonNegative(Distances(starList.items))
    ensures Returns(starList.items, Tied(Distances(starList.items), k), k, result, drawn)
  {
    ghost var original := starList.items;
    StampDistances(starList.items, mainStar);
    starList.SortByDistance();
    MeasuredFrom(mainStar, original, starList.items);
    TiedAreFlags(starList.items, k);
    result, drawn := SelectNeighbours(starList.items, k, Tied(Distances(starList.items), k));
  }
}
