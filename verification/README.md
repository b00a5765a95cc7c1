# Exact k-nearest-neighbour search over a star catalog

This project models the nearest-neighbour search of the star-catalog
onboarding application (`Main.java`). The application holds a list of stars.
Each star has an id, a name and 3D coordinates. It answers "the `k` stars
nearest to a given star" in four steps:

1. It stamps every star with its Euclidean distance to the query star.
2. It sorts the list in place by that distance.
3. It scans outward from rank `k` for stars whose distance is within
   `epsilon = 1e-5` of the `k`-th one: downward from `k - 1` and stopping
   before rank 0, then upward from `k + 1`.
4. It returns either the first `k` stars, or a fixed prefix padded with tied
   stars drawn at random without replacement.

The model also covers the by-name lookup, which removes its match from the
list.

Modules:

- `Wrappers`: `Option` and `Result`.
- `Geometry`: the distance formula. A distance is kept exactly as `Sqrt(v)`,
  which stands for the square root of its radicand `v`. Order and the epsilon
  tie test are decided on radicands, and lemmas prove that both agree with the
  same comparisons on the real roots.
- `Catalog`:
  - the `Star` class, whose `euclideanDistance` field is updated in place;
  - the `StarList` class, which holds the Java `List<Star>`;
  - the in-place sort;
  - `FindStarByName`.
- `Knn`: `naive_knn` as methods with loops.
  - `KnnPlan` is the deterministic part of the procedure as a function of the
    tie flags of the sorted list. It gives either the exception Java throws or
    a `Plan`: how many sorted stars are kept, and which positions the draws
    come from.
  - `Returns` relates a final outcome to that plan.
  - `NaiveKnn` is proved to end in an outcome `Returns` allows.
- `KnnProperties`: what every outcome guarantees.
  - When the procedure throws, and which exception.
  - The result as modelled, a fresh sequence (see "## Left out"), has exactly
    `k` stars, from distinct positions.
  - Drawn stars of the result as modelled are tied with rank `k`.
  - Without ties, the result is the first `k` stars.
  - On a sorted list, the two scans find every tied star.
- `Intended`: the corrected selection, and concrete lists on which the code
  as written departs from it (see "## Findings").

The Javadoc of `naive_knn` (Main.java:159) promises the `k` stars closest to
the query star, and the comment at Main.java:172-174 says that ties are drawn
so that a total of `k` neighbours is chosen. Read that way, the evident intent
is:

- `k == 0` returns the empty list;
- `k` equal to the list size returns the whole list;
- the tie scan goes down to rank 0;
- the prefix is `k - |ties below|`;
- the draws come from the ties together with rank `k`.

The code departs from each of these on some lists (see "## Findings"). `Intended.IntendedPlan` is this reading of the intent; the model of
`naive_knn` itself follows the code.

## Model

Every path in the source column is
`onboarding-fouw4ytpien6np1-stencil/src/main/java/edu/brown/cs/student/main/Main.java`.

| member | source | states |
|---|---|---|
| Geometry.EuclideanDistance | onboarding-fouw4ytpien6np1-stencil/src/main/java/edu/brown/cs/student/main/Main.java:217-219 | the squared distance is non-negative, and zero exactly when the two points coincide |
| Geometry.DistanceSymmetric | onboarding-fouw4ytpien6np1-stencil/src/main/java/edu/brown/cs/student/main/Main.java:217-219 | the distance is the same whichever point is measured from |
| Geometry.DistanceDenotesLength | onboarding-fouw4ytpien6np1-stencil/src/main/java/edu/brown/cs/student/main/Main.java:218 | any real square root of the formula is non-negative, and zero exactly at coinciding points |
| Geometry.AtMostMeansRootsOrdered | onboarding-fouw4ytpien6np1-stencil/src/main/java/edu/brown/cs/student/main/Main.java:170 | comparing radicands orders distances exactly as comparing the real roots does (the order `Comparator.comparing` uses) |
| Geometry.WithinEpsilonMeansRootsClose | onboarding-fouw4ytpien6np1-stencil/src/main/java/edu/brown/cs/student/main/Main.java:178-180 | the radicand tie test holds exactly when the real roots differ by less than `epsilon` |
| Geometry.WithinEpsilonSymmetric | onboarding-fouw4ytpien6np1-stencil/src/main/java/edu/brown/cs/student/main/Main.java:188 | the tie test does not depend on the order of the two distances |
| Geometry.UntiedBelowStaysUntied | onboarding-fouw4ytpien6np1-stencil/src/main/java/edu/brown/cs/student/main/Main.java:179-185 | in a chain a <= b <= c, if b is not tied with c then a is not either, so breaking at the first untied rank below loses nothing |
| Geometry.UntiedAboveStaysUntied | onboarding-fouw4ytpien6np1-stencil/src/main/java/edu/brown/cs/student/main/Main.java:187-193 | in a chain a <= b <= c, if b is not tied with a then c is not either, so breaking at the first untied rank above loses nothing |
| Catalog.Star.constructor | onboarding-fouw4ytpien6np1-stencil/src/main/java/edu/brown/cs/student/main/Main.java:272-278 | the id, name and coordinates are the arguments, and the distance starts out absent (`null`) |
| Catalog.Star.SetEuclideanDistance | onboarding-fouw4ytpien6np1-stencil/src/main/java/edu/brown/cs/student/main/Main.java:280-282 | the star now carries the given distance, and nothing else of it changes |
| Catalog.IndexOfName | onboarding-fouw4ytpien6np1-stencil/src/main/java/edu/brown/cs/student/main/Main.java:149-150 | the position of the first star with the name, or none when no star has it |
| Catalog.FindStarByName | onboarding-fouw4ytpien6np1-stencil/src/main/java/edu/brown/cs/student/main/Main.java:148-156 | returns the first star with the name and removes exactly that entry, keeping the others in order; with no match, returns `null` and leaves the list unchanged |
| Catalog.StarList.SortByDistance | onboarding-fouw4ytpien6np1-stencil/src/main/java/edu/brown/cs/student/main/Main.java:170 | the list becomes a permutation of its former contents, in non-decreasing distance |
| Catalog.InsertAt | onboarding-fouw4ytpien6np1-stencil/src/main/java/edu/brown/cs/student/main/Main.java:170 | one insertion step extends the sorted prefix by one and keeps the same stars |
| Knn.Get | onboarding-fouw4ytpien6np1-stencil/src/main/java/edu/brown/cs/student/main/Main.java:180 | `get(i)` gives element `i`, or throws `IndexOutOfBoundsException` exactly when `i` is outside the list |
| Knn.SubList | onboarding-fouw4ytpien6np1-stencil/src/main/java/edu/brown/cs/student/main/Main.java:197-199 | `subList(from, to)` is that slice; a bound outside the list is `IndexOutOfBoundsException`, and `from > to` is `IllegalArgumentException` |
| Knn.TiedAt | onboarding-fouw4ytpien6np1-stencil/src/main/java/edu/brown/cs/student/main/Main.java:180 | the tie flag of rank `i` is the epsilon test between ranks `i` and `k` |
| Knn.TiesBelow | onboarding-fouw4ytpien6np1-stencil/src/main/java/edu/brown/cs/student/main/Main.java:179-185 | the run `i, i-1, ...` of flagged ranks down to the bound, cut at the first unflagged rank |
| Knn.TiesAbove | onboarding-fouw4ytpien6np1-stencil/src/main/java/edu/brown/cs/student/main/Main.java:187-193 | the run `i, i+1, ...` of flagged ranks up to the end, cut at the first unflagged rank |
| Knn.KnnPlan | onboarding-fouw4ytpien6np1-stencil/src/main/java/edu/brown/cs/student/main/Main.java:177-209 | the prefix is at most `k`; the pool is empty exactly when the prefix is `k`; the pool has distinct, tied ranks above the prefix and never rank `k` |
| Knn.StampDistances | onboarding-fouw4ytpien6np1-stencil/src/main/java/edu/brown/cs/student/main/Main.java:164-167 | every star now carries its distance to the query star |
| Knn.TiedWithRank | onboarding-fouw4ytpien6np1-stencil/src/main/java/edu/brown/cs/student/main/Main.java:180 | the two `get` calls throw `IndexOutOfBoundsException` exactly when a rank is out of range; otherwise the result is the tie flag |
| Knn.FlagsAt | onboarding-fouw4ytpien6np1-stencil/src/main/java/edu/brown/cs/student/main/Main.java:188 | flag `i` is the epsilon test between the distances stars `i` and `k` carry |
| Knn.TiedAreFlags | onboarding-fouw4ytpien6np1-stencil/src/main/java/edu/brown/cs/student/main/Main.java:178-193 | the flags computed from the list of distances are the flags of the stamped stars |
| Knn.BelowRunUnique | onboarding-fouw4ytpien6np1-stencil/src/main/java/edu/brown/cs/student/main/Main.java:179-185 | any run with the shape the downward loop builds is the `TiesBelow` run |
| Knn.AboveRunUnique | onboarding-fouw4ytpien6np1-stencil/src/main/java/edu/brown/cs/student/main/Main.java:187-193 | any run with the shape the upward loop builds is the `TiesAbove` run |
| Knn.ScanTiesBelow | onboarding-fouw4ytpien6np1-stencil/src/main/java/edu/brown/cs/student/main/Main.java:177-185 | throws `IndexOutOfBoundsException` exactly when `1 < k` and `k >= size`; otherwise `intsLessThanK` is the tie run from `k - 1` down to rank 1 |
| Knn.ScanTiesAbove | onboarding-fouw4ytpien6np1-stencil/src/main/java/edu/brown/cs/student/main/Main.java:186-193 | throws `IndexOutOfBoundsException` exactly when `k < 0` and `k + 1 < size`; otherwise `intsGreaterThanK` is the tie run from `k + 1` up to the end |
| Knn.DrawTies | onboarding-fouw4ytpien6np1-stencil/src/main/java/edu/brown/cs/student/main/Main.java:203-208 | succeeds exactly when the pool covers the missing places, failing otherwise with the `IllegalArgumentException` of `nextInt(0)`; on success, appends that many distinct pool ranks |
| Knn.RemoveAt | onboarding-fouw4ytpien6np1-stencil/src/main/java/edu/brown/cs/student/main/Main.java:207 | removing the drawn slot removes exactly that rank and keeps the pool free of repeats |
| Knn.EarlyExits | onboarding-fouw4ytpien6np1-stencil/src/main/java/edu/brown/cs/student/main/Main.java:196-199 | the paths that end before any draw end as `Returns` demands |
| Knn.DrawReturns | onboarding-fouw4ytpien6np1-stencil/src/main/java/edu/brown/cs/student/main/Main.java:199-209 | the prefix followed by the draws is what `Returns` demands |
| Knn.SelectNeighbours | onboarding-fouw4ytpien6np1-stencil/src/main/java/edu/brown/cs/student/main/Main.java:177-210 | the result after the sort is what `Returns` allows for the tie flags of the list |
| Knn.MeasuredFrom | onboarding-fouw4ytpien6np1-stencil/src/main/java/edu/brown/cs/student/main/Main.java:164-170 | after stamping and reordering, every star still carries a distance, and every distance is non-negative |
| Knn.NaiveKnn | onboarding-fouw4ytpien6np1-stencil/src/main/java/edu/brown/cs/student/main/Main.java:162-211 | the stars carry their distances to the query star; the list is a sorted permutation of itself; the result is what `Returns` allows |
| KnnProperties.OutcomeCases | onboarding-fouw4ytpien6np1-stencil/src/main/java/edu/brown/cs/student/main/Main.java:177-209 | exactly when the search returns normally, and exactly when it throws `IndexOutOfBoundsException` instead of `IllegalArgumentException` |
| KnnProperties.ReturnedPlan | onboarding-fouw4ytpien6np1-stencil/src/main/java/edu/brown/cs/student/main/Main.java:196-209 | helper of `KnnProperties.SelectionIsDistinct`: unfolds the success branch of `Returns`, so a normal return is the plan's prefix followed by a draw of the missing count from the pool |
| KnnProperties.DistinctConcat | onboarding-fouw4ytpien6np1-stencil/src/main/java/edu/brown/cs/student/main/Main.java:199-206 | the prefix ranks and the drawn ranks, which lie above the prefix, never repeat one another |
| KnnProperties.PrefixThenDrawn | onboarding-fouw4ytpien6np1-stencil/src/main/java/edu/brown/cs/student/main/Main.java:199-206 | the prefix followed by the draws are the stars at distinct ranks |
| KnnProperties.SelectionIsDistinct | onboarding-fouw4ytpien6np1-stencil/src/main/java/edu/brown/cs/student/main/Main.java:196-209 | a normal return has exactly `k` stars, the stars at `k` distinct ranks: the first ranks in order, then the drawn ones |
| KnnProperties.DrawnAreTied | onboarding-fouw4ytpien6np1-stencil/src/main/java/edu/brown/cs/student/main/Main.java:199-207 | every drawn star is within epsilon of rank `k` and is not rank `k`; neither rank `k` nor the rank right after the prefix is ever drawn |
| KnnProperties.NoTiesGivesFirstK | onboarding-fouw4ytpien6np1-stencil/src/main/java/edu/brown/cs/student/main/Main.java:196-197 | without a tie next to rank `k`, the result is the first `k` stars of the sorted list |
| KnnProperties.LessIsEveryTieBelow | onboarding-fouw4ytpien6np1-stencil/src/main/java/edu/brown/cs/student/main/Main.java:179-185 | on a sorted list, `intsLessThanK` holds exactly the ranks 1..k-1 tied with rank `k` |
| KnnProperties.GreaterIsEveryTieAbove | onboarding-fouw4ytpien6np1-stencil/src/main/java/edu/brown/cs/student/main/Main.java:187-193 | on a sorted list, `intsGreaterThanK` holds exactly the ranks above `k` tied with rank `k` |
| Intended.IntendedPlan | onboarding-fouw4ytpien6np1-stencil/src/main/java/edu/brown/cs/student/main/Main.java:196-209 | the corrected plan succeeds exactly for `0 <= k <= size`; its pool is distinct, starts at the prefix, and always covers the draws |
| Intended.WithinEpsilonReflexive | onboarding-fouw4ytpien6np1-stencil/src/main/java/edu/brown/cs/student/main/Main.java:180 | a distance is tied with itself |
| Intended.IntendedPool | onboarding-fouw4ytpien6np1-stencil/src/main/java/edu/brown/cs/student/main/Main.java:199-202 | the corrected pool is exactly the block of ranks from the prefix on, all tied with rank `k` |
| Intended.BlockDrawIsNearest | onboarding-fouw4ytpien6np1-stencil/src/main/java/edu/brown/cs/student/main/Main.java:199-208 | a sorted prefix plus draws from the tied block leaves out no star nearer than a chosen one, except among stars tied with rank `k` |
| Intended.IntendedSelectsNearest | onboarding-fouw4ytpien6np1-stencil/src/main/java/edu/brown/cs/student/main/Main.java:162 | the corrected search returns `k` distinct stars, and none of them is farther than a star left out unless both are tied with rank `k` |
| Intended.AsWrittenDropsNearest | onboarding-fouw4ytpien6np1-stencil/src/main/java/edu/brown/cs/student/main/Main.java:199 | on distances 1, 2, 2 with `k == 1`, the code returns only rank 2 and drops the untied nearest star; the corrected plan keeps it |
| Intended.AsWrittenFullListThrows | onboarding-fouw4ytpien6np1-stencil/src/main/java/edu/brown/cs/student/main/Main.java:180 | `k` equal to a size of 2 throws `IndexOutOfBoundsException`; the corrected plan returns the whole list |
| Intended.AsWrittenRunsOutOfDraws | onboarding-fouw4ytpien6np1-stencil/src/main/java/edu/brown/cs/student/main/Main.java:203-204 | on distances 1, 2, 2, 3 with `k == 2`, the pool is too small and `nextInt(0)` throws; the corrected plan draws one star out of two |
| Intended.AsWrittenZeroThrowsOnTie | onboarding-fouw4ytpien6np1-stencil/src/main/java/edu/brown/cs/student/main/Main.java:199 | `k == 0` with a tie at rank 1 throws `IllegalArgumentException` from `subList(0, -1)`; the corrected plan returns nothing |

## Left out

- The REPL (`run`), its tokenising and printing, and the `MathBot` commands: these are I/O. `MathBot` is not part of this model.
- `parseFile` and `createStar` are left out. They are file I/O and library parsing of doubles.
- The Spark/FreeMarker web server, `ExceptionPrinter` and option parsing are left out. They are framework plumbing.
- IEEE-754 arithmetic is not modelled.
  - Distances are exact reals, kept as radicands.
  - The tie test is exact on the real roots, where Java compares rounded doubles.
  - NaN and infinities do not arise.
- `java.util.Random` is replaced by a nondeterministic choice of index. The ghost `drawn` records which ranks were drawn. Nothing is said about the distribution.
- NaiveKnn: builds the tie-branch result as a fresh sequence. In Java, `firstPartOfList` is a `subList` view of `starList`, so:
  - each `add` also inserts into `starList`;
  - later `get(index1)` calls read ranks shifted by the earlier draws;
  - `starList` grows by the number of draws.

  The model draws from the list as sorted, and states that the list afterwards is the sorted permutation.
- KnnProperties.SelectionIsDistinct: holds of the modelled fresh result only. In Java the `add` at line 206 also inserts into `starList` through the view. Take `k = 3` and sorted distances 1, 2, 2, 2, 2, so `intsLessThanK = [2, 1]`, `intsGreaterThanK = [4]` and the prefix is empty. Drawing rank 1 and then rank 2 returns the star at rank 1 twice.
- KnnProperties.DrawnAreTied: holds of the modelled result only. In the same example, drawing rank 2 first shifts the list by one, so a later `get(1)` returns the star at rank 0, at distance 1, which is not tied with rank `k`.
- SortByDistance: promises a non-decreasing permutation but not the stability of Java's `List.sort`. Among equal distances the model allows any order, and the final ensures of `NaiveKnn` holds for whatever order results.
- `k` is an unbounded integer, so the 32-bit wrap-around of `k - 1` and `k + 1` at the extremes of `int` is not modelled.
- `null` arguments are not modelled: a `null` list, query star or star name field would throw `NullPointerException` in Java.
- Star coordinates, name and id are constants. Java never reassigns them.

## Findings

| source | as written | input that shows it | evidently intended | confidence | as-written member | corrected member |
|---|---|---|---|---|---|---|
| onboarding-fouw4ytpien6np1-stencil/src/main/java/edu/brown/cs/student/main/Main.java:199 | the prefix `subList(0, (k - 1) - intsLessThanK.size())` stops one rank before the tied block, and that rank is never drawn | distances 1, 2, 2 and `k = 1`: the result is the star at distance 2, and the star at distance 1, tied with nobody, is dropped | keep every star before the tied block (prefix `k - |ties below|`) | high; not executed | Intended.AsWrittenDropsNearest | Intended.IntendedSelectsNearest |
| onboarding-fouw4ytpien6np1-stencil/src/main/java/edu/brown/cs/student/main/Main.java:203-204 | the draws need `|intsLessThanK| + 1` ranks from a pool without rank `k` | distances 1, 2, 2, 3 and `k = 2`: one rank in the pool, two draws, so `nextInt(0)` throws `IllegalArgumentException` | draw from the tied block with rank `k` in it, which always covers the draws | high; not executed | Intended.AsWrittenRunsOutOfDraws | Intended.IntendedPlan |
| onboarding-fouw4ytpien6np1-stencil/src/main/java/edu/brown/cs/student/main/Main.java:180 | `get(k)` is read even when `k` equals the list size | distances 1, 2 and `k = 2`: `IndexOutOfBoundsException` | return the whole list | medium; not executed | Intended.AsWrittenFullListThrows | Intended.IntendedPlan |
| onboarding-fouw4ytpien6np1-stencil/src/main/java/edu/brown/cs/student/main/Main.java:199 | with `k = 0`, a tie at rank 1 leads to `subList(0, -1)` | distances 1, 1 and `k = 0`: `IllegalArgumentException` | return the empty list | medium; not executed | Intended.AsWrittenZeroThrowsOnTie | Intended.IntendedPlan |
