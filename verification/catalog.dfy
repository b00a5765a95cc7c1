/**
 * The catalog side of the search: the `Star` record, the list of stars the
 * REPL keeps (a Java `List<Star>`, modelled as an object holding a sequence),
 * the by-name lookup that removes its match from that list, and the in-place
 * sort by the distance each star carries.
 */
module Catalog {
  import opened Wrappers
  import opened Geometry

  /**
   * A star of the catalog. Its id, name and coordinates are never reassigned
   * after construction; `euclideanDistance` is the transient field every
   * search overwrites, `None` standing for Java's initial `null`.
   */
  class Star {
    const starID: string
    const name: string
    const x: real
    const y: real
    const z: real
    var euclideanDistance: Option<Root>

    constructor (starID: string, name: string, x: real, y: real, z: real)
      ensures this.starID == starID && this.name == name
      ensures this.x == x && this.y == y && this.z == z
      ensures euclideanDistance == None
    {
      this.starID := starID;
      this.name := name;
      this.x := x;
      this.y := y;
      this.z := z;
      euclideanDistance := None;
    }

    method SetEuclideanDistance(dis: Root)
      modifies this`euclideanDistance
      ensures euclideanDistance == Some(dis)
    {
      euclideanDistance := Some(dis);
    }
  }

  /** The distance `naive_knn` computes from the query star `from` to `to`. */
  function DistanceBetween(from: Star, to: Star): Root
  {
    EuclideanDistance(from.x, from.y, from.z, to.x, to.y, to.z)
  }

  /** Every star of `s` carries a distance, so its `euclideanDistance` can be unboxed. */
  predicate Stamped(s: seq<Star>)
    reads s
  {
    forall i :: 0 <= i < |s| ==> s[i].euclideanDistance.Some?
  }

  /** The distances the stars of `s` carry, in list order. */
  function Distances(s: seq<Star>): (d: seq<Root>)
    reads s
    requires Stamped(s)
    ensures |d| == |s|
    ensures forall i :: 0 <= i < |s| ==> d[i] == s[i].euclideanDistance.value
  {
    if s == [] then [] else [s[0].euclideanDistance.value] + Distances(s[1..])
  }

  /** `d` is in non-decreasing order. */
  predicate Ascending(d: seq<Root>)
  {
    forall i, j :: 0 <= i < j < |d| ==> AtMost(d[i], d[j])
  }

  /** Every distance of `d` is the root of a non-negative radicand, as every Euclidean distance is. */
  predicate NonNegative(d: seq<Root>)
  {
    forall i :: 0 <= i < |d| ==> d[i].radicand >= 0.0
  }

  /** The sort key `Comparator.comparing(star -> star.euclideanDistance)` reads. */
  function Key(s: Star): real
    reads s
    requires s.euclideanDistance.Some?
  {
    s.euclideanDistance.value.radicand
  }

  /** The mutable list of stars the REPL loads and the search reorders. */
  class StarList {
    var items: seq<Star>

    constructor (stars: seq<Star>)
      ensures items == stars
    {
      items := stars;
    }

    /**
     * `starList.sort(Comparator.comparing(star -> star.euclideanDistance))`:
     * reorders the list, in place, into non-decreasing distance. The stars
     * themselves are untouched.
     */
    method SortByDistance()
      requires Stamped(items)
      modifies this
      ensures multiset(items) == multiset(old(items))
      ensures Stamped(items)
      ensures Ascending(Distances(items))
    {
      var a := items;
      var i := 0;
      while i < |a|
        invariant 0 <= i <= |a|
        invariant items == old(items)
        invariant multiset(a) == multiset(items)
        invariant Stamped(a)
        invariant SortedPrefix(a, i)
      {
        a := InsertAt(a, i);
        i := i + 1;
      }
      items := a;
    }
  }

  /** The first `n` stars of `a` are in non-decreasing distance. */
  predicate SortedPrefix(a: seq<Star>, n: nat)
    reads a
    requires Stamped(a) && n <= |a|
  {
    forall p, q :: 0 <= p < q < n ==> Key(a[p]) <= Key(a[q])
  }

  /** One pass of insertion sort: moves `a[i]` down into the sorted prefix `a[..i]`. */
  method InsertAt(a: seq<Star>, i: nat) returns (b: seq<Star>)
    requires Stamped(a) && i < |a| && SortedPrefix(a, i)
    ensures |b| == |a| && multiset(b) == multiset(a)
    ensures Stamped(b) && SortedPrefix(b, i + 1)
  {
    b := a;
    var j := i;
    while 0 < j && Key(b[j]) < Key(b[j - 1])
      invariant 0 <= j <= i < |b| == |a|
      invariant multiset(b) == multiset(a)
      invariant Stamped(b)
      invariant forall p, q :: 0 <= p < q <= i && p != j && q != j ==> Key(b[p]) <= Key(b[q])
      invariant forall q :: j < q <= i ==> Key(b[j]) < Key(b[q])
    {
      b := Swap(b, j - 1, j);
      j := j - 1;
    }
  }

  /** `a` with positions `p` and `q` exchanged. */
  function Swap(a: seq<Star>, p: nat, q: nat): (b: seq<Star>)
    requires p < q < |a|
    ensures |b| == |a| && b[p] == a[q] && b[q] == a[p]
    ensures forall r :: 0 <= r < |a| && r != p && r != q ==> b[r] == a[r]
    ensures multiset(b) == multiset(a)
  {
    a[p := a[q]][q := a[p]]
  }

  /** The position of the first star of `s` called `name`, if there is one. */
  function IndexOfName(s: seq<Star>, name: string): (r: Option<nat>)
    ensures r.Some? ==> r.value < |s| && s[r.value].name == name
    ensures r.Some? ==> forall j :: 0 <= j < r.value ==> s[j].name != name
    ensures r.None? ==> forall j :: 0 <= j < |s| ==> s[j].name != name
  {
    if s == [] then None
    else if s[0].name == name then Some(0)
    else match IndexOfName(s[1..], name)
      case None => None
      case Some(i) => Some(i + 1)
  }

  /**
   * `findStarByName`: the first star called `name`, which is also removed
   * from the list; `None` (Java's `null`) and an unchanged list when no star
   * has that name. `starList.remove(star)` drops the first element identical
   * to `star`, which is the one at the match, since an earlier copy of the
   * same object would have matched first.
   */
  method FindStarByName(starList: StarList, name: string) returns (found: Option<Star>)
    modifies starList
    ensures var at := IndexOfName(old(starList.items), name);
      if at.None? then
        found == None && starList.items == old(starList.items)
      else
        && found == Some(old(starList.items)[at.value])
        && (forall j :: 0 <= j < at.value ==> old(starList.items)[j] != found.value)
        && starList.items == old(starList.items)[..at.value] + old(starList.items)[at.value + 1..]
  {
    var i := 0;
    while i < |starList.items|
      invariant 0 <= i <= |starList.items|
      invariant starList.items == old(starList.items)
      invariant forall j :: 0 <= j < i ==> starList.items[j].name != name
    {
      var star := starList.items[i];
      if star.name == name {
        starList.items := starList.items[..i] + starList.items[i + 1..];
        return Some(star);
      }
      i := i + 1;
    }
    return None;
  }
}
