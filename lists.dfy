/** The array operations the pages use: `filter` and a comparator `sort`. */
module Lists {

  /** `xs.filter(p)`: the elements satisfying `p`, in their original order. */
  function Filter<T(==,!new)>(xs: seq<T>, p: T -> bool): (r: seq<T>)
    ensures |r| <= |xs|
    ensures forall x {:trigger multiset(r)[x]} :: multiset(r)[x] == if p(x) then multiset(xs)[x] else 0
  {
    if xs == [] then []
    else
      assert xs == [xs[0]] + xs[1..];
      (if p(xs[0]) then [xs[0]] else []) + Filter(xs[1..], p)
  }

  /** The kept elements are exactly the elements satisfying `p`. */
  lemma {:induction false} FilterMembers<T(!new)>(xs: seq<T>, p: T -> bool)
    ensures forall x :: x in Filter(xs, p) <==> x in xs && p(x)
  {
    var r := Filter(xs, p);
    forall x ensures x in r <==> x in xs && p(x) {
      assert multiset(r)[x] == if p(x) then multiset(xs)[x] else 0;
      assert x in r <==> x in multiset(r);
      assert x in xs <==> x in multiset(xs);
    }
  }

  /** One step of `Filter`: the head, when kept, followed by the filtered tail. */
  lemma FilterCons<T(!new)>(xs: seq<T>, p: T -> bool)
    requires xs != []
    ensures Filter(xs, p) == (if p(xs[0]) then [xs[0]] else []) + Filter(xs[1..], p)
  {
  }

  /** Filtering commutes with concatenation, which together with filtering a single
      element pins `Filter` down: kept elements stay in their relative order. */
  lemma {:induction false} FilterAppend<T(!new)>(a: seq<T>, b: seq<T>, p: T -> bool)
    ensures Filter(a + b, p) == Filter(a, p) + Filter(b, p)
  {
    if a != [] {
      var head := if p(a[0]) then [a[0]] else [];
      assert (a + b)[0] == a[0] && (a + b)[1..] == a[1..] + b;
      FilterCons(a + b, p);
      FilterCons(a, p);
      FilterAppend(a[1..], b, p);
    } else {
      assert a + b == b;
    }
  }

  /** Ascending by `rank`; equal ranks in any order. */
  predicate SortedBy<T>(xs: seq<T>, rank: T -> int) {
    forall i, j :: 0 <= i < j < |xs| ==> rank(xs[i]) <= rank(xs[j])
  }

  /** Places `x` before the first element it does not rank above. */
  function Insert<T(==,!new)>(x: T, xs: seq<T>, rank: T -> int): (r: seq<T>)
    requires SortedBy(xs, rank)
    ensures SortedBy(r, rank)
    ensures multiset(r) == multiset(xs) + multiset{x}
  {
    if xs == [] || rank(x) <= rank(xs[0]) then
      ConsSorted(x, xs, rank);
      [x] + xs
    else
      var rest := Insert(x, xs[1..], rank);
      assert xs == [xs[0]] + xs[1..];
      HeadRanksBelow(x, xs, rest, rank);
      ConsSorted(xs[0], rest, rank);
      [xs[0]] + rest
  }

  /** An element ranked at or below every element of a sorted sequence can go first. */
  lemma {:induction false} ConsSorted<T>(y: T, xs: seq<T>, rank: T -> int)
    requires SortedBy(xs, rank)
    requires xs == [] || rank(y) <= rank(xs[0])
    ensures SortedBy([y] + xs, rank)
  {
    var r := [y] + xs;
    forall i, j | 0 <= i < j < |r| ensures rank(r[i]) <= rank(r[j]) {
      if i > 0 {
        assert r[i] == xs[i - 1] && r[j] == xs[j - 1];
      } else {
        assert r[j] == xs[j - 1];
      }
    }
  }

  /** The head of a sorted `xs` ranks at or below `x` and every later element of `xs`,
      hence at or below the head of any arrangement of them. */
  lemma {:induction false} HeadRanksBelow<T>(x: T, xs: seq<T>, rest: seq<T>, rank: T -> int)
    requires xs != [] && SortedBy(xs, rank) && rank(xs[0]) < rank(x)
    requires multiset(rest) == multiset(xs[1..]) + multiset{x}
    ensures rest == [] || rank(xs[0]) <= rank(rest[0])
  {
    if rest != [] {
      assert rest[0] in multiset(rest);
      RankedBelowMember(xs, rest[0], rank);
    }
  }

  /** In a sorted sequence the head ranks at or below every later element. */
  lemma {:induction false} RankedBelowMember<T>(xs: seq<T>, y: T, rank: T -> int)
    requires xs != [] && SortedBy(xs, rank)
    ensures y in multiset(xs[1..]) ==> rank(xs[0]) <= rank(y)
  {
    if y in multiset(xs[1..]) {
      var m :| 0 <= m < |xs[1..]| && xs[1..][m] == y;
      assert xs[m + 1] == y;
    }
  }

  /** `xs.sort((l, r) => rank(l) - rank(r))` as a stable insertion sort: the result
      is ordered by `rank` and is a permutation of `xs`. */
  function SortBy<T(==,!new)>(xs: seq<T>, rank: T -> int): (r: seq<T>)
    ensures SortedBy(r, rank)
    ensures multiset(r) == multiset(xs)
  {
    if xs == [] then []
    else
      assert xs == [xs[0]] + xs[1..];
      Insert(xs[0], SortBy(xs[1..], rank), rank)
  }
}
