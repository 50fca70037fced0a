/** The standard library's stable sort and string comparison, with what callers rely on. */
module Sorting {
  import opened Model

  /** Strict lexicographic order on strings. */
  predicate StringLess(a: string, b: string) {
    b != [] && (a == [] || a[0] < b[0] || (a[0] == b[0] && StringLess(a[1..], b[1..])))
  }

  lemma {:induction false} StringLessTotal(a: string, b: string)
    ensures a != b ==> StringLess(a, b) || StringLess(b, a)
    ensures !(StringLess(a, b) && StringLess(b, a))
    ensures !StringLess(a, a)
  {
    if a != [] && b != [] && a[0] == b[0] {
      StringLessTotal(a[1..], b[1..]);
      if a != b { assert a == [a[0]] + a[1..] && b == [b[0]] + b[1..]; }
    }
    if a != [] { StringLessTotal(a[1..], a[1..]); }
  }

  lemma {:induction false} StringLessTransitive(a: string, b: string, c: string)
    requires StringLess(a, b) && StringLess(b, c)
    ensures StringLess(a, c)
  {
    if a != [] && a[0] == b[0] == c[0] { StringLessTransitive(a[1..], b[1..], c[1..]); }
  }

  /** Puts x before the first element not strictly below it, which keeps equal elements in order. */
  function Insert<T(!new)>(x: T, s: seq<T>, less: (T, T) -> bool): seq<T> {
    if s == [] || !less(s[0], x) then [x] + s else [s[0]] + Insert(x, s[1..], less)
  }

  function StableSort<T(!new)>(s: seq<T>, less: (T, T) -> bool): seq<T> {
    if s == [] then [] else Insert(s[0], StableSort(s[1..], less), less)
  }

  /** No element comes after one that is strictly above it. */
  ghost predicate Sorted<T(!new)>(s: seq<T>, less: (T, T) -> bool) {
    forall i, j | 0 <= i < j < |s| :: !less(s[j], s[i])
  }

  /** A strict order that decides every pair of different elements of d. */
  ghost predicate TotalOn<T(!new)>(d: set<T>, less: (T, T) -> bool) {
    && Decides(d, less)
    && (forall x, y | x in d && y in d && less(x, y) :: !less(y, x))
    && (forall x, y, z | x in d && y in d && z in d && less(x, y) && less(y, z) :: less(x, z))
  }

  ghost predicate Decides<T(!new)>(d: set<T>, less: (T, T) -> bool) {
    forall x, y | x in d && y in d && x != y :: less(x, y) || less(y, x)
  }

  ghost predicate Within<T(!new)>(s: seq<T>, d: set<T>) { forall i | 0 <= i < |s| :: s[i] in d }

  lemma {:induction false} InsertPermutes<T(!new)>(x: T, s: seq<T>, less: (T, T) -> bool)
    ensures multiset(Insert(x, s, less)) == multiset(s) + multiset{x}
  {
    if s == [] || !less(s[0], x) {
    } else {
      InsertPermutes(x, s[1..], less);
      assert s == [s[0]] + s[1..];
    }
  }

  lemma {:induction false} SortKeepsAll<T(!new)>(s: seq<T>, less: (T, T) -> bool)
    ensures multiset(StableSort(s, less)) == multiset(s)
  {
    if s != [] {
      SortKeepsAll(s[1..], less);
      InsertPermutes(s[0], StableSort(s[1..], less), less);
      assert s == [s[0]] + s[1..];
    }
  }

  lemma {:induction false} SameContents<T(!new)>(a: seq<T>, b: seq<T>)
    requires multiset(a) == multiset(b)
    ensures |a| == |b| && forall x :: x in a <==> x in b
  {
    assert |multiset(a)| == |multiset(b)|;
    forall x ensures x in a <==> x in b {
      assert x in a <==> x in multiset(a);
      assert x in b <==> x in multiset(b);
    }
  }

  lemma {:induction false} SortPermutes<T(!new)>(s: seq<T>, less: (T, T) -> bool)
    ensures multiset(StableSort(s, less)) == multiset(s)
    ensures |StableSort(s, less)| == |s|
    ensures forall x :: x in StableSort(s, less) <==> x in s
  {
    SortKeepsAll(s, less);
    SameContents(StableSort(s, less), s);
  }

  lemma {:induction false} InsertSorts<T(!new)>(x: T, s: seq<T>, less: (T, T) -> bool, d: set<T>)
    requires TotalOn(d, less) && Within(s, d) && x in d && Sorted(s, less)
    ensures Sorted(Insert(x, s, less), less)
  {
    if s == [] {
    } else if !less(s[0], x) {
      forall j | 0 <= j < |s| ensures !less(s[j], x) {
        if 0 < j { assert !less(s[j], s[0]); }
      }
    } else {
      InsertSorts(x, s[1..], less, d);
      InsertPermutes(x, s[1..], less);
      var r := Insert(x, s[1..], less);
      forall j | 0 <= j < |r| ensures !less(r[j], s[0]) {
        assert r[j] in multiset(r);
        if r[j] != x {
          assert r[j] in s[1..];
        }
      }
    }
  }

  lemma {:induction false} SortSorts<T(!new)>(s: seq<T>, less: (T, T) -> bool, d: set<T>)
    requires TotalOn(d, less) && Within(s, d)
    ensures Sorted(StableSort(s, less), less)
  {
    if s != [] {
      SortSorts(s[1..], less, d);
      SortPermutes(s[1..], less);
      assert forall i | 0 <= i < |StableSort(s[1..], less)| :: StableSort(s[1..], less)[i] in s[1..];
      InsertSorts(s[0], StableSort(s[1..], less), less, d);
    }
  }

  lemma {:induction false} HeadsAgree<T(!new)>(a: seq<T>, b: seq<T>, less: (T, T) -> bool, d: set<T>)
    requires a != [] && b != [] && multiset(a) == multiset(b)
    requires Decides(d, less) && Within(a, d) && Within(b, d)
    requires Sorted(a, less) && Sorted(b, less)
    ensures a[0] == b[0]
  {
    assert a[0] in multiset(b) && b[0] in multiset(a);
    var i :| 0 <= i < |b| && b[i] == a[0];
    var j :| 0 <= j < |a| && a[j] == b[0];
  }

  lemma {:induction false} TailsPermute<T>(a: seq<T>, b: seq<T>)
    requires a != [] && b != [] && multiset(a) == multiset(b) && a[0] == b[0]
    ensures multiset(a[1..]) == multiset(b[1..])
  {
    assert a == [a[0]] + a[1..] && b == [b[0]] + b[1..];
    assert multiset(a[1..]) == multiset(a) - multiset{a[0]};
    assert multiset(b[1..]) == multiset(b) - multiset{b[0]};
  }

  /** There is at most one sorted arrangement of the same elements. */
  lemma {:induction false} SortedUnique<T(!new)>(a: seq<T>, b: seq<T>, less: (T, T) -> bool, d: set<T>)
    requires multiset(a) == multiset(b)
    requires Decides(d, less) && Within(a, d) && Within(b, d)
    requires Sorted(a, less) && Sorted(b, less)
    ensures a == b
  {
    assert |multiset(a)| == |a| && |multiset(b)| == |b|;
    if a != [] {
      HeadsAgree(a, b, less, d);
      TailsPermute(a, b);
      SortedUnique(a[1..], b[1..], less, d);
      assert a == [a[0]] + a[1..] && b == [b[0]] + b[1..];
    }
  }

  /** Sorting forgets the order it was given: permuted inputs sort to the same list. */
  lemma {:induction false} SortIgnoresOrder<T(!new)>(a: seq<T>, b: seq<T>, less: (T, T) -> bool, d: set<T>)
    requires multiset(a) == multiset(b)
    requires TotalOn(d, less) && Within(a, d)
    ensures StableSort(a, less) == StableSort(b, less)
  {
    assert forall i | 0 <= i < |b| :: b[i] in multiset(a);
    SortSorts(a, less, d);
    SortSorts(b, less, d);
    SortPermutes(a, less);
    SortPermutes(b, less);
    assert forall i | 0 <= i < |StableSort(a, less)| :: StableSort(a, less)[i] in a;
    assert forall i | 0 <= i < |StableSort(b, less)| :: StableSort(b, less)[i] in b;
    SortedUnique(StableSort(a, less), StableSort(b, less), less, d);
  }

  lemma {:induction false} StringsTotal(d: set<string>)
    ensures TotalOn(d, StringLess)
  {
    forall a, b | a in d && b in d
      ensures a != b ==> StringLess(a, b) || StringLess(b, a)
      ensures StringLess(a, b) ==> !StringLess(b, a)
    {
      StringLessTotal(a, b);
    }
    forall a, b, c | a in d && b in d && c in d && StringLess(a, b) && StringLess(b, c)
      ensures StringLess(a, c)
    {
      StringLessTransitive(a, b, c);
    }
  }

  function SortStrings(s: seq<string>): seq<string> { StableSort(s, StringLess) }

  /** sort.Strings: the result depends only on which strings there are, and how many of each. */
  lemma {:induction false} SortStringsIgnoresOrder(a: seq<string>, b: seq<string>)
    requires multiset(a) == multiset(b)
    ensures SortStrings(a) == SortStrings(b)
  {
    var d := set x | x in a;
    StringsTotal(d);
    SortIgnoresOrder(a, b, StringLess, d);
  }

  lemma {:induction false} DistinctMeansOnce<T(!new)>(s: seq<T>)
    requires Distinct(s)
    ensures forall x :: multiset(s)[x] <= 1
  {
    if s != [] {
      var front := s[..|s| - 1];
      assert s == front + [s[|s| - 1]];
      assert forall i | 0 <= i < |front| :: front[i] == s[i] && s[i] != s[|s| - 1];
      DistinctMeansOnce(front);
      assert s[|s| - 1] !in front;
    }
  }

  lemma {:induction false} DistinctPermutation<T(!new)>(a: seq<T>, b: seq<T>)
    requires multiset(a) == multiset(b) && Distinct(a)
    ensures Distinct(b)
  {
    DistinctMeansOnce(a);
    forall i, j | 0 <= i < j < |b| ensures b[i] != b[j] {
      assert b == b[..j] + [b[j]] + b[j + 1..];
      assert multiset(b)[b[j]] >= multiset(b[..j])[b[j]] + 1;
      assert b[..j][i] == b[i];
    }
  }
}
