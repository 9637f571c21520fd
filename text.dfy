/**
 * Strings as sequences of Unicode scalar values: prefix and suffix tests,
 * the code-point lexicographic order Python uses to compare `str` values,
 * and the sort that `sorted()` performs on a list of paths.
 */
module Text {

  predicate StartsWith(s: string, prefix: string) {
    |prefix| <= |s| && s[..|prefix|] == prefix
  }

  predicate EndsWith(s: string, suffix: string) {
    |suffix| <= |s| && s[|s| - |suffix|..] == suffix
  }

  /** The index of the last occurrence of `c` in `s`, or -1 when there is none. */
  function LastIndexOf(s: string, c: char): (i: int)
    ensures -1 <= i < |s|
    ensures i >= 0 ==> s[i] == c
    ensures forall j :: i < j < |s| ==> s[j] != c
    decreases |s|
  {
    if |s| == 0 then -1
    else if s[|s| - 1] == c then |s| - 1
    else LastIndexOf(s[..|s| - 1], c)
  }

  /** Python's `a < b` on strings: the first differing code point decides, a proper prefix is smaller. */
  predicate Less(a: string, b: string)
    decreases |a|
  {
    if |a| == 0 then |b| > 0
    else if |b| == 0 then false
    else if a[0] != b[0] then a[0] < b[0]
    else Less(a[1..], b[1..])
  }

  /** `a <= b` */
  predicate Leq(a: string, b: string) {
    !Less(b, a)
  }

  lemma {:induction false} LessIrreflexive(a: string)
    ensures !Less(a, a)
    decreases |a|
  {
    if |a| > 0 {
      LessIrreflexive(a[1..]);
    }
  }

  lemma {:induction false} LessTransitive(a: string, b: string, c: string)
    requires Less(a, b) && Less(b, c)
    ensures Less(a, c)
    decreases |a|
  {
    if |a| > 0 && a[0] == b[0] && b[0] == c[0] {
      LessTransitive(a[1..], b[1..], c[1..]);
    }
  }

  lemma {:induction false} LessTotal(a: string, b: string)
    requires a != b
    ensures Less(a, b) || Less(b, a)
    decreases |a|
  {
    if |a| > 0 && |b| > 0 && a[0] == b[0] {
      assert a == [a[0]] + a[1..] && b == [b[0]] + b[1..];
      LessTotal(a[1..], b[1..]);
    }
  }

  lemma {:induction false} LessAsymmetric(a: string, b: string)
    requires Less(a, b)
    ensures !Less(b, a)
    decreases |a|
  {
    if |a| > 0 && a[0] == b[0] {
      LessAsymmetric(a[1..], b[1..]);
    }
  }

  /** Two strings each at most the other are equal. */
  lemma LeqAntisymmetric(a: string, b: string)
    requires Leq(a, b) && Leq(b, a)
    ensures a == b
  {
    if a != b {
      LessTotal(a, b);
    }
  }

  lemma LeqTransitive(a: string, b: string, c: string)
    requires Leq(a, b) && Leq(b, c)
    ensures Leq(a, c)
  {
    if Less(c, a) {
      if a == b {
      } else {
        LessTotal(a, b);
        LessTransitive(c, a, b);
      }
    }
  }

  /** Non-decreasing order: what `sorted()` returns. */
  predicate Ordered(s: seq<string>) {
    forall i, j :: 0 <= i < j < |s| ==> Leq(s[i], s[j])
  }

  predicate Distinct<T(==)>(s: seq<T>) {
    forall i, j :: 0 <= i < j < |s| ==> s[i] != s[j]
  }

  /** Inserts `x` after every element smaller than it. */
  function Insert(x: string, s: seq<string>): seq<string> {
    if |s| == 0 then [x]
    else if Less(s[0], x) then [s[0]] + Insert(x, s[1..])
    else [x] + s
  }

  lemma {:induction false} InsertPermutes(x: string, s: seq<string>)
    ensures multiset(Insert(x, s)) == multiset(s) + multiset{x}
    decreases |s|
  {
    if |s| > 0 && Less(s[0], x) {
      InsertPermutes(x, s[1..]);
      assert s == [s[0]] + s[1..];
    }
  }

  /** An element at most every element of `s` and at most `x` is at most every element of `Insert(x, s)`. */
  lemma InsertBelow(a: string, x: string, s: seq<string>)
    requires Leq(a, x) && forall j :: 0 <= j < |s| ==> Leq(a, s[j])
    ensures forall j :: 0 <= j < |Insert(x, s)| ==> Leq(a, Insert(x, s)[j])
  {
    InsertPermutes(x, s);
    forall j | 0 <= j < |Insert(x, s)|
      ensures Leq(a, Insert(x, s)[j])
    {
      var y := Insert(x, s)[j];
      assert y in multiset(Insert(x, s));
      if y != x {
        assert y in multiset(s);
        var k :| 0 <= k < |s| && s[k] == y;
      }
    }
  }

  /** A sequence is ordered when its head is at most every later element and its tail is ordered. */
  lemma OrderedCons(a: string, t: seq<string>)
    requires Ordered(t) && forall j :: 0 <= j < |t| ==> Leq(a, t[j])
    ensures Ordered([a] + t)
  {
    var r := [a] + t;
    forall i, j | 0 <= i < j < |r|
      ensures Leq(r[i], r[j])
    {
      if i > 0 {
        assert r[i] == t[i - 1] && r[j] == t[j - 1];
      }
    }
  }

  lemma {:induction false} InsertOrdered(x: string, s: seq<string>)
    requires Ordered(s)
    ensures Ordered(Insert(x, s))
    decreases |s|
  {
    if |s| > 0 {
      if Less(s[0], x) {
        assert Ordered(s[1..]) by {
          forall i, j | 0 <= i < j < |s[1..]|
            ensures Leq(s[1..][i], s[1..][j])
          {
            assert s[1..][i] == s[i + 1] && s[1..][j] == s[j + 1];
          }
        }
        InsertOrdered(x, s[1..]);
        LessAsymmetric(s[0], x);
        InsertBelow(s[0], x, s[1..]);
        OrderedCons(s[0], Insert(x, s[1..]));
      } else {
        forall j | 0 <= j < |s|
          ensures Leq(x, s[j])
        {
          LessIrreflexive(s[0]);
          LeqTransitive(x, s[0], s[j]);
        }
        OrderedCons(x, s);
      }
    }
  }

  /** Insertion sort: the model of Python's `sorted()` on a list of strings. */
  function Sort(s: seq<string>): (r: seq<string>)
    ensures multiset(r) == multiset(s)
    ensures Ordered(r)
  {
    if |s| == 0 then []
    else
      assert s == [s[0]] + s[1..];
      InsertPermutes(s[0], Sort(s[1..]));
      InsertOrdered(s[0], Sort(s[1..]));
      Insert(s[0], Sort(s[1..]))
  }

  lemma {:induction false} DistinctCount<T>(s: seq<T>, x: T)
    requires Distinct(s)
    ensures multiset(s)[x] <= 1
    decreases |s|
  {
    if |s| > 0 {
      assert s == [s[0]] + s[1..];
      DistinctCount(s[1..], x);
      if x == s[0] {
        assert x !in s[1..];
      }
    }
  }

  /** A permutation of a sequence without repetitions has no repetitions. */
  lemma PermutationDistinct<T>(a: seq<T>, b: seq<T>)
    requires Distinct(a) && multiset(a) == multiset(b)
    ensures Distinct(b)
  {
    forall i, j | 0 <= i < j < |b|
      ensures b[i] != b[j]
    {
      if b[i] == b[j] {
        assert b == b[..j] + b[j..];
        assert b[i] in b[..j] && b[j] in b[j..];
        assert multiset(b)[b[i]] == multiset(b[..j])[b[i]] + multiset(b[j..])[b[i]];
        DistinctCount(a, b[i]);
        assert false;
      }
    }
  }

  /**
   * An ordered sequence without repetitions is determined by its elements:
   * whatever order a listing came in, sorting it gives one result.
   */
  lemma {:induction false} SortedUnique(a: seq<string>, b: seq<string>)
    requires Ordered(a) && Ordered(b) && Distinct(a) && Distinct(b)
    requires forall x :: x in a <==> x in b
    ensures a == b
    decreases |a|
  {
    assert |a| > 0 ==> a[0] in b;
    assert |b| > 0 ==> b[0] in a;
    if |a| > 0 {
      var i :| 0 <= i < |b| && b[i] == a[0];
      var j :| 0 <= j < |a| && a[j] == b[0];
      LessIrreflexive(a[0]);
      LessIrreflexive(b[0]);
      assert Leq(a[0], a[j]);
      assert Leq(b[0], b[i]);
      LeqAntisymmetric(a[0], b[0]);
      forall x
        ensures x in a[1..] <==> x in b[1..]
      {
        if x in a[1..] {
          var k :| 0 <= k < |a[1..]| && a[1..][k] == x;
          assert a[k + 1] == x && x != a[0];
          assert x in b;
          var m :| 0 <= m < |b| && b[m] == x;
          assert m != 0;
          assert b[1..][m - 1] == x;
        }
        if x in b[1..] {
          var k :| 0 <= k < |b[1..]| && b[1..][k] == x;
          assert b[k + 1] == x && x != b[0];
          assert x in a;
          var m :| 0 <= m < |a| && a[m] == x;
          assert m != 0;
          assert a[1..][m - 1] == x;
        }
      }
      SortedUnique(a[1..], b[1..]);
      assert a == [a[0]] + a[1..] && b == [b[0]] + b[1..];
    }
  }

  /** Sorting two listings of the same entries, each without repetitions, gives the same sequence. */
  lemma SortIgnoresListingOrder(a: seq<string>, b: seq<string>)
    requires Distinct(a) && Distinct(b)
    requires forall x :: x in a <==> x in b
    ensures Sort(a) == Sort(b)
  {
    PermutationDistinct(a, Sort(a));
    PermutationDistinct(b, Sort(b));
    forall x
      ensures x in Sort(a) <==> x in Sort(b)
    {
      assert x in Sort(a) <==> x in multiset(Sort(a));
      assert x in Sort(b) <==> x in multiset(Sort(b));
      assert x in a <==> x in multiset(a);
      assert x in b <==> x in multiset(b);
    }
    SortedUnique(Sort(a), Sort(b));
  }

  /** A non-empty set of strings has a least element. */
  lemma {:induction false} Minimum(s: set<string>) returns (m: string)
    requires s != {}
    ensures m in s && forall y :: y in s ==> Leq(m, y)
    decreases |s|
  {
    var x :| x in s;
    LessIrreflexive(x);
    if s == {x} {
      m := x;
    } else {
      var m' := Minimum(s - {x});
      if Less(x, m') {
        m := x;
        LessAsymmetric(x, m');
        forall y | y in s
          ensures Leq(x, y)
        {
          if y != x {
            LeqTransitive(x, m', y);
          }
        }
      } else {
        m := m';
      }
    }
  }

  lemma MinimumExists(s: set<string>)
    requires s != {}
    ensures exists m :: m in s && forall y :: y in s ==> Leq(m, y)
  {
    var m := Minimum(s);
  }

  /** The elements of a set in ascending order: the one ordered listing without repetitions of that set. */
  ghost function SortedSet(s: set<string>): (r: seq<string>)
    ensures Ordered(r) && Distinct(r)
    ensures forall x :: x in r <==> x in s
    decreases |s|
  {
    if s == {} then []
    else
      MinimumExists(s);
      var m :| m in s && forall y :: y in s ==> Leq(m, y);
      var rest := SortedSet(s - {m});
      assert forall j :: 0 <= j < |rest| ==> rest[j] in s - {m};
      [m] + rest
  }

  /** Sorting any listing of a set without repetitions gives the set in ascending order. */
  lemma SortIsSortedSet(listing: seq<string>, s: set<string>)
    requires Distinct(listing)
    requires forall x :: x in listing <==> x in s
    ensures Sort(listing) == SortedSet(s)
  {
    PermutationDistinct(listing, Sort(listing));
    forall x
      ensures x in Sort(listing) <==> x in SortedSet(s)
    {
      assert x in Sort(listing) <==> x in multiset(Sort(listing));
      assert x in listing <==> x in multiset(listing);
    }
    SortedUnique(Sort(listing), SortedSet(s));
  }
}
