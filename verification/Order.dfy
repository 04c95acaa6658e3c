// Sorting, as the library calls slices.Sort, sort.Strings and sort.Slice do it,
// and the one fact every deterministic answer in the program rests on: a set has
// exactly one strictly increasing listing.
module Order {

  ghost predicate StrictTotal<T(!new)>(less: (T, T) -> bool) {
    && (forall x :: !less(x, x))
    && (forall x, y :: x != y ==> less(x, y) || less(y, x))
    && (forall x, y, z :: less(x, y) && less(y, z) ==> less(x, z))
  }

  ghost predicate Sorted<T>(less: (T, T) -> bool, s: seq<T>) {
    forall i, j :: 0 <= i < j < |s| ==> !less(s[j], s[i])
  }

  // Strictly increasing: sorted and free of duplicates.
  ghost predicate Strict<T>(less: (T, T) -> bool, s: seq<T>) {
    forall i, j :: 0 <= i < j < |s| ==> less(s[i], s[j])
  }

  ghost predicate Distinct<T>(s: seq<T>) {
    forall i, j :: 0 <= i < j < |s| ==> s[i] != s[j]
  }

  ghost function Elements<T(!new)>(s: seq<T>): (r: set<T>)
    ensures forall x :: x in r <==> x in s
  {
    set x | x in s
  }

  ghost predicate Lists<T(!new)>(less: (T, T) -> bool, s: seq<T>, all: set<T>) {
    Strict(less, s) && forall x :: x in s <==> x in all
  }

  function Insert<T>(less: (T, T) -> bool, x: T, s: seq<T>): (r: seq<T>)
    ensures multiset(r) == multiset{x} + multiset(s)
  {
    if s == [] then [x]
    else if less(s[0], x) then
      assert s == [s[0]] + s[1..];
      [s[0]] + Insert(less, x, s[1..])
    else [x] + s
  }

  function Sort<T>(less: (T, T) -> bool, s: seq<T>): (r: seq<T>)
    ensures multiset(r) == multiset(s)
  {
    if s == [] then []
    else
      assert s == [s[0]] + s[1..];
      Insert(less, s[0], Sort(less, s[1..]))
  }

  lemma InsertSorted<T(!new)>(less: (T, T) -> bool, x: T, s: seq<T>)
    requires StrictTotal(less) && Sorted(less, s)
    ensures Sorted(less, Insert(less, x, s))
  {
    if s != [] && less(s[0], x) {
      InsertSorted(less, x, s[1..]);
      var rest := Insert(less, x, s[1..]);
      forall y | y in rest ensures !less(y, s[0]) {
        assert y in multiset(rest);
        assert y == x || y in multiset(s[1..]);
      }
    }
  }

  lemma {:induction false} SortSorted<T(!new)>(less: (T, T) -> bool, s: seq<T>)
    requires StrictTotal(less)
    ensures Sorted(less, Sort(less, s))
  {
    if s != [] {
      SortSorted(less, s[1..]);
      InsertSorted(less, s[0], Sort(less, s[1..]));
    }
  }

  lemma SortMembers<T>(less: (T, T) -> bool, s: seq<T>)
    ensures |Sort(less, s)| == |s|
    ensures forall x :: x in Sort(less, s) <==> x in s
  {
    assert |multiset(Sort(less, s))| == |multiset(s)|;
    forall x ensures x in Sort(less, s) <==> x in s {
      assert x in Sort(less, s) <==> x in multiset(Sort(less, s));
      assert x in s <==> x in multiset(s);
    }
  }

  lemma DistinctCounts<T(!new)>(s: seq<T>)
    requires Distinct(s)
    ensures forall x :: multiset(s)[x] <= 1
    ensures |Elements(s)| == |s|
  {
    if s != [] {
      var init, last := s[..|s| - 1], s[|s| - 1];
      DistinctCounts(init);
      assert s == init + [last];
      assert last !in init;
      assert Elements(s) == Elements(init) + {last};
    }
  }

  lemma RepeatCounts<T>(s: seq<T>, i: nat, j: nat)
    requires i < j < |s|
    ensures s[i] == s[j] ==> multiset(s)[s[i]] >= 2
  {
    assert s == s[..j] + s[j..];
    assert s[..j][i] == s[i] && s[j..][0] == s[j];
    assert s[i] in multiset(s[..j]) && s[j] in multiset(s[j..]);
  }

  // Sorting the distinct elements of a set lists that set.
  lemma SortLists<T(!new)>(less: (T, T) -> bool, s: seq<T>, all: set<T>)
    requires StrictTotal(less) && Distinct(s) && (forall x :: x in s <==> x in all)
    ensures Lists(less, Sort(less, s), all)
    ensures |Sort(less, s)| == |s| == |all|
  {
    SortSorted(less, s);
    SortMembers(less, s);
    DistinctCounts(s);
    assert Elements(s) == all;
    var r := Sort(less, s);
    forall i, j | 0 <= i < j < |r| ensures less(r[i], r[j]) {
      RepeatCounts(r, i, j);
    }
  }

  // slices.Compact: runs of equal elements become one.
  function Compact<T(==)>(s: seq<T>): seq<T> {
    if |s| <= 1 then s
    else if s[0] == s[1] then Compact(s[1..])
    else [s[0]] + Compact(s[1..])
  }

  lemma {:induction false} CompactLists<T(!new)>(less: (T, T) -> bool, s: seq<T>)
    requires StrictTotal(less) && Sorted(less, s)
    ensures Strict(less, Compact(s))
    ensures forall x :: x in Compact(s) <==> x in s
    ensures s != [] ==> Compact(s) != [] && Compact(s)[0] == s[0]
  {
    if |s| > 1 {
      CompactLists(less, s[1..]);
      var rest := Compact(s[1..]);
      assert s == [s[0]] + s[1..];
      if s[0] != s[1] {
        assert !less(s[1], s[0]);
        assert less(s[0], rest[0]);
        forall j | 0 <= j < |rest| ensures less(s[0], rest[j]) {
          if j > 0 { assert less(rest[0], rest[j]); }
        }
      }
    }
  }

  lemma EmptyIff<T(!new)>(s: seq<T>)
    ensures s == [] <==> forall x :: x !in s
  {
    if s != [] { assert s[0] in s; }
  }

  // A set has one strictly increasing listing, whatever order its members were
  // met in.
  lemma {:induction false} ListingUnique<T(!new)>(less: (T, T) -> bool, a: seq<T>, b: seq<T>)
    requires StrictTotal(less) && Strict(less, a) && Strict(less, b)
    requires forall x :: x in a <==> x in b
    ensures a == b
  {
    if a == [] {
      EmptyIff(b);
    } else {
      assert a[0] in b;
      assert b[0] in a;
      assert a[0] == b[0];
      forall x ensures x in a[1..] <==> x in b[1..] {
        assert x in a <==> x in b;
        assert a == [a[0]] + a[1..] && b == [b[0]] + b[1..];
        assert a[0] !in a[1..] && b[0] !in b[1..];
      }
      ListingUnique(less, a[1..], b[1..]);
    }
  }

  ghost function Before<T(!new)>(less: (T, T) -> bool, all: set<T>, x: T): set<T> {
    set y | y in all && less(y, x)
  }

  // What cutting a listing short keeps: exactly the members that fewer than n
  // others come before.
  lemma TopIff<T(!new)>(less: (T, T) -> bool, s: seq<T>, all: set<T>, n: nat, x: T)
    requires StrictTotal(less) && Lists(less, s, all)
    ensures x in (if n < |s| then s[..n] else s) <==> x in all && |Before(less, all, x)| < n
  {
    var smaller := Before(less, all, x);
    if x in all {
      var k :| 0 <= k < |s| && s[k] == x;
      forall y ensures y in smaller <==> y in s[..k] {
        if y in smaller {
          var i :| 0 <= i < |s| && s[i] == y;
          assert i < k;
          assert s[..k][i] == y;
        }
        if y in s[..k] {
          var i :| 0 <= i < k && s[i] == y;
          assert less(s[i], s[k]);
        }
      }
      assert smaller == Elements(s[..k]);
      assert Distinct(s[..k]);
      DistinctCounts(s[..k]);
      if n < |s| {
        assert x in s[..n] <==> k < n by {
          if k < n { assert s[..n][k] == x; }
          if x in s[..n] {
            var i :| 0 <= i < n && s[..n][i] == x;
            assert i == k;
          }
        }
      }
    }
  }

  // Go compares strings byte by byte; a proper prefix comes first.
  predicate StrLess(a: string, b: string) {
    b != [] && (a == [] || a[0] < b[0] || (a[0] == b[0] && StrLess(a[1..], b[1..])))
  }

  lemma StrLessTotal(a: string, b: string)
    requires a != b
    ensures StrLess(a, b) || StrLess(b, a)
  {
    if a != [] && b != [] && a[0] == b[0] {
      assert a == [a[0]] + a[1..] && b == [b[0]] + b[1..];
      StrLessTotal(a[1..], b[1..]);
    }
  }

  lemma StrLessTransitive(a: string, b: string, c: string)
    requires StrLess(a, b) && StrLess(b, c)
    ensures StrLess(a, c)
  {
    if a != [] && a[0] == b[0] == c[0] {
      StrLessTransitive(a[1..], b[1..], c[1..]);
    }
  }

  lemma StrLessIrreflexive(a: string)
    ensures !StrLess(a, a)
  {
    if a != [] { StrLessIrreflexive(a[1..]); }
  }

  lemma StringsOrdered()
    ensures StrictTotal(StrLess)
  {
    forall a ensures !StrLess(a, a) { StrLessIrreflexive(a); }
    forall a, b | a != b ensures StrLess(a, b) || StrLess(b, a) { StrLessTotal(a, b); }
    forall a, b, c | StrLess(a, b) && StrLess(b, c) ensures StrLess(a, c) {
      StrLessTransitive(a, b, c);
    }
  }

  // Clone, sort, compact: the canonical form the cache keys are written in.
  function Canonical(list: seq<string>): seq<string> {
    Compact(Sort(StrLess, list))
  }

  lemma CanonicalLists(list: seq<string>)
    ensures Lists(StrLess, Canonical(list), Elements(list))
  {
    StringsOrdered();
    SortSorted(StrLess, list);
    SortMembers(StrLess, list);
    CompactLists(StrLess, Sort(StrLess, list));
  }

  // Two lists have one canonical form exactly when they hold the same strings.
  lemma CanonicalIff(a: seq<string>, b: seq<string>)
    ensures Canonical(a) == Canonical(b) <==> Elements(a) == Elements(b)
  {
    StringsOrdered();
    CanonicalLists(a);
    CanonicalLists(b);
    if Elements(a) == Elements(b) {
      ListingUnique(StrLess, Canonical(a), Canonical(b));
    }
    if Canonical(a) == Canonical(b) {
      assert Elements(a) == Elements(b);
    }
  }
}
