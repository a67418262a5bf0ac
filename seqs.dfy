/** The query primitives the controllers lean on: find, filter, delete-one and sort on a collection. */
module Seqs {
  import opened Common

  /** No element occurs twice (the unique `_id` index of a collection). */
  ghost predicate Distinct<T>(s: seq<T>) {
    forall i, j :: 0 <= i < j < |s| ==> s[i] != s[j]
  }

  /** Position of the first occurrence of `x`, as `findById` finds the one document with that id. */
  function IndexOf<T(==)>(s: seq<T>, x: T): (r: Option<nat>)
    ensures r.None? <==> x !in s
    ensures r.Some? ==> r.value < |s| && s[r.value] == x && x !in s[..r.value]
  {
    if s == [] then None
    else if s[0] == x then Some(0)
    else
      match IndexOf(s[1..], x)
      case None => None
      case Some(k) =>
        assert s[1..][..k] == s[1..k + 1];
        Some(k + 1)
  }

  lemma DistinctTail<T>(s: seq<T>)
    requires Distinct(s) && s != []
    ensures Distinct(s[1..]) && s[0] !in s[1..]
  {
    forall i, j | 0 <= i < j < |s[1..]| ensures s[1..][i] != s[1..][j] {
      assert s[1..][i] == s[i + 1] && s[1..][j] == s[j + 1];
    }
    forall k | 0 <= k < |s[1..]| ensures s[1..][k] != s[0] {
      assert s[1..][k] == s[k + 1];
    }
  }

  lemma DistinctCons<T>(x: T, s: seq<T>)
    requires Distinct(s) && x !in s
    ensures Distinct([x] + s)
  {
    var t := [x] + s;
    forall i, j | 0 <= i < j < |t| ensures t[i] != t[j] {
      assert t[j] == s[j - 1];
      if i > 0 {
        assert t[i] == s[i - 1];
      }
    }
  }

  /** A duplicate-free sequence holds each value at most once. */
  lemma {:induction false} DistinctAtMostOnce<T>(s: seq<T>, x: T)
    requires Distinct(s)
    ensures multiset(s)[x] <= 1
  {
    if s != [] {
      assert s == [s[0]] + s[1..];
      DistinctTail(s);
      DistinctAtMostOnce(s[1..], x);
    }
  }

  /** Conversely, a sequence holding each value at most once is duplicate-free. */
  lemma AtMostOnceDistinct<T>(s: seq<T>)
    requires forall x :: multiset(s)[x] <= 1
    ensures Distinct(s)
  {
    forall i, j | 0 <= i < j < |s| ensures s[i] != s[j] {
      var x := s[j];
      assert s == s[..j] + [x] + s[j + 1..];
      assert multiset(s)[x] == multiset(s[..j])[x] + 1 + multiset(s[j + 1..])[x];
      assert s[..j][i] == s[i];
      assert s[i] in multiset(s[..j]);
    }
  }

  /** A sequence whose every element is `x` holds `x` as often as it is long. */
  lemma {:induction false} AllEqualCount<T>(s: seq<T>, x: T)
    requires forall i :: 0 <= i < |s| ==> s[i] == x
    ensures multiset(s)[x] == |s|
  {
    if s != [] {
      assert s == [s[0]] + s[1..];
      AllEqualCount(s[1..], x);
    }
  }

  /** The collection without the document at position `i`: a `deleteOne` on that document. */
  function RemoveAt<T>(s: seq<T>, i: nat): (r: seq<T>)
    requires i < |s|
    ensures |r| == |s| - 1
    ensures multiset(r) == multiset(s) - multiset{s[i]}
    ensures forall k :: 0 <= k < i ==> r[k] == s[k]
    ensures forall k :: i <= k < |r| ==> r[k] == s[k + 1]
  {
    assert s == s[..i] + [s[i]] + s[i + 1..];
    assert multiset(s) == multiset(s[..i]) + multiset{s[i]} + multiset(s[i + 1..]);
    s[..i] + s[i + 1..]
  }

  /** Deleting one position keeps a sequence duplicate-free and removes that element entirely. */
  lemma RemoveAtDistinct<T>(s: seq<T>, i: nat)
    requires Distinct(s) && i < |s|
    ensures Distinct(RemoveAt(s, i))
    ensures s[i] !in RemoveAt(s, i)
  {
    var r := RemoveAt(s, i);
    forall a, b | 0 <= a < b < |r| ensures r[a] != r[b] {
      var a' := if a < i then a else a + 1;
      var b' := if b < i then b else b + 1;
      assert r[a] == s[a'] && r[b] == s[b'] && a' < b';
    }
    forall k | 0 <= k < |r| ensures r[k] != s[i] {
      var k' := if k < i then k else k + 1;
      assert r[k] == s[k'] && k' != i;
    }
  }

  /** The documents of `s` satisfying `p`, in their original order (a `find` with a filter). */
  function Filter<T(!new)>(s: seq<T>, p: T -> bool): (r: seq<T>)
    ensures |r| <= |s|
    ensures forall x :: multiset(r)[x] == if p(x) then multiset(s)[x] else 0
    ensures forall x :: x in r <==> x in s && p(x)
  {
    if s == [] then []
    else
      assert s == [s[0]] + s[1..];
      (if p(s[0]) then [s[0]] else []) + Filter(s[1..], p)
  }

  /** How many documents of `s` satisfy `p` (a `countDocuments` with a filter). */
  function CountWhere<T(!new)>(s: seq<T>, p: T -> bool): (n: nat)
    ensures n <= |s|
    ensures n == 0 <==> forall x :: x in s ==> !p(x)
  {
    if s == [] then 0 else (if p(s[0]) then 1 else 0) + CountWhere(s[1..], p)
  }

  lemma {:induction false} CountWhereConcat<T(!new)>(a: seq<T>, b: seq<T>, p: T -> bool)
    ensures CountWhere(a + b, p) == CountWhere(a, p) + CountWhere(b, p)
  {
    if a != [] {
      assert (a + b)[1..] == a[1..] + b;
      CountWhereConcat(a[1..], b, p);
    } else {
      assert a + b == b;
    }
  }

  /** Taking one element out of the middle lowers the count by one exactly when it satisfies `p`. */
  lemma CountWhereMiddle<T(!new)>(a: seq<T>, x: T, b: seq<T>, p: T -> bool)
    ensures CountWhere(a + ([x] + b), p) == CountWhere(a + b, p) + (if p(x) then 1 else 0)
  {
    var c := [x] + b;
    assert c[0] == x && c[1..] == b;
    CountWhereConcat(a, c, p);
    CountWhereConcat(a, b, p);
  }

  /** Deleting one document lowers the count by one exactly when that document satisfied `p`. */
  lemma CountWhereRemoveAt<T(!new)>(s: seq<T>, i: nat, p: T -> bool)
    requires i < |s|
    ensures CountWhere(RemoveAt(s, i), p) == CountWhere(s, p) - (if p(s[i]) then 1 else 0)
  {
    var a, b := s[..i], s[i + 1..];
    assert s == a + ([s[i]] + b);
    assert RemoveAt(s, i) == a + b;
    CountWhereMiddle(a, s[i], b, p);
  }

  /** Counting agrees with filtering: the count is the length of the filtered collection. */
  lemma {:induction false} CountWhereFilter<T(!new)>(s: seq<T>, p: T -> bool)
    ensures CountWhere(s, p) == |Filter(s, p)|
  {
    if s != [] {
      CountWhereFilter(s[1..], p);
    }
  }

  /** Ordered so that `key` never increases: a `sort({ key: -1 })`. */
  ghost predicate SortedDescending<T>(s: seq<T>, key: T -> int) {
    forall i, j :: 0 <= i < j < |s| ==> key(s[i]) >= key(s[j])
  }

  /** In a sorted sequence the first key bounds every later one. */
  lemma SortedHeadBound<T>(s: seq<T>, key: T -> int)
    requires SortedDescending(s, key) && s != []
    ensures forall y :: y in s[1..] ==> key(s[0]) >= key(y)
  {
    forall y | y in s[1..] ensures key(s[0]) >= key(y) {
      var j :| 0 <= j < |s[1..]| && s[1..][j] == y;
      assert s[j + 1] == y;
    }
  }

  /** A bound on every element of `s` and on `x` bounds every element of a permutation of `s + [x]`. */
  lemma BoundPermutation<T>(h: T, x: T, s: seq<T>, rest: seq<T>, key: T -> int)
    requires forall y :: y in s ==> key(h) >= key(y)
    requires key(h) >= key(x)
    requires multiset(rest) == multiset(s) + multiset{x}
    ensures forall j :: 0 <= j < |rest| ==> key(h) >= key(rest[j])
  {
    forall j | 0 <= j < |rest| ensures key(h) >= key(rest[j]) {
      assert rest[j] in multiset(rest);
    }
  }

  lemma SortedTail<T>(s: seq<T>, key: T -> int)
    requires SortedDescending(s, key) && s != []
    ensures SortedDescending(s[1..], key)
  {
    forall i, j | 0 <= i < j < |s[1..]| ensures key(s[1..][i]) >= key(s[1..][j]) {
      assert s[1..][i] == s[i + 1] && s[1..][j] == s[j + 1];
    }
  }

  /** Putting a bound of every element in front of a sorted sequence keeps it sorted. */
  lemma SortedCons<T>(h: T, r: seq<T>, key: T -> int)
    requires SortedDescending(r, key)
    requires forall j :: 0 <= j < |r| ==> key(h) >= key(r[j])
    ensures SortedDescending([h] + r, key)
  {
    var t := [h] + r;
    forall i, j | 0 <= i < j < |t| ensures key(t[i]) >= key(t[j]) {
      assert t[j] == r[j - 1];
      if i > 0 {
        assert t[i] == r[i - 1];
      }
    }
  }

  function InsertDescending<T>(x: T, s: seq<T>, key: T -> int): (r: seq<T>)
    requires SortedDescending(s, key)
    ensures SortedDescending(r, key)
    ensures multiset(r) == multiset(s) + multiset{x}
  {
    if s == [] || key(x) >= key(s[0]) then
      SortedCons(x, s, key);
      [x] + s
    else
      SortedTail(s, key);
      var rest := InsertDescending(x, s[1..], key);
      assert s == [s[0]] + s[1..];
      SortedHeadBound(s, key);
      BoundPermutation(s[0], x, s[1..], rest, key);
      SortedCons(s[0], rest, key);
      [s[0]] + rest
  }

  /** A permutation of `s` ordered by descending `key`: a query sorted newest first. */
  function SortDescending<T>(s: seq<T>, key: T -> int): (r: seq<T>)
    ensures SortedDescending(r, key)
    ensures multiset(r) == multiset(s)
  {
    if s == [] then []
    else
      assert s == [s[0]] + s[1..];
      InsertDescending(s[0], SortDescending(s[1..], key), key)
  }
}
