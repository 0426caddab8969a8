/**
 Sorting by an integer key. Go's `sort.SliceStable` has one possible result, `StableByKey`; `sort.Slice`
 may return any sorted permutation, and `SortedPermutationUnique` says when that is no freedom at all.
 */
module Sorting {

  ghost predicate SortedByKey<T(!new)>(key: T -> int, s: seq<T>) {
    forall i, j :: 0 <= i < j < |s| ==> key(s[i]) <= key(s[j])
  }

  /** The elements of s whose key is k, in the order of s. */
  ghost function WithKey<T(!new)>(key: T -> int, s: seq<T>, k: int): seq<T> {
    if s == [] then [] else
    WithKey(key, s[..|s|-1], k) + (if key(s[|s|-1]) == k then [s[|s|-1]] else [])
  }

  /** Puts x after every element whose key is not larger. */
  function InsertByKey<T>(key: T -> int, s: seq<T>, x: T): seq<T> {
    if s == [] || key(s[|s|-1]) <= key(x) then s + [x]
    else InsertByKey(key, s[..|s|-1], x) + [s[|s|-1]]
  }

  function StableByKey<T>(key: T -> int, s: seq<T>): seq<T> {
    if s == [] then [] else InsertByKey(key, StableByKey(key, s[..|s|-1]), s[|s|-1])
  }

  lemma {:induction false} InsertByKeyElements<T>(key: T -> int, s: seq<T>, x: T)
    ensures multiset(InsertByKey(key, s, x)) == multiset(s) + multiset{x}
  {
    if s == [] || key(s[|s|-1]) <= key(x) {
    } else {
      InsertByKeyElements(key, s[..|s|-1], x);
      assert s == s[..|s|-1] + [s[|s|-1]];
    }
  }

  lemma MemberByMultiset<T>(s: seq<T>, t: seq<T>)
    requires multiset(s) == multiset(t)
    ensures |s| == |t|
    ensures forall x :: x in s <==> x in t
  {
    assert |multiset(s)| == |multiset(t)|;
    forall x ensures x in s <==> x in t {
      assert x in s <==> x in multiset(s);
      assert x in t <==> x in multiset(t);
    }
  }

  lemma {:induction false} InsertByKeySorted<T(!new)>(key: T -> int, s: seq<T>, x: T)
    requires SortedByKey(key, s)
    ensures SortedByKey(key, InsertByKey(key, s, x))
  {
    if s == [] || key(s[|s|-1]) <= key(x) {
    } else {
      var front, last := s[..|s|-1], s[|s|-1];
      InsertByKeySorted(key, front, x);
      InsertByKeyElements(key, front, x);
      MemberByMultiset(InsertByKey(key, front, x), front + [x]);
      var r := InsertByKey(key, front, x);
      forall i | 0 <= i < |r| ensures key(r[i]) <= key(last) {
        assert r[i] in r;
        assert r[i] in front + [x];
      }
    }
  }

  lemma {:induction false} InsertByKeyStable<T(!new)>(key: T -> int, s: seq<T>, x: T, k: int)
    requires SortedByKey(key, s)
    ensures WithKey(key, InsertByKey(key, s, x), k) == WithKey(key, s, k) + (if key(x) == k then [x] else [])
  {
    if s == [] || key(s[|s|-1]) <= key(x) {
      assert (s + [x])[..|s|] == s;
    } else {
      var front, last := s[..|s|-1], s[|s|-1];
      InsertByKeyStable(key, front, x, k);
      var r := InsertByKey(key, front, x);
      assert (r + [last])[..|r|] == r;
    }
  }

  /** `StableByKey` is sorted, permutes its input and keeps the order of equal keys. */
  lemma {:induction false} StableByKeyCorrect<T(!new)>(key: T -> int, s: seq<T>)
    ensures SortedByKey(key, StableByKey(key, s))
    ensures multiset(StableByKey(key, s)) == multiset(s)
    ensures forall k :: WithKey(key, StableByKey(key, s), k) == WithKey(key, s, k)
  {
    if s != [] {
      var front, last := s[..|s|-1], s[|s|-1];
      StableByKeyCorrect(key, front);
      var f := StableByKey(key, front);
      InsertByKeySorted(key, f, last);
      InsertByKeyElements(key, f, last);
      assert s == front + [last];
      forall k ensures WithKey(key, StableByKey(key, s), k) == WithKey(key, s, k) {
        InsertByKeyStable(key, f, last, k);
      }
    }
  }

  lemma {:induction false} StableByKeySnoc<T>(key: T -> int, s: seq<T>, x: T)
    ensures StableByKey(key, s + [x]) == InsertByKey(key, StableByKey(key, s), x)
  {
    assert (s + [x])[..|s|] == s;
  }

  /** A stable sort leaves sorted input alone. */
  lemma {:induction false} StableByKeyIdentity<T(!new)>(key: T -> int, s: seq<T>)
    requires SortedByKey(key, s)
    ensures StableByKey(key, s) == s
  {
    if s != [] {
      StableByKeyIdentity(key, s[..|s|-1]);
      assert s == s[..|s|-1] + [s[|s|-1]];
    }
  }

  /** Strict order of a comparison function on the elements that occur. */
  ghost predicate StrictTotalOn<T(!new)>(less: (T, T) -> bool, s: seq<T>) {
    && (forall a, b :: a in s && b in s && a != b ==> less(a, b) || less(b, a))
    && (forall a, b :: a in s && b in s && less(a, b) ==> !less(b, a) && a != b)
  }

  /** What `sort.Slice` guarantees: no element is less than an earlier one. */
  ghost predicate SortedBy<T(!new)>(less: (T, T) -> bool, s: seq<T>) {
    forall i, j :: 0 <= i < j < |s| ==> !less(s[j], s[i])
  }

  lemma LastAgrees<T(!new)>(less: (T, T) -> bool, s: seq<T>, t: seq<T>)
    requires s != [] && multiset(s) == multiset(t)
    requires StrictTotalOn(less, s)
    requires SortedBy(less, s) && SortedBy(less, t)
    ensures |s| == |t| && s[|s|-1] == t[|t|-1]
  {
    MemberByMultiset(s, t);
    var n := |s|;
    var a, b := s[n-1], t[n-1];
    assert a in t && b in s;
    var i :| 0 <= i < n && s[i] == b;
    var j :| 0 <= j < n && t[j] == a;
    assert i == n - 1 || !less(a, b);
    assert j == n - 1 || !less(b, a);
  }

  lemma WithoutLast<T>(s: seq<T>)
    requires s != []
    ensures multiset(s[..|s|-1]) == multiset(s) - multiset{s[|s|-1]}
  {
    assert s == s[..|s|-1] + [s[|s|-1]];
  }

  lemma DropSameLast<T>(s: seq<T>, t: seq<T>)
    requires multiset(s) == multiset(t) && s != [] && t != []
    requires s[|s|-1] == t[|t|-1]
    ensures multiset(s[..|s|-1]) == multiset(t[..|t|-1])
  {
    WithoutLast(s);
    WithoutLast(t);
  }

  lemma OrderOnPrefix<T(!new)>(less: (T, T) -> bool, s: seq<T>, k: nat)
    requires k <= |s| && SortedBy(less, s)
    ensures SortedBy(less, s[..k])
    ensures StrictTotalOn(less, s) ==> StrictTotalOn(less, s[..k])
  {
    assert forall x :: x in s[..k] ==> x in s;
  }

  /** When the comparison tells all elements apart, only one sorted arrangement exists. */
  lemma {:induction false} SortedPermutationUnique<T(!new)>(less: (T, T) -> bool, s: seq<T>, t: seq<T>)
    requires multiset(s) == multiset(t)
    requires StrictTotalOn(less, s)
    requires SortedBy(less, s) && SortedBy(less, t)
    ensures s == t
  {
    MemberByMultiset(s, t);
    if s != [] {
      LastAgrees(less, s, t);
      DropSameLast(s, t);
      OrderOnPrefix(less, s, |s|-1);
      OrderOnPrefix(less, t, |t|-1);
      SortedPermutationUnique(less, s[..|s|-1], t[..|t|-1]);
      assert s == s[..|s|-1] + [s[|s|-1]] && t == t[..|t|-1] + [t[|t|-1]];
    }
  }

  /** `sort.SliceStable`: swaps each element back past the larger ones before it. */
  method SliceStable<T(!new)>(key: T -> int, s: seq<T>) returns (r: seq<T>)
    ensures r == StableByKey(key, s)
  {
    r := [];
    for i := 0 to |s|
      invariant r == StableByKey(key, s[..i])
    {
      assert s[..i+1] == s[..i] + [s[i]];
      StableByKeySnoc(key, s[..i], s[i]);
      r := InsertByKey(key, r, s[i]);
    }
    assert s[..|s|] == s;
  }

  /** No three elements break the order: what `sort.Slice` asks of its comparison. */
  ghost predicate WeakOrder<T(!new)>(less: (T, T) -> bool) {
    && (forall a, b :: less(a, b) ==> !less(b, a))
    && (forall a, b, c {:trigger less(b, a), less(c, b)} :: !less(b, a) && !less(c, b) ==> !less(c, a))
  }

  /** `sort.Slice`: some sorted permutation; callers may rely on nothing else. */
  method SortSlice<T(!new)>(less: (T, T) -> bool, s: seq<T>) returns (r: seq<T>)
    requires WeakOrder(less)
    ensures SortedBy(less, r) && multiset(r) == multiset(s)
  {
    r := [];
    for i := 0 to |s|
      invariant SortedBy(less, r) && multiset(r) == multiset(s[..i])
    {
      r := InsertBy(less, r, s[i]);
      assert s[..i+1] == s[..i] + [s[i]];
    }
    assert s[..|s|] == s;
  }

  method InsertBy<T(!new)>(less: (T, T) -> bool, s: seq<T>, x: T) returns (r: seq<T>)
    requires WeakOrder(less) && SortedBy(less, s)
    ensures SortedBy(less, r) && multiset(r) == multiset(s) + multiset{x}
  {
    var i := |s|;
    while i > 0 && less(x, s[i-1])
      invariant 0 <= i <= |s|
      invariant forall j :: i <= j < |s| ==> less(x, s[j])
    {
      i := i - 1;
    }
    forall j | 0 <= j < i ensures !less(x, s[j]) {
      assert j < i - 1 ==> !less(s[i-1], s[j]);
    }
    InsertedSorted(less, s, x, i);
    r := s[..i] + [x] + s[i..];
  }

  lemma InsertedSorted<T(!new)>(less: (T, T) -> bool, s: seq<T>, x: T, i: nat)
    requires SortedBy(less, s) && i <= |s|
    requires forall j :: 0 <= j < i ==> !less(x, s[j])
    requires forall j :: i <= j < |s| ==> !less(s[j], x)
    ensures SortedBy(less, s[..i] + [x] + s[i..])
    ensures multiset(s[..i] + [x] + s[i..]) == multiset(s) + multiset{x}
  {
    assert s == s[..i] + s[i..];
  }
}
