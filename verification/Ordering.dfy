/**
 Stable sorting by a real-valued key, and what it means to keep the n best of a collection.

 `StableSort` is the reference for Rust's stable `sort_by` and `sort_by_key`. `IsTopN` says what a
 bounded one-pass scan must leave behind; `TopNIsSortThenTake` ties it to "sort, then take n".
 */
module Ordering {

  function Min(a: nat, b: nat): nat {
    if a <= b then a else b
  }

  ghost predicate Distinct<T>(s: seq<T>) {
    forall i, j :: 0 <= i < j < |s| ==> s[i] != s[j]
  }

  ghost predicate Sorted<T>(s: seq<T>, key: T -> real) {
    forall i, j :: 0 <= i < j < |s| ==> key(s[i]) <= key(s[j])
  }

  // x goes in front of the first element whose key is not smaller, hence in front of its equals.
  function InsertSorted<T>(x: T, s: seq<T>, key: T -> real): seq<T> {
    if s == [] || key(x) <= key(s[0]) then [x] + s else [s[0]] + InsertSorted(x, s[1..], key)
  }

  function StableSort<T>(s: seq<T>, key: T -> real): seq<T> {
    if s == [] then [] else InsertSorted(s[0], StableSort(s[1..], key), key)
  }

  // The elements whose key is v, in their order of appearance.
  function WithKey<T>(s: seq<T>, key: T -> real, v: real): seq<T> {
    if s == [] then [] else (if key(s[0]) == v then [s[0]] else []) + WithKey(s[1..], key, v)
  }

  lemma {:induction false} InsertPermutes<T>(x: T, s: seq<T>, key: T -> real)
    ensures multiset(InsertSorted(x, s, key)) == multiset{x} + multiset(s)
  {
    if s == [] || key(x) <= key(s[0]) {
    } else {
      InsertPermutes(x, s[1..], key);
      assert s == [s[0]] + s[1..];
    }
  }

  lemma {:induction false} InsertKeepsSorted<T>(x: T, s: seq<T>, key: T -> real)
    requires Sorted(s, key)
    ensures Sorted(InsertSorted(x, s, key), key)
  {
    if s == [] || key(x) <= key(s[0]) {
    } else {
      var t := InsertSorted(x, s[1..], key);
      InsertKeepsSorted(x, s[1..], key);
      forall j | 0 <= j < |t| ensures key(s[0]) <= key(t[j]) {
        InsertPermutes(x, s[1..], key);
        assert t[j] in multiset(t);
        assert t[j] == x || t[j] in s[1..];
      }
    }
  }

  lemma {:induction false} InsertIsStable<T>(x: T, s: seq<T>, key: T -> real, v: real)
    ensures WithKey(InsertSorted(x, s, key), key, v) == WithKey([x] + s, key, v)
  {
    assert ([x] + s)[1..] == s;
    if s == [] || key(x) <= key(s[0]) {
    } else {
      var t := InsertSorted(x, s[1..], key);
      InsertIsStable(x, s[1..], key, v);
      assert ([s[0]] + t)[1..] == t && ([x] + s[1..])[1..] == s[1..];
    }
  }

  /** The reference sort orders, permutes, and keeps equal keys in their order of appearance. */
  lemma {:induction false} StableSortCorrect<T>(s: seq<T>, key: T -> real)
    ensures Sorted(StableSort(s, key), key)
    ensures multiset(StableSort(s, key)) == multiset(s)
    ensures |StableSort(s, key)| == |s|
    ensures forall v :: WithKey(StableSort(s, key), key, v) == WithKey(s, key, v)
  {
    if s == [] {
    } else {
      var t := StableSort(s[1..], key);
      StableSortCorrect(s[1..], key);
      InsertPermutes(s[0], t, key);
      InsertKeepsSorted(s[0], t, key);
      assert s == [s[0]] + s[1..];
      forall v ensures WithKey(StableSort(s, key), key, v) == WithKey(s, key, v) {
        InsertIsStable(s[0], t, key, v);
        assert ([s[0]] + t)[1..] == t;
      }
      assert |multiset(StableSort(s, key))| == |multiset(s)|;
    }
  }

  // ---- Where the sort puts an element ----

  function CountBelow<T>(s: seq<T>, key: T -> real, v: real): (n: nat)
    ensures n <= |s|
  {
    if s == [] then 0 else (if key(s[0]) < v then 1 else 0) + CountBelow(s[1..], key, v)
  }

  function CountAt<T>(s: seq<T>, key: T -> real, v: real): (n: nat)
    ensures n <= |s|
  {
    if s == [] then 0 else (if key(s[0]) == v then 1 else 0) + CountAt(s[1..], key, v)
  }

  lemma {:induction false} CountBelowAppend<T>(a: seq<T>, b: seq<T>, key: T -> real, v: real)
    ensures CountBelow(a + b, key, v) == CountBelow(a, key, v) + CountBelow(b, key, v)
  {
    if a == [] {
      assert a + b == b;
    } else {
      assert (a + b)[1..] == a[1..] + b;
      CountBelowAppend(a[1..], b, key, v);
    }
  }

  // All elements with a smaller key, and those with the same key that come earlier.
  function Rank<T>(s: seq<T>, key: T -> real, i: nat): nat
    requires i < |s|
  {
    CountBelow(s, key, key(s[i])) + CountAt(s[..i], key, key(s[i]))
  }

  lemma {:induction false} NoneBelow<T>(s: seq<T>, key: T -> real, v: real)
    requires forall j :: 0 <= j < |s| ==> v <= key(s[j])
    ensures CountBelow(s, key, v) == 0
  {
    if s != [] {
      NoneBelow(s[1..], key, v);
    }
  }

  // In a sorted sequence the elements below a value come first.
  lemma {:induction false} BelowComesFirst<T>(s: seq<T>, key: T -> real, v: real)
    requires Sorted(s, key)
    ensures forall j :: 0 <= j < |s| ==> (key(s[j]) < v <==> j < CountBelow(s, key, v))
  {
    if s == [] {
    } else if key(s[0]) < v {
      BelowComesFirst(s[1..], key, v);
      assert forall j :: 0 < j < |s| ==> s[j] == s[1..][j - 1];
    } else {
      NoneBelow(s, key, v);
    }
  }

  // An insertion cuts a sorted sequence behind the elements below the new one.
  lemma {:induction false} InsertCuts<T>(x: T, s: seq<T>, key: T -> real)
    requires Sorted(s, key)
    ensures var b := CountBelow(s, key, key(x)); InsertSorted(x, s, key) == s[..b] + [x] + s[b..]
  {
    if s == [] {
    } else if key(x) <= key(s[0]) {
      NoneBelow(s, key, key(x));
      assert s[..0] == [] && s[0..] == s;
    } else {
      var tail := s[1..];
      InsertCuts(x, tail, key);
      var b := CountBelow(tail, key, key(x));
      assert s[..b + 1] == [s[0]] + tail[..b] && s[b + 1..] == tail[b..];
    }
  }

  lemma {:induction false} InsertKeepsCount<T>(x: T, s: seq<T>, key: T -> real, v: real)
    ensures CountBelow(InsertSorted(x, s, key), key, v) == (if key(x) < v then 1 else 0) + CountBelow(s, key, v)
  {
    if s == [] || key(x) <= key(s[0]) {
      assert ([x] + s)[1..] == s;
    } else {
      InsertKeepsCount(x, s[1..], key, v);
      assert ([s[0]] + InsertSorted(x, s[1..], key))[1..] == InsertSorted(x, s[1..], key);
    }
  }

  lemma {:induction false} SortKeepsCount<T>(s: seq<T>, key: T -> real, v: real)
    ensures CountBelow(StableSort(s, key), key, v) == CountBelow(s, key, v)
  {
    if s != [] {
      SortKeepsCount(s[1..], key, v);
      InsertKeepsCount(s[0], StableSort(s[1..], key), key, v);
    }
  }

  // Where an insertion leaves what was there, and where it puts the new element.
  lemma PlaceAfterInsert<T>(x: T, t: seq<T>, key: T -> real, r: nat)
    requires Sorted(t, key)
    ensures |InsertSorted(x, t, key)| == |t| + 1
    ensures InsertSorted(x, t, key)[CountBelow(t, key, key(x))] == x
    ensures r < |t| ==> InsertSorted(x, t, key)[if key(x) <= key(t[r]) then r + 1 else r] == t[r]
  {
    hide InsertSorted, CountBelow, Sorted;
    InsertCuts(x, t, key);
    BelowComesFirst(t, key, key(x));
  }

  lemma RankInTail<T>(s: seq<T>, key: T -> real, i: nat)
    requires i < |s|
    ensures i == 0 ==> Rank(s, key, 0) == CountBelow(s[1..], key, key(s[0]))
    ensures i > 0 ==> Rank(s, key, i) == Rank(s[1..], key, i - 1) + if key(s[0]) <= key(s[i]) then 1 else 0
  {
    if i == 0 {
      assert s[..0] == [];
    } else {
      assert s[..i][1..] == s[1..][..i - 1];
    }
  }

  /** The sort puts every element exactly where its rank says. */
  lemma {:induction false} SortedPlace<T>(s: seq<T>, key: T -> real, i: nat)
    requires i < |s|
    ensures |StableSort(s, key)| == |s|
    ensures Rank(s, key, i) < |s| && StableSort(s, key)[Rank(s, key, i)] == s[i]
  {
    hide InsertSorted, CountBelow, Rank, Sorted;
    var t := StableSort(s[1..], key);
    StableSortCorrect(s[1..], key);
    SortKeepsCount(s[1..], key, key(s[0]));
    RankInTail(s, key, i);
    if i == 0 {
      PlaceAfterInsert(s[0], t, key, 0);
    } else {
      SortedPlace(s[1..], key, i - 1);
      PlaceAfterInsert(s[0], t, key, Rank(s[1..], key, i - 1));
    }
  }

  function Without<T>(s: seq<T>, j: nat): seq<T>
    requires j < |s|
  {
    s[..j] + s[j + 1..]
  }

  lemma WithoutRemovesOne<T>(s: seq<T>, j: nat)
    requires j < |s|
    ensures multiset(Without(s, j)) == multiset(s) - multiset{s[j]}
  {
    assert s == s[..j] + [s[j]] + s[j + 1..];
  }

  lemma WithoutKeepsSorted<T>(s: seq<T>, j: nat, key: T -> real)
    requires j < |s| && Sorted(s, key)
    ensures Sorted(Without(s, j), key)
  {
  }

  // Removing an element no larger than the head leaves, place by place, the keys of the tail.
  lemma WithoutKeys<T>(s: seq<T>, j: nat, key: T -> real, i: nat)
    requires j < |s| && Sorted(s, key) && key(s[j]) <= key(s[0])
    requires 0 < i < |s|
    ensures key(Without(s, j)[i - 1]) == key(s[i])
  {
    if i <= j {
      assert key(s[0]) <= key(s[i - 1]) <= key(s[i]) <= key(s[j]);
    }
  }

  // Two sorted arrangements of one multiset show the same keys, place by place.
  lemma {:induction false} SortedKeysAgree<T>(a: seq<T>, b: seq<T>, key: T -> real)
    requires Sorted(a, key) && Sorted(b, key)
    requires multiset(a) == multiset(b)
    ensures |a| == |b|
    ensures forall i :: 0 <= i < |a| ==> key(a[i]) == key(b[i])
  {
    assert |multiset(a)| == |multiset(b)|;
    if a == [] {
    } else {
      assert a[0] in multiset(b) && b[0] in multiset(a);
      var j :| 0 <= j < |b| && b[j] == a[0];
      WithoutRemovesOne(a, 0);
      WithoutRemovesOne(b, j);
      WithoutKeepsSorted(a, 0, key);
      WithoutKeepsSorted(b, j, key);
      SortedKeysAgree(Without(a, 0), Without(b, j), key);
      forall i | 0 <= i < |a| ensures key(a[i]) == key(b[i]) {
        if i > 0 {
          WithoutKeys(a, 0, key, i);
          WithoutKeys(b, j, key, i);
        }
      }
    }
  }

  // kept and rest together are the collection, and nothing left over beats anything kept.
  ghost predicate Splits<T>(kept: seq<T>, rest: seq<T>, all: seq<T>, key: T -> real) {
    && multiset(kept) + multiset(rest) == multiset(all)
    && forall k, r :: k in kept && r in rest ==> key(k) <= key(r)
  }

  ghost predicate IsTopN<T(!new)>(kept: seq<T>, all: seq<T>, n: nat, key: T -> real) {
    && |kept| == Min(n, |all|)
    && exists rest :: Splits(kept, rest, all, key)
  }

  lemma JoinSorted<T>(a: seq<T>, b: seq<T>, key: T -> real)
    requires Sorted(a, key) && Sorted(b, key)
    requires forall x, y :: x in a && y in b ==> key(x) <= key(y)
    ensures Sorted(a + b, key)
  {
    forall i, j | 0 <= i < j < |a + b| ensures key((a + b)[i]) <= key((a + b)[j]) {
      if i < |a| <= j {
        assert (a + b)[i] in a && (a + b)[j] in b;
      }
    }
  }

  /** Keeping the n best in any way shows the same keys as sorting everything and taking n. */
  lemma TopNIsSortThenTake<T(!new)>(kept: seq<T>, all: seq<T>, n: nat, key: T -> real)
    requires IsTopN(kept, all, n, key)
    ensures |StableSort(kept, key)| == |kept| == Min(n, |all|) && |StableSort(all, key)| == |all|
    ensures forall i :: 0 <= i < |kept| ==>
      key(StableSort(kept, key)[i]) == key(StableSort(all, key)[i])
  {
    var rest :| Splits(kept, rest, all, key);
    var a, b := StableSort(kept, key), StableSort(rest, key);
    StableSortCorrect(kept, key);
    StableSortCorrect(rest, key);
    StableSortCorrect(all, key);
    forall x, y | x in a && y in b ensures key(x) <= key(y) {
      assert x in multiset(a) && y in multiset(b);
      assert x in multiset(kept) && y in multiset(rest);
    }
    JoinSorted(a, b, key);
    SortedKeysAgree(a + b, StableSort(all, key), key);
  }

  lemma SplitSorted<T>(s: seq<T>, m: nat, key: T -> real)
    requires m <= |s| && Sorted(s, key)
    ensures Splits(s[..m], s[m..], s, key)
  {
    var kept, rest := s[..m], s[m..];
    assert s == kept + rest;
    forall k, r | k in kept && r in rest ensures key(k) <= key(r) {
      var i :| 0 <= i < m && s[i] == k;
      var j :| m <= j < |s| && s[j] == r;
    }
  }

  // The sorted take is itself a top n, so IsTopN asks for nothing "sort, then take" does not give.
  lemma SortThenTakeIsTopN<T(!new)>(all: seq<T>, n: nat, key: T -> real)
    ensures |StableSort(all, key)| == |all|
    ensures IsTopN(StableSort(all, key)[..Min(n, |all|)], all, n, key)
  {
    StableSortCorrect(all, key);
    var s, m := StableSort(all, key), Min(n, |all|);
    SplitSorted(s, m, key);
    assert Splits(s[..m], s[m..], all, key);
  }

  /** A kept element's key is one of the n smallest keys of the collection. */
  lemma KeptRank<T(!new)>(kept: seq<T>, all: seq<T>, n: nat, key: T -> real, x: T)
    requires IsTopN(kept, all, n, key) && x in kept
    ensures |StableSort(all, key)| == |all|
    ensures exists i :: 0 <= i < Min(n, |all|) && key(StableSort(all, key)[i]) == key(x)
  {
    TopNIsSortThenTake(kept, all, n, key);
    StableSortCorrect(kept, key);
    assert x in multiset(StableSort(kept, key));
    var i :| 0 <= i < |kept| && StableSort(kept, key)[i] == x;
    assert key(StableSort(all, key)[i]) == key(x);
  }

  lemma NoRepeats<T>(part: seq<T>, whole: seq<T>)
    requires multiset(part) <= multiset(whole)
    requires Distinct(whole)
    ensures Distinct(part)
  {
    forall i, j | 0 <= i < j < |part| ensures part[i] != part[j] {
      if part[i] == part[j] {
        var x := part[i];
        assert part == part[..j] + [x] + part[j + 1..];
        assert x in part[..j];
        assert multiset(part)[x] >= 2;
        AppearsOnce(whole, x);
      }
    }
  }

  lemma {:induction false} AppearsOnce<T>(s: seq<T>, x: T)
    requires Distinct(s)
    ensures multiset(s)[x] <= 1
  {
    if s == [] {
    } else {
      AppearsOnce(s[1..], x);
      assert s == [s[0]] + s[1..];
      if s[0] == x {
        assert forall j :: 0 <= j < |s[1..]| ==> s[1..][j] == s[j + 1] != x;
        assert x !in s[1..];
      }
    }
  }

  lemma SameElementsOnce<T(!new)>(a: seq<T>, b: seq<T>)
    requires Distinct(a)
    requires Distinct(b)
    requires forall x :: x in a <==> x in b
    ensures multiset(a) == multiset(b)
  {
    forall x ensures multiset(a)[x] == multiset(b)[x] {
      AppearsOnce(a, x);
      AppearsOnce(b, x);
      assert x in multiset(a) <==> x in a;
      assert x in multiset(b) <==> x in b;
    }
  }
}
