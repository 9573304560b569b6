/**
 * Stable sorting by an integer key, the behaviour of `Array.prototype.sort` with a
 * consistent comparator (ECMA-262 requires the sort to be stable).
 */
module Sorting {

  /** The keys of `s`, position by position. */
  function Keys<T>(s: seq<T>, key: T -> int): (r: seq<int>)
    ensures |r| == |s|
    ensures forall i :: 0 <= i < |s| ==> r[i] == key(s[i])
  {
    seq(|s|, i requires 0 <= i < |s| => key(s[i]))
  }

  /** Keys never decrease from left to right. */
  predicate SortedBy<T>(s: seq<T>, key: T -> int) {
    forall i, j :: 0 <= i < j < |s| ==> key(s[i]) <= key(s[j])
  }

  /** The elements of `s` whose key is `k`, in their order in `s`. */
  function WithKey<T>(s: seq<T>, key: T -> int, k: int): seq<T>
    decreases |s|
  {
    if |s| == 0 then []
    else (if key(s[0]) == k then [s[0]] else []) + WithKey(s[1..], key, k)
  }

  lemma ConsSorted<T>(y: T, t: seq<T>, key: T -> int)
    requires SortedBy(t, key)
    requires |t| == 0 || key(y) <= key(t[0])
    ensures SortedBy([y] + t, key)
  {
    var r := [y] + t;
    forall i, j | 0 <= i < j < |r| ensures key(r[i]) <= key(r[j]) {
      if i == 0 && j > 1 {
        assert key(t[0]) <= key(t[j - 1]);
      }
    }
  }

  /** `x` placed in front of the first element of `s` whose key is not below its own. */
  function InsertBy<T>(x: T, s: seq<T>, key: T -> int): (r: seq<T>)
    ensures |r| == |s| + 1
    ensures r[0] == x || (|s| > 0 && r[0] == s[0])
    ensures multiset(r) == multiset(s) + multiset{x}
    decreases |s|
  {
    if |s| == 0 || key(x) <= key(s[0]) then [x] + s
    else
      assert s == [s[0]] + s[1..];
      [s[0]] + InsertBy(x, s[1..], key)
  }

  /** Inserting into a sorted sequence keeps it sorted. */
  lemma {:induction false} InsertBySorted<T>(x: T, s: seq<T>, key: T -> int)
    requires SortedBy(s, key)
    ensures SortedBy(InsertBy(x, s, key), key)
    decreases |s|
  {
    if |s| == 0 || key(x) <= key(s[0]) {
      ConsSorted(x, s, key);
    } else {
      var rest := InsertBy(x, s[1..], key);
      assert SortedBy(s[1..], key);
      InsertBySorted(x, s[1..], key);
      assert |s| > 1 ==> key(s[0]) <= key(s[1]);
      ConsSorted(s[0], rest, key);
    }
  }

  /** The stable sort of `s` by ascending key. */
  function SortBy<T>(s: seq<T>, key: T -> int): (r: seq<T>)
    ensures SortedBy(r, key)
    ensures multiset(r) == multiset(s)
    ensures |r| == |s|
    decreases |s|
  {
    if |s| == 0 then []
    else
      assert s == [s[0]] + s[1..];
      InsertBySorted(s[0], SortBy(s[1..], key), key);
      InsertBy(s[0], SortBy(s[1..], key), key)
  }

  lemma {:induction false} WithKeyOfInsert<T>(x: T, s: seq<T>, key: T -> int, k: int)
    ensures WithKey(InsertBy(x, s, key), key, k)
            == (if key(x) == k then [x] else []) + WithKey(s, key, k)
    decreases |s|
  {
    if |s| == 0 || key(x) <= key(s[0]) {
      assert ([x] + s)[1..] == s;
    } else {
      WithKeyOfInsert(x, s[1..], key, k);
      var r := InsertBy(x, s, key);
      assert r[1..] == InsertBy(x, s[1..], key);
    }
  }

  /** Stability: among elements of equal key the sort keeps the input order. */
  lemma {:induction false} SortIsStable<T>(s: seq<T>, key: T -> int, k: int)
    ensures WithKey(SortBy(s, key), key, k) == WithKey(s, key, k)
    decreases |s|
  {
    if |s| > 0 {
      SortIsStable(s[1..], key, k);
      WithKeyOfInsert(s[0], SortBy(s[1..], key), key, k);
    }
  }

  lemma KeysConcat<T>(a: seq<T>, b: seq<T>, key: T -> int)
    ensures Keys(a + b, key) == Keys(a, key) + Keys(b, key)
  {
  }

  /** Adding the same element to two multisets keeps them apart or equal. */
  lemma MultisetCancel<T>(m1: multiset<T>, m2: multiset<T>, x: T)
    requires m1 + multiset{x} == m2 + multiset{x}
    ensures m1 == m2
  {
    assert m1 == (m1 + multiset{x}) - multiset{x};
    assert m2 == (m2 + multiset{x}) - multiset{x};
  }

  /** The multiset of a non-empty sequence is its head added to the multiset of its tail. */
  lemma HeadSplit<T>(s: seq<T>)
    requires |s| > 0
    ensures multiset(s) == multiset(s[1..]) + multiset{s[0]}
  {
    assert s == [s[0]] + s[1..];
  }

  /** Taking the element at `j` out of a sequence takes one copy of it out of the multiset. */
  lemma RemoveAt<T>(s: seq<T>, j: nat)
    requires j < |s|
    ensures multiset(s) == multiset(s[..j] + s[j + 1..]) + multiset{s[j]}
  {
    assert s == s[..j] + [s[j]] + s[j + 1..];
  }

  /** The keys of a sequence with one element taken out are its keys with that key taken out. */
  lemma KeysRemoveAt<T>(s: seq<T>, j: nat, key: T -> int)
    requires j < |s|
    ensures multiset(Keys(s, key)) == multiset(Keys(s[..j] + s[j + 1..], key)) + multiset{key(s[j])}
  {
    var ks := Keys(s, key);
    RemoveAt(ks, j);
    assert ks[..j] + ks[j + 1..] == Keys(s[..j] + s[j + 1..], key);
  }

  /** An element of a sequence's multiset sits at some index of the sequence. */
  lemma IndexOf<T>(s: seq<T>, x: T) returns (j: nat)
    requires x in multiset(s)
    ensures j < |s| && s[j] == x
  {
    assert x in s;
    j :| 0 <= j < |s| && s[j] == x;
  }

  /** The keys of a non-empty sequence are the head's key and the keys of the tail. */
  lemma KeysHeadSplit<T>(s: seq<T>, key: T -> int)
    requires |s| > 0
    ensures multiset(Keys(s, key)) == multiset(Keys(s[1..], key)) + multiset{key(s[0])}
  {
    var ks := Keys(s, key);
    HeadSplit(ks);
    assert ks[1..] == Keys(s[1..], key);
  }

  /** Permuting a sequence permutes its keys. */
  lemma {:induction false} KeysOfPermutation<T>(a: seq<T>, b: seq<T>, key: T -> int)
    requires multiset(a) == multiset(b)
    ensures multiset(Keys(a, key)) == multiset(Keys(b, key))
    decreases |a|
  {
    if |a| == 0 {
      assert |b| == |multiset(b)| == 0;
    } else {
      var x := a[0];
      var j := IndexOf(b, x);
      var a' := a[1..];
      var b' := b[..j] + b[j + 1..];
      HeadSplit(a);
      RemoveAt(b, j);
      MultisetCancel(multiset(a'), multiset(b'), x);
      KeysOfPermutation(a', b', key);
      KeysHeadSplit(a, key);
      KeysRemoveAt(b, j, key);
    }
  }

  predicate NonDecreasing(s: seq<int>) {
    forall i, j :: 0 <= i < j < |s| ==> s[i] <= s[j]
  }

  lemma HeadIsLeast(s: seq<int>, v: int)
    requires NonDecreasing(s) && v in s
    ensures s[0] <= v
  {
    var i :| 0 <= i < |s| && s[i] == v;
    assert i == 0 || s[0] <= s[i];
  }

  lemma EqualHeads(a: seq<int>, b: seq<int>)
    requires NonDecreasing(a) && NonDecreasing(b)
    requires multiset(a) == multiset(b) && |a| > 0
    ensures |b| > 0 && a[0] == b[0]
  {
    assert a[0] in multiset(b);
    assert a[0] in b;
    assert b[0] in multiset(a);
    HeadIsLeast(b, a[0]);
    HeadIsLeast(a, b[0]);
  }

  lemma EqualTails<T>(a: seq<T>, b: seq<T>)
    requires multiset(a) == multiset(b) && |a| > 0 && |b| > 0 && a[0] == b[0]
    ensures multiset(a[1..]) == multiset(b[1..])
  {
    HeadSplit(a);
    HeadSplit(b);
    MultisetCancel(multiset(a[1..]), multiset(b[1..]), a[0]);
  }

  /** A multiset of integers has exactly one non-decreasing arrangement. */
  lemma {:induction false} SortedIntsUnique(a: seq<int>, b: seq<int>)
    requires NonDecreasing(a) && NonDecreasing(b)
    requires multiset(a) == multiset(b)
    ensures a == b
    decreases |a|
  {
    if |a| == 0 {
      assert |b| == |multiset(b)| == 0;
    } else {
      EqualHeads(a, b);
      EqualTails(a, b);
      SortedIntsUnique(a[1..], b[1..]);
      assert a == [a[0]] + a[1..] && b == [b[0]] + b[1..];
    }
  }

  /** Two sorted arrangements of the same elements agree key by key. */
  lemma SortedPermutationsHaveEqualKeys<T>(a: seq<T>, b: seq<T>, key: T -> int)
    requires SortedBy(a, key) && SortedBy(b, key)
    requires multiset(a) == multiset(b)
    ensures Keys(a, key) == Keys(b, key)
  {
    KeysOfPermutation(a, b, key);
    SortedIntsUnique(Keys(a, key), Keys(b, key));
  }
}
