/** Python's `sorted()`: on strings it orders by code point, lexicographically;
  * with an integer `key=` it is a stable sort on that key. */
module Sorting {

  /** `a <= b` for Python strings. */
  predicate StrLe(a: string, b: string)
    decreases |a|
  {
    a == [] || (b != [] && (a[0] < b[0] || (a[0] == b[0] && StrLe(a[1..], b[1..]))))
  }

  lemma {:induction false} StrLeTotal(a: string, b: string)
    ensures StrLe(a, b) || StrLe(b, a)
    decreases |a|
  {
    if a != [] && b != [] && a[0] == b[0] {
      StrLeTotal(a[1..], b[1..]);
    }
  }

  lemma {:induction false} StrLeTrans(a: string, b: string, c: string)
    requires StrLe(a, b) && StrLe(b, c)
    ensures StrLe(a, c)
    decreases |a|
  {
    if a != [] && b != [] && c != [] && a[0] == b[0] == c[0] {
      StrLeTrans(a[1..], b[1..], c[1..]);
    }
  }

  lemma {:induction false} StrLeAntisym(a: string, b: string)
    requires StrLe(a, b) && StrLe(b, a)
    ensures a == b
    decreases |a|
  {
    if a != [] {
      StrLeAntisym(a[1..], b[1..]);
      assert a == [a[0]] + a[1..] && b == [b[0]] + b[1..];
    }
  }

  predicate SortedStrings(s: seq<string>) {
    forall i, j :: 0 <= i < j < |s| ==> StrLe(s[i], s[j])
  }

  function InsertString(x: string, s: seq<string>): seq<string> {
    if s == [] then [x]
    else if StrLe(x, s[0]) then [x] + s
    else [s[0]] + InsertString(x, s[1..])
  }

  lemma {:induction false} InsertStringPerm(x: string, s: seq<string>)
    ensures multiset(InsertString(x, s)) == multiset(s) + multiset{x}
    decreases |s|
  {
    if s != [] && !StrLe(x, s[0]) {
      InsertStringPerm(x, s[1..]);
      assert s == [s[0]] + s[1..];
    }
  }

  /** Every element of `t` is at least `y`. */
  predicate AtLeast(y: string, t: seq<string>) {
    forall k :: 0 <= k < |t| ==> StrLe(y, t[k])
  }

  lemma {:induction false} AtLeastInsert(y: string, x: string, s: seq<string>)
    requires AtLeast(y, s) && StrLe(y, x)
    ensures AtLeast(y, InsertString(x, s))
    decreases |s|
  {
    if s != [] && !StrLe(x, s[0]) {
      AtLeastInsert(y, x, s[1..]);
      assert InsertString(x, s) == [s[0]] + InsertString(x, s[1..]);
    }
  }

  lemma {:induction false} InsertStringSorted(x: string, s: seq<string>)
    requires SortedStrings(s)
    ensures SortedStrings(InsertString(x, s))
    decreases |s|
  {
    if s == [] {
    } else if StrLe(x, s[0]) {
      var r := [x] + s;
      forall i, j | 0 <= i < j < |r| ensures StrLe(r[i], r[j]) {
        if i == 0 && j > 1 { StrLeTrans(x, s[0], s[j - 1]); }
      }
    } else {
      StrLeTotal(x, s[0]);
      InsertStringSorted(x, s[1..]);
      var t := InsertString(x, s[1..]);
      assert AtLeast(s[0], s[1..]);
      AtLeastInsert(s[0], x, s[1..]);
      var r := [s[0]] + t;
      forall i, j | 0 <= i < j < |r| ensures StrLe(r[i], r[j]) {
        if i > 0 { assert r[i] == t[i - 1] && r[j] == t[j - 1]; }
      }
    }
  }

  /** `sorted(s)` for a list of strings. */
  function SortStrings(s: seq<string>): (r: seq<string>)
    ensures SortedStrings(r)
    ensures multiset(r) == multiset(s)
  {
    if s == [] then []
    else
      var rest := SortStrings(s[1..]);
      InsertStringSorted(s[0], rest);
      InsertStringPerm(s[0], rest);
      MultisetTail(s);
      InsertString(s[0], rest)
  }

  /** A sorted list is determined by its elements: `sorted()` does not
    * depend on the order in which a directory was listed. */
  /** Sorting keeps exactly the names it was given. */
  lemma SortStringsMembers(s: seq<string>, x: string)
    ensures x in SortStrings(s) <==> x in s
  {
    assert x in SortStrings(s) <==> x in multiset(SortStrings(s));
  }

  lemma {:induction false} SortedUnique(a: seq<string>, b: seq<string>)
    requires SortedStrings(a) && SortedStrings(b)
    requires multiset(a) == multiset(b)
    ensures a == b
    decreases |a|
  {
    if a == [] {
      assert |b| == |multiset(b)| == 0;
    } else {
      assert |b| == |multiset(b)| == |multiset(a)| == |a|;
      SortedHeads(a, b);
      SortedTail(a);
      SortedTail(b);
      MultisetTail(a);
      MultisetTail(b);
      SortedUnique(a[1..], b[1..]);
      assert a == [a[0]] + a[1..] && b == [b[0]] + b[1..];
    }
  }

  lemma SortedTail(a: seq<string>)
    requires SortedStrings(a) && a != []
    ensures SortedStrings(a[1..])
  {
    forall i, j | 0 <= i < j < |a[1..]| ensures StrLe(a[1..][i], a[1..][j]) {
      assert a[1..][i] == a[i + 1] && a[1..][j] == a[j + 1];
    }
  }

  lemma MultisetTail<T>(a: seq<T>)
    requires a != []
    ensures multiset(a[1..]) == multiset(a) - multiset{a[0]}
  {
    assert a == [a[0]] + a[1..];
  }

  /** Sorting a list without repeats gives a list without repeats. */
  lemma SortedDistinct(names: seq<string>)
    requires forall x :: multiset(names)[x] <= 1
    ensures forall i, j :: 0 <= i < j < |SortStrings(names)| ==> SortStrings(names)[i] != SortStrings(names)[j]
  {
    var s := SortStrings(names);
    forall i, j | 0 <= i < j < |s| ensures s[i] != s[j] {
      assert s == s[..j] + s[j..];
      assert s[i] in multiset(s[..j]) && s[j] in multiset(s[j..]);
      assert multiset(s)[s[j]] == multiset(s[..j])[s[j]] + multiset(s[j..])[s[j]];
    }
  }

  lemma SortedHeads(a: seq<string>, b: seq<string>)
    requires SortedStrings(a) && SortedStrings(b)
    requires multiset(a) == multiset(b)
    requires a != [] && b != []
    ensures a[0] == b[0]
  {
    assert a[0] in multiset(b);
    assert b[0] in multiset(a);
    var i :| 0 <= i < |b| && b[i] == a[0];
    var j :| 0 <= j < |a| && a[j] == b[0];
    if i != 0 && j != 0 {
      assert StrLe(a[0], a[j]);
      assert StrLe(b[0], b[i]);
      StrLeAntisym(a[0], b[0]);
    }
  }

  // ------------------------------------------------------------------
  // Stable sort on an integer key
  // ------------------------------------------------------------------

  predicate SortedByKey<T>(s: seq<T>, key: T -> int) {
    forall i, j :: 0 <= i < j < |s| ==> key(s[i]) <= key(s[j])
  }

  /** Places `x` after every element of the sorted `s` whose key is not
    * larger than its own. */
  function InsertByKey<T>(x: T, s: seq<T>, key: T -> int): seq<T> {
    if s == [] then [x]
    else if key(x) < key(s[0]) then [x] + s
    else [s[0]] + InsertByKey(x, s[1..], key)
  }

  lemma {:induction false} InsertByKeyPermutes<T>(x: T, s: seq<T>, key: T -> int)
    ensures multiset(InsertByKey(x, s, key)) == multiset(s) + multiset{x}
    decreases |s|
  {
    if s != [] && key(x) >= key(s[0]) {
      InsertByKeyPermutes(x, s[1..], key);
      assert s == [s[0]] + s[1..];
    }
  }

  /** A lower bound on the keys of `x` and of `s` bounds the keys of the
    * insertion. */
  lemma {:induction false} InsertByKeyAbove<T>(x: T, s: seq<T>, key: T -> int, b: int)
    requires b <= key(x)
    requires forall i :: 0 <= i < |s| ==> b <= key(s[i])
    ensures forall i :: 0 <= i < |InsertByKey(x, s, key)| ==> b <= key(InsertByKey(x, s, key)[i])
    decreases |s|
  {
    if s != [] && key(x) >= key(s[0]) {
      InsertByKeyAbove(x, s[1..], key, b);
      var t := InsertByKey(x, s[1..], key);
      assert InsertByKey(x, s, key) == [s[0]] + t;
    }
  }

  lemma {:induction false} InsertByKeySorted<T>(x: T, s: seq<T>, key: T -> int)
    requires SortedByKey(s, key)
    ensures SortedByKey(InsertByKey(x, s, key), key)
    decreases |s|
  {
    if s != [] && key(x) >= key(s[0]) {
      InsertByKeySorted(x, s[1..], key);
      InsertByKeyAbove(x, s[1..], key, key(s[0]));
      var t := InsertByKey(x, s[1..], key);
      assert InsertByKey(x, s, key) == [s[0]] + t;
    }
  }

  lemma MultisetFront<T>(a: seq<T>)
    requires a != []
    ensures multiset(a) == multiset(a[..|a| - 1]) + multiset{a[|a| - 1]}
  {
    assert a == a[..|a| - 1] + [a[|a| - 1]];
  }

  /** `sorted(s, key=key)`: each element is inserted after the earlier
    * elements it ties with, so equal keys keep their input order. */
  function SortByKey<T>(s: seq<T>, key: T -> int): (r: seq<T>)
    ensures SortedByKey(r, key)
    ensures multiset(r) == multiset(s)
    decreases |s|
  {
    if s == [] then []
    else
      var front := SortByKey(s[..|s| - 1], key);
      InsertByKeySorted(s[|s| - 1], front, key);
      InsertByKeyPermutes(s[|s| - 1], front, key);
      MultisetFront(s);
      InsertByKey(s[|s| - 1], front, key)
  }
  /** The elements of `s` whose key is `k`, in their order in `s`. */
  function WithKey<T>(s: seq<T>, key: T -> int, k: int): seq<T> {
    if s == [] then []
    else (if key(s[0]) == k then [s[0]] else []) + WithKey(s[1..], key, k)
  }

  lemma {:induction false} WithKeyAppend<T>(a: seq<T>, b: seq<T>, key: T -> int, k: int)
    ensures WithKey(a + b, key, k) == WithKey(a, key, k) + WithKey(b, key, k)
    decreases |a|
  {
    if a == [] {
      assert a + b == b;
    } else {
      WithKeyAppend(a[1..], b, key, k);
      assert (a + b)[0] == a[0];
      assert (a + b)[1..] == a[1..] + b;
    }
  }

  lemma {:induction false} WithKeyAbsent<T>(s: seq<T>, key: T -> int, k: int)
    requires forall i :: 0 <= i < |s| ==> key(s[i]) > k
    ensures WithKey(s, key, k) == []
    decreases |s|
  {
    if s != [] {
      WithKeyAbsent(s[1..], key, k);
    }
  }

  /** Inserting `x` into a sorted sequence puts it after every element
    * with the same key. */
  lemma {:induction false} InsertByKeyAfterTies<T>(x: T, s: seq<T>, key: T -> int, k: int)
    requires SortedByKey(s, key)
    ensures WithKey(InsertByKey(x, s, key), key, k)
      == if key(x) == k then WithKey(s, key, k) + [x] else WithKey(s, key, k)
    decreases |s|
  {
    var head := if key(x) == k then [x] else [];
    if s == [] {
      assert WithKey([x], key, k) == head + WithKey([x][1..], key, k);
      assert [x][1..] == [];
    } else if key(x) < key(s[0]) {
      assert WithKey([x] + s, key, k) == head + WithKey(([x] + s)[1..], key, k);
      assert ([x] + s)[1..] == s;
      if key(x) == k {
        WithKeyAbsent(s, key, k);
      }
    } else {
      var t := InsertByKey(x, s[1..], key);
      assert SortedByKey(s[1..], key);
      InsertByKeyAfterTies(x, s[1..], key, k);
      var first := if key(s[0]) == k then [s[0]] else [];
      assert WithKey([s[0]] + t, key, k) == first + WithKey(([s[0]] + t)[1..], key, k);
      assert ([s[0]] + t)[1..] == t;
      assert WithKey(s, key, k) == first + WithKey(s[1..], key, k);
    }
  }

  /** `sorted` is stable: the elements sharing a key come out in their
    * input order. */
  lemma {:induction false} SortByKeyStable<T>(s: seq<T>, key: T -> int, k: int)
    ensures WithKey(SortByKey(s, key), key, k) == WithKey(s, key, k)
    decreases |s|
  {
    if s != [] {
      var n := |s| - 1;
      SortByKeyStable(s[..n], key, k);
      InsertByKeyAfterTies(s[n], SortByKey(s[..n], key), key, k);
      WithKeyAppend(s[..n], [s[n]], key, k);
      assert s == s[..n] + [s[n]];
      assert [s[n]][1..] == [];
    }
  }
}
