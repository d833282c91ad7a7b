/** Python's list.sort(key=...) / sorted(...) and the `seen` set idiom used for duplicate
    suppression, over records compared by a real-valued key. */
module Ordering {

  /** Keys never decrease along s. */
  predicate SortedBy<T(==)>(s: seq<T>, key: T -> real) {
    forall i, j :: 0 <= i < j < |s| ==> key(s[i]) <= key(s[j])
  }

  /** Keys strictly increase along s. */
  predicate IncreasingBy<T(==)>(s: seq<T>, key: T -> real) {
    forall i, j :: 0 <= i < j < |s| ==> key(s[i]) < key(s[j])
  }

  /** No two elements of s share a key. */
  predicate DistinctBy<T(==)>(s: seq<T>, key: T -> real) {
    forall i, j :: 0 <= i < j < |s| ==> key(s[i]) != key(s[j])
  }

  /** The set of keys occurring in s. */
  function KeysOf<T(==)>(s: seq<T>, key: T -> real): set<real> {
    set x | x in s :: key(x)
  }

  // ---------------------------------------------------------------- stable sort

  /** Inserts x into a sorted s behind every element whose key is not larger. */
  function Insert<T(==)>(x: T, s: seq<T>, key: T -> real): (r: seq<T>)
    requires SortedBy(s, key)
    ensures SortedBy(r, key)
    ensures multiset(r) == multiset(s) + multiset{x}
    ensures |r| == |s| + 1
  {
    if s == [] then [x]
    else if key(x) < key(s[0]) then [x] + s
    else
      var t := Insert(x, s[1..], key);
      assert s == [s[0]] + s[1..];
      InsertConsSorted(s, t, x, key);
      [s[0]] + t
  }

  /** The head of a sorted s followed by a sorted t built from x and the rest of s is sorted. */
  lemma InsertConsSorted<T>(s: seq<T>, t: seq<T>, x: T, key: T -> real)
    requires SortedBy(s, key) && s != [] && key(s[0]) <= key(x)
    requires SortedBy(t, key) && multiset(t) == multiset(s[1..]) + multiset{x}
    ensures SortedBy([s[0]] + t, key)
  {
    var r := [s[0]] + t;
    forall i, j | 0 <= i < j < |r| ensures key(r[i]) <= key(r[j]) {
      assert r[j] == t[j - 1];
      if i == 0 {
        if t[j - 1] != x {
          assert t[j - 1] in multiset(t);
          assert t[j - 1] in s[1..];
          var k :| 0 <= k < |s[1..]| && s[1..][k] == t[j - 1];
          assert key(s[0]) <= key(s[k + 1]);
        }
      } else {
        assert r[i] == t[i - 1];
      }
    }
  }

  /** list.sort(key=key): a stable sort, here insertion sort taking elements in list order. */
  function SortBy<T(==)>(s: seq<T>, key: T -> real): (r: seq<T>)
    ensures SortedBy(r, key)
    ensures multiset(r) == multiset(s)
    ensures |r| == |s|
    ensures forall i :: 0 <= i < |s| ==> s[i] in r
    ensures forall i :: 0 <= i < |r| ==> r[i] in s
  {
    if s == [] then []
    else
      var p := s[..|s| - 1];
      assert s == p + [s[|s| - 1]];
      var r := Insert(s[|s| - 1], SortBy(p, key), key);
      SameMembers(r, s);
      r
  }

  /** Sequences with the same multiset have the same members. */
  lemma SameMembers<T>(a: seq<T>, b: seq<T>)
    requires multiset(a) == multiset(b)
    ensures forall i :: 0 <= i < |a| ==> a[i] in b
    ensures forall i :: 0 <= i < |b| ==> b[i] in a
  {
    forall i | 0 <= i < |a| ensures a[i] in b {
      assert a[i] in multiset(a);
    }
    forall i | 0 <= i < |b| ensures b[i] in a {
      assert b[i] in multiset(b);
    }
  }

  /** One step of SortBy: the last element is inserted into the sorted prefix. */
  lemma SortBySnoc<T>(s: seq<T>, key: T -> real)
    requires s != []
    ensures SortBy(s, key) == Insert(s[|s| - 1], SortBy(s[..|s| - 1], key), key)
  {
  }

  /** The elements of s whose key is k, in order. */
  function WithKey<T(==)>(s: seq<T>, key: T -> real, k: real): seq<T>
  {
    if s == [] then []
    else WithKey(s[..|s| - 1], key, k) + (if key(s[|s| - 1]) == k then [s[|s| - 1]] else [])
  }

  lemma {:induction false} WithKeyAppend<T>(a: seq<T>, b: seq<T>, key: T -> real, k: real)
    ensures WithKey(a + b, key, k) == WithKey(a, key, k) + WithKey(b, key, k)
    decreases |b|
  {
    if b == [] {
      assert a + b == a;
    } else {
      var b' := b[..|b| - 1];
      assert (a + b)[..|a + b| - 1] == a + b';
      WithKeyAppend(a, b', key, k);
    }
  }

  lemma WithKeyOne<T>(x: T, key: T -> real, k: real)
    ensures WithKey([x], key, k) == if key(x) == k then [x] else []
  {
    assert [x][..0] == [];
  }

  lemma {:induction false} WithKeyNone<T>(s: seq<T>, key: T -> real, k: real)
    requires forall y :: y in s ==> key(y) != k
    ensures WithKey(s, key, k) == []
    decreases |s|
  {
    if s != [] {
      assert s[|s| - 1] in s;
      WithKeyNone(s[..|s| - 1], key, k);
    }
  }

  lemma InsertWithKeyFront<T>(x: T, s: seq<T>, key: T -> real, k: real)
    requires SortedBy(s, key) && s != [] && key(x) < key(s[0])
    ensures WithKey([x] + s, key, k) == WithKey(s, key, k) + (if key(x) == k then [x] else [])
  {
    WithKeyOne(x, key, k);
    WithKeyAppend([x], s, key, k);
    if key(x) == k {
      forall y | y in s ensures key(y) != k {
        var i :| 0 <= i < |s| && s[i] == y;
        assert key(s[0]) <= key(s[i]);
      }
      WithKeyNone(s, key, k);
    }
  }

  lemma {:induction false} InsertWithKey<T>(x: T, s: seq<T>, key: T -> real, k: real)
    requires SortedBy(s, key)
    ensures WithKey(Insert(x, s, key), key, k) == WithKey(s, key, k) + (if key(x) == k then [x] else [])
    decreases |s|
  {
    if s == [] {
      WithKeyOne(x, key, k);
    } else if key(x) < key(s[0]) {
      InsertWithKeyFront(x, s, key, k);
    } else {
      var u := s[1..];
      var t := Insert(x, u, key);
      InsertWithKey(x, u, key, k);
      WithKeyCons(s[0], u, t, key, k, if key(x) == k then [x] else []);
      assert [s[0]] + u == s;
    }
  }

  lemma WithKeyCons<T>(y: T, u: seq<T>, t: seq<T>, key: T -> real, k: real, tail: seq<T>)
    requires WithKey(t, key, k) == WithKey(u, key, k) + tail
    ensures WithKey([y] + t, key, k) == WithKey([y] + u, key, k) + tail
  {
    WithKeyAppend([y], t, key, k);
    WithKeyAppend([y], u, key, k);
  }

  /** Stability: among elements with equal keys the sort keeps the original order. */
  lemma {:induction false} SortByStable<T>(s: seq<T>, key: T -> real, k: real)
    ensures WithKey(SortBy(s, key), key, k) == WithKey(s, key, k)
    decreases |s|
  {
    if s != [] {
      var p := s[..|s| - 1];
      SortByStable(p, key, k);
      InsertWithKey(s[|s| - 1], SortBy(p, key), key, k);
    }
  }

  lemma {:induction false} InsertAtEnd<T>(x: T, s: seq<T>, key: T -> real)
    requires SortedBy(s, key)
    requires forall y :: y in s ==> key(y) <= key(x)
    ensures Insert(x, s, key) == s + [x]
    decreases |s|
  {
    if s != [] {
      assert s[0] in s;
      InsertAtEnd(x, s[1..], key);
      assert s == [s[0]] + s[1..];
    }
  }

  /** Sorting an already sorted list changes nothing. */
  lemma {:induction false} SortBySorted<T>(s: seq<T>, key: T -> real)
    requires SortedBy(s, key)
    ensures SortBy(s, key) == s
    decreases |s|
  {
    if s != [] {
      var p, x := s[..|s| - 1], s[|s| - 1];
      SortedPrefix(s, key);
      calc {
        SortBy(s, key);
        { SortBySnoc(s, key); }
        Insert(x, SortBy(p, key), key);
        { SortBySorted(p, key); }
        Insert(x, p, key);
        { InsertAtEnd(x, p, key); }
        p + [x];
        { assert p + [x] == s; }
        s;
      }
    }
  }

  /** The last element of a sorted non-empty list carries the largest key. */
  lemma LastIsMax<T>(s: seq<T>, key: T -> real)
    requires SortedBy(s, key) && s != []
    ensures forall i :: 0 <= i < |s| ==> key(s[i]) <= key(s[|s| - 1])
  {
  }

  /** list.sort(key=key) on a list object: the array's contents are replaced by their sorted
      order. */
  method SortInPlace<T(==)>(a: array<T>, key: T -> real)
    modifies a
    ensures a[..] == SortBy(old(a[..]), key)
  {
    var sorted := SortBy(a[..], key);
    assert |sorted| == a.Length by {
      assert |multiset(sorted)| == |multiset(a[..])|;
    }
    forall i | 0 <= i < a.Length {
      a[i] := sorted[i];
    }
  }

  /** Dropping the last element of a sorted list leaves a sorted list below it. */
  lemma SortedPrefix<T>(s: seq<T>, key: T -> real)
    requires SortedBy(s, key) && s != []
    ensures SortedBy(s[..|s| - 1], key)
    ensures forall y :: y in s[..|s| - 1] ==> key(y) <= key(s[|s| - 1])
  {
    var p := s[..|s| - 1];
    forall i, j | 0 <= i < j < |p| ensures key(p[i]) <= key(p[j]) {
      assert p[i] == s[i] && p[j] == s[j];
    }
    forall y | y in p ensures key(y) <= key(s[|s| - 1]) {
      var i :| 0 <= i < |p| && p[i] == y;
      assert s[i] == y;
    }
  }

  lemma InsertIncreasingFront<T>(x: T, s: seq<T>, key: T -> real)
    requires IncreasingBy(s, key) && s != [] && key(x) < key(s[0])
    ensures IncreasingBy([x] + s, key)
  {
    var r := [x] + s;
    forall i, j | 0 <= i < j < |r| ensures key(r[i]) < key(r[j]) {
      if i == 0 {
        assert key(s[0]) <= key(s[j - 1]);
      } else {
        assert r[i] == s[i - 1] && r[j] == s[j - 1];
      }
    }
  }

  lemma InsertIncreasingCons<T>(y: T, t: seq<T>, key: T -> real)
    requires IncreasingBy(t, key)
    requires forall i :: 0 <= i < |t| ==> key(y) < key(t[i])
    ensures IncreasingBy([y] + t, key)
  {
    var r := [y] + t;
    forall i, j | 0 <= i < j < |r| ensures key(r[i]) < key(r[j]) {
      assert r[j] == t[j - 1];
      if i > 0 {
        assert r[i] == t[i - 1];
      }
    }
  }

  lemma {:induction false} InsertIncreasing<T>(x: T, s: seq<T>, key: T -> real)
    requires IncreasingBy(s, key)
    requires key(x) !in KeysOf(s, key)
    ensures IncreasingBy(Insert(x, s, key), key)
    decreases |s|
  {
    if s == [] {
    } else if key(x) < key(s[0]) {
      InsertIncreasingFront(x, s, key);
    } else {
      assert s[0] in s;
      assert key(x) > key(s[0]);
      var u := s[1..];
      assert KeysOf(u, key) <= KeysOf(s, key) by {
        forall y | y in u ensures y in s { }
      }
      InsertIncreasing(x, u, key);
      var t := Insert(x, u, key);
      forall i | 0 <= i < |t| ensures key(s[0]) < key(t[i]) {
        if t[i] != x {
          assert t[i] in multiset(t);
          assert t[i] in u;
          var j :| 0 <= j < |u| && u[j] == t[i];
          assert s[j + 1] == t[i];
        }
      }
      InsertIncreasingCons(s[0], t, key);
    }
  }

  /** Sorting a list whose keys are pairwise different gives strictly increasing keys. */
  lemma {:induction false} SortByIncreasing<T>(s: seq<T>, key: T -> real)
    requires DistinctBy(s, key)
    ensures IncreasingBy(SortBy(s, key), key)
    decreases |s|
  {
    if s != [] {
      var p := s[..|s| - 1];
      var x := s[|s| - 1];
      SortByIncreasing(p, key);
      assert key(x) !in KeysOf(SortBy(p, key), key) by {
        forall y | y in SortBy(p, key) ensures key(y) != key(x) {
          var i :| 0 <= i < |p| && p[i] == y;
          assert key(s[i]) != key(s[|s| - 1]);
        }
      }
      InsertIncreasing(x, SortBy(p, key), key);
    }
  }

  // ---------------------------------------------------------------- duplicate suppression

  /** s[i] is the first element of s carrying its key. */
  predicate FirstOfKey<T(==)>(s: seq<T>, key: T -> real, i: int) {
    0 <= i < |s| && forall j :: 0 <= j < i ==> key(s[j]) != key(s[i])
  }

  /** The loop `if key(x) not in seen: seen.add(key(x)); unique.append(x)` over s. */
  /** Every key of s survives dedup and sort: some element of the result carries it. */
  lemma SortDedupKeepsKey<T>(s: seq<T>, key: T -> real, x: T)
    requires x in s
    ensures exists i :: 0 <= i < |SortBy(DedupBy(s, key), key)| && key(SortBy(DedupBy(s, key), key)[i]) == key(x)
  {
    var d := DedupBy(s, key);
    var r := SortBy(d, key);
    assert key(x) in KeysOf(s, key);
    var q :| q in d && key(q) == key(x);
    assert q in multiset(d);
    assert q in r;
    var i :| 0 <= i < |r| && r[i] == q;
  }

  /** Suppressing duplicates and then sorting keeps exactly the first element of each key. */
  lemma SortDedupFirst<T>(s: seq<T>, key: T -> real, x: T)
    ensures x in SortBy(DedupBy(s, key), key) <==> exists i :: FirstOfKey(s, key, i) && s[i] == x
  {
    var d := DedupBy(s, key);
    var r := SortBy(d, key);
    if x in r {
      assert x in multiset(r);
      assert x in d;
      DedupByOnlyFirst(s, key, x);
    }
    if i :| FirstOfKey(s, key, i) && s[i] == x {
      DedupByKeepsFirst(s, key, i);
      assert x in multiset(d);
      assert x in r;
    }
  }

  function DedupBy<T(==)>(s: seq<T>, key: T -> real): (r: seq<T>)
    ensures DistinctBy(r, key)
    ensures KeysOf(r, key) == KeysOf(s, key)
    ensures forall i :: 0 <= i < |r| ==> r[i] in s
  {
    if s == [] then []
    else
      var p := s[..|s| - 1];
      var x := s[|s| - 1];
      var d := DedupBy(p, key);
      assert s == p + [x];
      KeysOfSnoc(p, x, key);
      assert forall y :: y in p ==> y in s;
      if key(x) in KeysOf(d, key) then d
      else
        KeysOfSnoc(d, x, key);
        assert forall i :: 0 <= i < |d| ==> d[i] in d;
        d + [x]
  }

  lemma KeysOfSnoc<T>(a: seq<T>, x: T, key: T -> real)
    ensures KeysOf(a + [x], key) == KeysOf(a, key) + {key(x)}
  {
    assert forall y :: y in a + [x] <==> y in a || y == x;
  }

  /** The first element of each key survives duplicate suppression. */
  lemma {:induction false} DedupByKeepsFirst<T>(s: seq<T>, key: T -> real, i: int)
    requires FirstOfKey(s, key, i)
    ensures s[i] in DedupBy(s, key)
    decreases |s|
  {
    var p := s[..|s| - 1];
    var x := s[|s| - 1];
    var d := DedupBy(p, key);
    if i < |p| {
      assert FirstOfKey(p, key, i);
      DedupByKeepsFirst(p, key, i);
    }
  }

  /** Nothing but the first element of a key survives duplicate suppression. */
  lemma {:induction false} DedupByOnlyFirst<T>(s: seq<T>, key: T -> real, y: T)
    requires y in DedupBy(s, key)
    ensures exists i :: FirstOfKey(s, key, i) && s[i] == y
    decreases |s|
  {
    var p := s[..|s| - 1];
    var x := s[|s| - 1];
    var d := DedupBy(p, key);
    if y in d {
      DedupByOnlyFirst(p, key, y);
      var i :| FirstOfKey(p, key, i) && p[i] == y;
      assert FirstOfKey(s, key, i);
    } else {
      assert y == x && key(x) !in KeysOf(p, key);
      forall j | 0 <= j < |p| ensures key(s[j]) != key(x) {
        assert p[j] in p;
      }
      assert FirstOfKey(s, key, |p|);
    }
  }

  /** One step of the duplicate-suppression loop. */
  lemma DedupBySnoc<T>(s: seq<T>, x: T, key: T -> real)
    ensures DedupBy(s + [x], key)
         == if key(x) in KeysOf(DedupBy(s, key), key) then DedupBy(s, key) else DedupBy(s, key) + [x]
  {
    assert (s + [x])[..|s|] == s;
  }

  /** The duplicate-suppression loop: a `seen` set of keys grows beside the list it guards. */
  method Dedup<T(==)>(s: seq<T>, key: T -> real) returns (unique: seq<T>)
    ensures unique == DedupBy(s, key)
  {
    var seen: set<real> := {};
    unique := [];
    var k := 0;
    while k < |s|
      invariant 0 <= k <= |s|
      invariant unique == DedupBy(s[..k], key)
      invariant seen == KeysOf(unique, key)
    {
      var x := s[k];
      assert s[..k + 1] == s[..k] + [x];
      DedupBySnoc(s[..k], x, key);
      if key(x) !in seen {
        seen := seen + {key(x)};
        KeysOfSnoc(unique, x, key);
        unique := unique + [x];
      }
      k := k + 1;
    }
    assert s[..|s|] == s;
  }

  // ---------------------------------------------------------------- pooling and filtering

  /** The lists of several patterns' matches, pooled in pattern order. */
  function Flatten<T>(ss: seq<seq<T>>): seq<T>
  {
    if ss == [] then [] else Flatten(ss[..|ss| - 1]) + ss[|ss| - 1]
  }

  lemma FlattenSnoc<T>(ss: seq<seq<T>>, s: seq<T>)
    ensures Flatten(ss + [s]) == Flatten(ss) + s
  {
    assert (ss + [s])[..|ss|] == ss;
  }

  /** The pooled prefix grows by one pattern's list at a time. */
  lemma FlattenPrefix<T>(ss: seq<seq<T>>, i: nat)
    requires i < |ss|
    ensures Flatten(ss[..i + 1]) == Flatten(ss[..i]) + ss[i]
  {
    assert ss[..i + 1] == ss[..i] + [ss[i]];
    FlattenSnoc(ss[..i], ss[i]);
  }

  /** Extending a prefix of ms by its next element. */
  lemma PrefixStep<T>(before: seq<T>, ms: seq<T>, j: nat)
    requires j < |ms|
    ensures (before + ms[..j]) + [ms[j]] == before + ms[..j + 1]
  {
    assert ms[..j + 1] == ms[..j] + [ms[j]];
  }

  /** y occurs in the pooled list exactly when some pattern's list holds it. */
  lemma FlattenContents<T>(ss: seq<seq<T>>)
    ensures forall y :: y in Flatten(ss) <==>
              exists k, j :: 0 <= k < |ss| && 0 <= j < |ss[k]| && ss[k][j] == y
  {
    forall y | y in Flatten(ss)
      ensures exists k, j :: 0 <= k < |ss| && 0 <= j < |ss[k]| && ss[k][j] == y
    {
      var k, j := FlattenSource(ss, y);
    }
    forall y, k, j | 0 <= k < |ss| && 0 <= j < |ss[k]| && ss[k][j] == y
      ensures y in Flatten(ss)
    {
      FlattenMember(ss, k, j);
    }
  }

  /** Where an element of the pooled list came from. */
  lemma {:induction false} FlattenSource<T>(ss: seq<seq<T>>, y: T) returns (k: nat, j: nat)
    requires y in Flatten(ss)
    ensures k < |ss| && j < |ss[k]| && ss[k][j] == y
    decreases |ss|
  {
    var p, last := ss[..|ss| - 1], ss[|ss| - 1];
    if y in Flatten(p) {
      k, j := FlattenSource(p, y);
    } else {
      assert y in last;
      var i :| 0 <= i < |last| && last[i] == y;
      k, j := |ss| - 1, i;
    }
  }

  /** Every pattern's matches are part of the pooled list. */
  lemma {:induction false} FlattenMember<T>(ss: seq<seq<T>>, k: int, j: int)
    requires 0 <= k < |ss| && 0 <= j < |ss[k]|
    ensures ss[k][j] in Flatten(ss)
    decreases |ss|
  {
    var p, last := ss[..|ss| - 1], ss[|ss| - 1];
    if k < |p| {
      FlattenMember(p, k, j);
    } else {
      assert last[j] in last;
    }
  }

  /** The elements of s that satisfy keep, in order. */
  function Filter<T(==)>(s: seq<T>, keep: T -> bool): (r: seq<T>)
    ensures forall i :: 0 <= i < |r| ==> keep(r[i]) && r[i] in s
    ensures forall i :: 0 <= i < |s| && keep(s[i]) ==> s[i] in r
  {
    if s == [] then []
    else
      var p := s[..|s| - 1];
      assert s == p + [s[|s| - 1]];
      Filter(p, keep) + (if keep(s[|s| - 1]) then [s[|s| - 1]] else [])
  }

  lemma FilterSnoc<T>(s: seq<T>, x: T, keep: T -> bool)
    ensures Filter(s + [x], keep) == Filter(s, keep) + if keep(x) then [x] else []
  {
    assert (s + [x])[..|s|] == s;
  }

  // ---------------------------------------------------------------- ordering of strings

  /** Python's `<` on str: lexicographic by code point, a proper prefix first. */
  predicate LexLess(a: string, b: string)
  {
    if a == [] then b != []
    else b != [] && (a[0] < b[0] || (a[0] == b[0] && LexLess(a[1..], b[1..])))
  }

  lemma LexIrreflexive(a: string)
    ensures !LexLess(a, a)
  {
  }

  lemma {:induction false} LexTotal(a: string, b: string)
    ensures a == b || LexLess(a, b) || LexLess(b, a)
  {
    if a != [] && b != [] && a[0] == b[0] {
      LexTotal(a[1..], b[1..]);
      if a[1..] == b[1..] {
        assert a == [a[0]] + a[1..] && b == [b[0]] + b[1..];
      }
    }
  }

  lemma {:induction false} LexTransitive(a: string, b: string, c: string)
    requires LexLess(a, b) && LexLess(b, c)
    ensures LexLess(a, c)
  {
    if a != [] && a[0] == b[0] && b[0] == c[0] {
      LexTransitive(a[1..], b[1..], c[1..]);
    }
  }

  lemma {:induction false} LexAsymmetric(a: string, b: string)
    requires LexLess(a, b)
    ensures !LexLess(b, a)
  {
    if a != [] && a[0] == b[0] {
      LexAsymmetric(a[1..], b[1..]);
    }
  }

  /** Strings strictly increasing in Python's order: sorted and free of duplicates. */
  predicate StrictlySorted(s: seq<string>) {
    forall i, j :: 0 <= i < j < |s| ==> LexLess(s[i], s[j])
  }

  /** Adds x to a strictly sorted list unless it is already there. */
  function InsertName(x: string, s: seq<string>): (r: seq<string>)
    requires StrictlySorted(s)
    ensures StrictlySorted(r)
    ensures forall y :: y in r <==> y == x || y in s
  {
    if s == [] then [x]
    else if x == s[0] then s
    else if LexLess(x, s[0]) then
      assert forall j :: 0 <= j < |s| ==> LexLess(x, s[j]) by {
        forall j | 0 <= j < |s| ensures LexLess(x, s[j]) {
          if j > 0 { LexTransitive(x, s[0], s[j]); }
        }
      }
      [x] + s
    else
      LexTotal(x, s[0]);
      var t := InsertName(x, s[1..]);
      assert s == [s[0]] + s[1..];
      assert forall k :: 0 <= k < |t| ==> LexLess(s[0], t[k]) by {
        forall k | 0 <= k < |t| ensures LexLess(s[0], t[k]) {
          if t[k] != x {
            assert t[k] in t;
            assert t[k] in s[1..];
            var m :| 0 <= m < |s[1..]| && s[1..][m] == t[k];
            assert s[m + 1] == t[k];
          }
        }
      }
      [s[0]] + t
  }

  /** sorted(set(names)): the distinct names in Python's string order. */
  function SortedNames(names: seq<string>): (r: seq<string>)
    ensures StrictlySorted(r)
    ensures forall y :: y in r <==> y in names
  {
    if names == [] then []
    else
      var p := names[..|names| - 1];
      assert names == p + [names[|names| - 1]];
      InsertName(names[|names| - 1], SortedNames(p))
  }

  /** A strictly sorted list is determined by its elements. */
  lemma {:induction false} StrictlySortedUnique(a: seq<string>, b: seq<string>)
    requires StrictlySorted(a) && StrictlySorted(b)
    requires forall y :: y in a <==> y in b
    ensures a == b
    decreases |a|
  {
    if a == [] {
      assert forall i :: 0 <= i < |b| ==> b[i] in b;
    } else {
      assert b != [] by { assert a[0] in b; }
      if a[0] != b[0] {
        assert a[0] in a && b[0] in b;
        var k :| 0 <= k < |b| && b[k] == a[0];
        var m :| 0 <= m < |a| && a[m] == b[0];
        assert k > 0 && m > 0;
        LexAsymmetric(a[0], a[m]);
        assert false;
      }
      forall y ensures y in a[1..] <==> y in b[1..] {
        if y in a[1..] {
          var i :| 0 <= i < |a[1..]| && a[1..][i] == y;
          assert LexLess(a[0], a[i + 1]);
          LexIrreflexive(y);
          assert y in b;
          assert y != b[0];
          assert b == [b[0]] + b[1..];
        }
        if y in b[1..] {
          var i :| 0 <= i < |b[1..]| && b[1..][i] == y;
          assert LexLess(b[0], b[i + 1]);
          LexIrreflexive(y);
          assert y in a;
          assert a == [a[0]] + a[1..];
        }
      }
      StrictlySortedUnique(a[1..], b[1..]);
      assert a == [a[0]] + a[1..] && b == [b[0]] + b[1..];
    }
  }
}
