/**
 * Specifications shared by every "find the record with id X" strategy of the
 * system: the first record in list order with a key, the id -> record map that a
 * loop over the list builds, and the list sorted by key. They are generic in the
 * record type; `key` projects a record to its integer id.
 */
module Lookup {
  import opened Wrappers

  /** No two records of `s` share a key. */
  predicate UniqueKeys<T>(s: seq<T>, key: T -> int) {
    forall i, j :: 0 <= i < j < |s| ==> key(s[i]) != key(s[j])
  }

  /** Ascending (non-strictly) by key. */
  predicate SortedBy<T>(s: seq<T>, key: T -> int) {
    forall i, j :: 0 <= i < j < |s| ==> key(s[i]) <= key(s[j])
  }

  /** The position of the first record of `s` whose key is `k`. */
  function FirstIndex<T>(s: seq<T>, key: T -> int, k: int): (r: Option<nat>)
    ensures r.None? <==> forall i :: 0 <= i < |s| ==> key(s[i]) != k
    ensures r.Some? ==> r.value < |s| && key(s[r.value]) == k
    ensures r.Some? ==> forall j :: 0 <= j < r.value ==> key(s[j]) != k
  {
    if s == [] then None
    else if key(s[0]) == k then Some(0)
    else match FirstIndex(s[1..], key, k)
      case None => None
      case Some(i) => Some(i + 1)
  }

  /** The first record of `s` whose key is `k`, as a sequential scan finds it. */
  function FirstWith<T>(s: seq<T>, key: T -> int, k: int): (r: Option<T>)
  {
    match FirstIndex(s, key, k)
    case None => None
    case Some(i) => Some(s[i])
  }

  /** The position of the last record of `s` whose key is `k`. */
  function LastIndex<T>(s: seq<T>, key: T -> int, k: int): (r: Option<nat>)
    ensures r.None? <==> forall i :: 0 <= i < |s| ==> key(s[i]) != k
    ensures r.Some? ==> r.value < |s| && key(s[r.value]) == k
    ensures r.Some? ==> forall j :: r.value < j < |s| ==> key(s[j]) != k
  {
    if s == [] then None
    else if key(s[|s| - 1]) == k then Some(|s| - 1)
    else
      assert forall i :: 0 <= i < |s| - 1 ==> s[..|s| - 1][i] == s[i];
      LastIndex(s[..|s| - 1], key, k)
  }

  /** The last record of `s` whose key is `k`. */
  function LastWith<T>(s: seq<T>, key: T -> int, k: int): (r: Option<T>)
  {
    match LastIndex(s, key, k)
    case None => None
    case Some(i) => Some(s[i])
  }

  /** Replacing a record by one with the same key moves no key's last position. */
  lemma LastIndexReplace<T>(s: seq<T>, i: nat, y: T, key: T -> int, k: int)
    requires i < |s| && key(y) == key(s[i])
    ensures LastIndex(s[i := y], key, k) == LastIndex(s, key, k)
  {
    var t := s[i := y];
    assert forall j :: 0 <= j < |s| ==> key(t[j]) == key(s[j]);
  }

  /** With unique keys the first and the last record with a key are the same one. */
  lemma FirstIsLastWhenUnique<T>(s: seq<T>, key: T -> int, k: int)
    requires UniqueKeys(s, key)
    ensures FirstIndex(s, key, k) == LastIndex(s, key, k)
  {
  }

  /** The map that `for r in s: m[key(r)] = r` builds, starting from an empty map. */
  function IndexBy<T>(s: seq<T>, key: T -> int): map<int, T> {
    if s == [] then map[] else IndexBy(s[..|s| - 1], key)[key(s[|s| - 1]) := s[|s| - 1]]
  }

  /**
   * The keys of the index are the keys of `s`, each key maps to a record of `s`
   * with that key, and that record is the LAST one with it.
   */
  lemma {:induction false} IndexByKeys<T>(s: seq<T>, key: T -> int)
    ensures var m := IndexBy(s, key);
      && (forall i :: 0 <= i < |s| ==> key(s[i]) in m)
      && (forall k :: k in m ==> key(m[k]) == k && m[k] in s)
      && (forall i :: 0 <= i < |s| && (forall j :: i < j < |s| ==> key(s[j]) != key(s[i])) ==>
            m[key(s[i])] == s[i])
  {
    if s != [] {
      var p := s[..|s| - 1];
      IndexByKeys(p, key);
      assert forall i :: 0 <= i < |p| ==> p[i] == s[i];
    }
  }

  /** Appending a record overwrites its key's entry. */
  lemma IndexBySnoc<T>(s: seq<T>, x: T, key: T -> int)
    ensures IndexBy(s + [x], key) == IndexBy(s, key)[key(x) := x]
  {
    assert (s + [x])[..|s + [x]| - 1] == s;
  }

  /** The key of a record found in the index is the key that was looked up. */
  function Get<T>(m: map<int, T>, k: int): Option<T> {
    if k in m then Some(m[k]) else None
  }

  /** Looking a key up in the index gives the last record with that key, whether keys repeat or not. */
  lemma {:induction false} IndexByIsLast<T>(s: seq<T>, key: T -> int, k: int)
    ensures Get(IndexBy(s, key), k) == LastWith(s, key, k)
  {
    if s != [] {
      IndexByIsLast(s[..|s| - 1], key, k);
    }
  }

  /** With unique keys, the index holds exactly what a sequential scan finds. */
  lemma IndexAgreesWithScan<T>(s: seq<T>, key: T -> int, k: int)
    requires UniqueKeys(s, key)
    ensures Get(IndexBy(s, key), k) == FirstWith(s, key, k)
  {
    var m := IndexBy(s, key);
    IndexByKeys(s, key);
    match FirstIndex(s, key, k)
    case None =>
      assert k !in m;
    case Some(i) =>
      assert forall j :: i < j < |s| ==> key(s[j]) != key(s[i]);
  }

  /** With unique keys, any record of `s` carrying key `k` is the one a scan finds. */
  lemma UniqueMemberIsFirst<T>(s: seq<T>, key: T -> int, x: T)
    requires UniqueKeys(s, key) && x in s
    ensures FirstWith(s, key, key(x)) == Some(x)
  {
    var i :| 0 <= i < |s| && s[i] == x;
    var f := FirstIndex(s, key, key(x));
    assert f.Some? && key(s[f.value]) == key(s[i]);
  }

  /** `x` inserted into `s` in front of the first record whose key is not smaller. */
  function InsertBy<T>(x: T, s: seq<T>, key: T -> int): (r: seq<T>)
    ensures multiset(r) == multiset(s) + multiset{x}
    ensures |r| == |s| + 1
  {
    if s == [] then [x]
    else if key(x) <= key(s[0]) then [x] + s
    else
      assert s == [s[0]] + s[1..];
      [s[0]] + InsertBy(x, s[1..], key)
  }

  /** `sorted(s, key=key)`: a stable insertion sort. */
  function SortBy<T>(s: seq<T>, key: T -> int): (r: seq<T>)
    ensures |r| == |s|
  {
    if s == [] then [] else InsertBy(s[0], SortBy(s[1..], key), key)
  }

  /** Inserting a record no smaller than a lower bound of `s` keeps that bound. */
  lemma {:induction false} InsertByBound<T>(x: T, s: seq<T>, key: T -> int, b: int)
    requires b <= key(x) && forall i :: 0 <= i < |s| ==> b <= key(s[i])
    ensures forall i :: 0 <= i < |InsertBy(x, s, key)| ==> b <= key(InsertBy(x, s, key)[i])
  {
    if s != [] && key(x) > key(s[0]) {
      InsertByBound(x, s[1..], key, b);
    }
  }

  lemma {:induction false} InsertBySorted<T>(x: T, s: seq<T>, key: T -> int)
    requires SortedBy(s, key)
    ensures SortedBy(InsertBy(x, s, key), key)
  {
    if s != [] && key(x) > key(s[0]) {
      InsertBySorted(x, s[1..], key);
      InsertByBound(x, s[1..], key, key(s[0]));
    }
  }

  /** The sorted copy is sorted by key and is a permutation of the original. */
  lemma SortByCorrect<T>(s: seq<T>, key: T -> int)
    ensures SortedBy(SortBy(s, key), key)
    ensures multiset(SortBy(s, key)) == multiset(s)
  {
    SortBySorted(s, key);
    SortByPermutes(s, key);
  }

  lemma {:induction false} SortBySorted<T>(s: seq<T>, key: T -> int)
    ensures SortedBy(SortBy(s, key), key)
  {
    if s != [] {
      SortBySorted(s[1..], key);
      InsertBySorted(s[0], SortBy(s[1..], key), key);
    }
  }

  lemma {:induction false} SortByPermutes<T>(s: seq<T>, key: T -> int)
    ensures multiset(SortBy(s, key)) == multiset(s)
  {
    if s != [] {
      SortByPermutes(s[1..], key);
      assert s == [s[0]] + s[1..];
    }
  }

  /** Sorting a list that is already sorted by key leaves it as it is. */
  lemma {:induction false} SortBySortedIsIdentity<T>(s: seq<T>, key: T -> int)
    requires SortedBy(s, key)
    ensures SortBy(s, key) == s
  {
    if s != [] {
      SortBySortedIsIdentity(s[1..], key);
      assert SortBy(s[1..], key) == s[1..];
      assert s == [s[0]] + s[1..];
    }
  }

  /**
   * With unique keys, a record found by key in the sorted copy is the one a scan
   * of the original finds, and a key absent from the sorted copy is absent from
   * the original.
   */
  lemma SortedCopyAgrees<T>(t: seq<T>, key: T -> int, k: int)
    requires UniqueKeys(t, key)
    ensures forall x :: x in SortBy(t, key) && key(x) == k ==> FirstWith(t, key, k) == Some(x)
    ensures (forall j :: 0 <= j < |SortBy(t, key)| ==> key(SortBy(t, key)[j]) != k) ==> FirstWith(t, key, k) == None
  {
    SortByCorrect(t, key);
    var s := SortBy(t, key);
    forall x | x in s && key(x) == k
      ensures FirstWith(t, key, k) == Some(x)
    {
      assert x in multiset(s);
      UniqueMemberIsFirst(t, key, x);
    }
    if forall j :: 0 <= j < |s| ==> key(s[j]) != k {
      forall i | 0 <= i < |t|
        ensures key(t[i]) != k
      {
        assert t[i] in multiset(t);
      }
    }
  }

  /** `[r for r in s if key(r) != k]`. */
  function Without<T>(s: seq<T>, key: T -> int, k: int): seq<T> {
    if s == [] then []
    else Without(s[..|s| - 1], key, k) + if key(s[|s| - 1]) == k then [] else [s[|s| - 1]]
  }

  /** The filtered list holds exactly the records of `s` whose key is not `k`. */
  lemma {:induction false} WithoutMembers<T>(s: seq<T>, key: T -> int, k: int)
    ensures var r := Without(s, key, k);
      && |r| <= |s|
      && (forall i :: 0 <= i < |r| ==> r[i] in s && key(r[i]) != k)
      && (forall i :: 0 <= i < |s| && key(s[i]) != k ==> s[i] in r)
  {
    if s != [] {
      var p := s[..|s| - 1];
      WithoutMembers(p, key, k);
      assert s == p + [s[|s| - 1]];
    }
  }

  /** Filtering keeps order: it distributes over concatenation... */
  lemma {:induction false} WithoutConcat<T>(a: seq<T>, b: seq<T>, key: T -> int, k: int)
    ensures Without(a + b, key, k) == Without(a, key, k) + Without(b, key, k)
  {
    if b == [] {
      assert a + b == a;
    } else {
      var p := b[..|b| - 1];
      assert (a + b)[..|a + b| - 1] == a + p;
      WithoutConcat(a, p, key, k);
    }
  }

  /** ...and keeps every record whose key differs. */
  lemma {:induction false} WithoutAbsent<T>(s: seq<T>, key: T -> int, k: int)
    requires forall i :: 0 <= i < |s| ==> key(s[i]) != k
    ensures Without(s, key, k) == s
  {
    if s != [] {
      WithoutAbsent(s[..|s| - 1], key, k);
    }
  }

  /** Filtering a key out of the list removes it from the index and leaves the other entries. */
  lemma {:induction false} IndexByWithout<T>(s: seq<T>, key: T -> int, k: int)
    ensures IndexBy(Without(s, key, k), key) == IndexBy(s, key) - {k}
  {
    if s != [] {
      var p := s[..|s| - 1];
      var last := s[|s| - 1];
      assert s == p + [last];
      IndexByWithout(p, key, k);
      if key(last) != k {
        WithoutSnocKept(p, last, key, k);
      } else {
        WithoutSnocDropped(p, last, key, k);
      }
    }
  }

  lemma WithoutSnocKept<T>(p: seq<T>, last: T, key: T -> int, k: int)
    requires key(last) != k
    requires IndexBy(Without(p, key, k), key) == IndexBy(p, key) - {k}
    ensures IndexBy(Without(p + [last], key, k), key) == IndexBy(p + [last], key) - {k}
  {
    var m := IndexBy(p, key);
    assert (p + [last])[..|p|] == p;
    assert Without(p + [last], key, k) == Without(p, key, k) + [last];
    IndexBySnoc(p, last, key);
    IndexBySnoc(Without(p, key, k), last, key);
    assert (m - {k})[key(last) := last] == m[key(last) := last] - {k};
  }

  lemma WithoutSnocDropped<T>(p: seq<T>, last: T, key: T -> int, k: int)
    requires key(last) == k
    requires IndexBy(Without(p, key, k), key) == IndexBy(p, key) - {k}
    ensures IndexBy(Without(p + [last], key, k), key) == IndexBy(p + [last], key) - {k}
  {
    var m := IndexBy(p, key);
    assert (p + [last])[..|p|] == p;
    assert Without(p + [last], key, k) == Without(p, key, k);
    IndexBySnoc(p, last, key);
    assert m - {k} == m[k := last] - {k};
  }

  /** Removing records keeps keys unique. */
  lemma WithoutUnique<T>(s: seq<T>, key: T -> int, k: int)
    requires UniqueKeys(s, key)
    ensures UniqueKeys(Without(s, key, k), key)
  {
    var r := Without(s, key, k);
    forall i, j | 0 <= i < j < |r|
      ensures key(r[i]) != key(r[j])
    {
      WithoutIndices(s, key, k, i, j);
    }
  }

  /** Two positions of the filtered list come from two positions of the original, in the same order. */
  lemma {:induction false} WithoutIndices<T>(s: seq<T>, key: T -> int, k: int, i: int, j: int)
    requires 0 <= i < j < |Without(s, key, k)|
    ensures exists i', j' :: 0 <= i' < j' < |s| && s[i'] == Without(s, key, k)[i] && s[j'] == Without(s, key, k)[j]
  {
    var p := s[..|s| - 1];
    var last := s[|s| - 1];
    var w := Without(p, key, k);
    assert forall t :: 0 <= t < |p| ==> p[t] == s[t];
    if j < |w| {
      WithoutIndices(p, key, k, i, j);
      var i', j' :| 0 <= i' < j' < |p| && p[i'] == w[i] && p[j'] == w[j];
      assert s[i'] == Without(s, key, k)[i] && s[j'] == Without(s, key, k)[j];
    } else {
      assert Without(s, key, k)[j] == last;
      WithoutMembers(p, key, k);
      assert w[i] in p;
      var i' :| 0 <= i' < |p| && p[i'] == w[i];
      assert s[i'] == Without(s, key, k)[i] && s[|s| - 1] == Without(s, key, k)[j];
    }
  }

  /** Replacing a record by one with the same key keeps the keys unique... */
  lemma ReplaceKeepsUnique<T>(s: seq<T>, i: nat, y: T, key: T -> int)
    requires i < |s| && key(y) == key(s[i]) && UniqueKeys(s, key)
    ensures UniqueKeys(s[i := y], key)
  {
    var t := s[i := y];
    assert forall j :: 0 <= j < |s| ==> key(t[j]) == key(s[j]);
  }

  /** ...and changes the index only at that key. */
  lemma IndexByReplace<T>(s: seq<T>, i: nat, y: T, key: T -> int)
    requires i < |s| && key(y) == key(s[i]) && UniqueKeys(s, key)
    ensures UniqueKeys(s[i := y], key)
    ensures IndexBy(s[i := y], key) == IndexBy(s, key)[key(y) := y]
  {
    ReplaceKeepsUnique(s, i, y, key);
    FirstIsLastWhenUnique(s, key, key(y));
    IndexByReplaceAt(s, i, y, key);
  }

  /**
   * Whatever the keys: replacing the last record with a key by one with the
   * same key rewrites that key's entry, and replacing an earlier one leaves
   * the index as it was, since a later record overwrites the entry.
   */
  lemma IndexByReplaceAt<T>(s: seq<T>, i: nat, y: T, key: T -> int)
    requires i < |s| && key(y) == key(s[i])
    ensures LastIndex(s, key, key(y)) == Some(i) ==> IndexBy(s[i := y], key) == IndexBy(s, key)[key(y) := y]
    ensures LastIndex(s, key, key(y)) != Some(i) ==> IndexBy(s[i := y], key) == IndexBy(s, key)
  {
    var m := IndexBy(s, key);
    var target := if LastIndex(s, key, key(y)) == Some(i) then m[key(y) := y] else m;
    forall k
      ensures Get(IndexBy(s[i := y], key), k) == Get(target, k)
    {
      IndexByIsLast(s, key, k);
      IndexByIsLast(s[i := y], key, k);
      LastIndexReplace(s, i, y, key, k);
    }
    SameLookups(IndexBy(s[i := y], key), target);
  }

  /** Two maps that answer every lookup alike are equal. */
  lemma SameLookups<T>(a: map<int, T>, b: map<int, T>)
    requires forall k :: Get(a, k) == Get(b, k)
    ensures a == b
  {
    forall k
      ensures k in a <==> k in b
      ensures k in a ==> a[k] == b[k]
    {
      assert Get(a, k) == Get(b, k);
    }
    assert a.Keys == b.Keys;
  }
}
