/** Sorting by a real-valued key, standing in for the std::sort calls of the renderer (lights by
    distance, UI sprites by depth). The lemmas about it rely only on what every correct sort
    guarantees: the result is ordered by the key and is a permutation of the input. The order among
    equal keys is that of this insertion sort, which std::sort does not promise. */
module Sorting {
  ghost predicate SortedBy<T>(s: seq<T>, key: T -> real)
  {
    forall i, j :: 0 <= i < j < |s| ==> key(s[i]) <= key(s[j])
  }

  /** x placed before the first element of s whose key is not smaller than its own. */
  function InsertBy<T>(x: T, s: seq<T>, key: T -> real): (r: seq<T>)
    ensures multiset(r) == multiset(s) + multiset{x}
    ensures SortedBy(s, key) ==> SortedBy(r, key)
    ensures |r| == |s| + 1
  {
    if s == [] then [x]
    else if key(x) <= key(s[0]) then [x] + s
    else
      var rest := InsertBy(x, s[1..], key);
      assert s == [s[0]] + s[1..];
      InsertHead(s[0], s[1..], rest, x, key);
      [s[0]] + rest
  }

  /** The head of a sorted sequence stays in front when a larger element is inserted behind it. */
  lemma InsertHead<T>(h: T, t: seq<T>, rest: seq<T>, x: T, key: T -> real)
    requires multiset(rest) == multiset(t) + multiset{x}
    requires key(h) < key(x)
    requires SortedBy([h] + t, key) ==> SortedBy(t, key) && SortedBy(rest, key)
    ensures SortedBy([h] + t, key) ==> SortedBy([h] + rest, key)
  {
    if SortedBy([h] + t, key) {
      forall j | 0 <= j < |rest| ensures key(h) <= key(rest[j]) {
        assert rest[j] in multiset(rest);
        if rest[j] == x {
        } else {
          assert rest[j] in multiset(t);
          assert rest[j] in t;
          var k :| 0 <= k < |t| && t[k] == rest[j];
          assert ([h] + t)[0] == h && ([h] + t)[k + 1] == t[k];
          assert key(([h] + t)[0]) <= key(([h] + t)[k + 1]);
        }
      }
      var r := [h] + rest;
      forall i, j | 0 <= i < j < |r| ensures key(r[i]) <= key(r[j]) {
        if i > 0 {
          assert r[i] == rest[i - 1] && r[j] == rest[j - 1];
        }
      }
    }
  }

  /** Insertion sort by key. */
  function SortBy<T>(s: seq<T>, key: T -> real): (r: seq<T>)
    ensures multiset(r) == multiset(s) && |r| == |s|
    ensures SortedBy(r, key)
  {
    if s == [] then []
    else
      assert s == [s[0]] + s[1..];
      InsertBy(s[0], SortBy(s[1..], key), key)
  }

  /** The first n elements of a sorted permutation are the n smallest: none of them has a larger
      key than an input element that did not make it into them. */
  lemma SortedPrefixSmallest<T>(s: seq<T>, key: T -> real, n: nat)
    requires n <= |s|
    ensures var r := SortBy(s, key);
      forall i, y :: 0 <= i < n && y in s && y !in r[..n] ==> key(r[i]) <= key(y)
  {
    var r := SortBy(s, key);
    forall i, y | 0 <= i < n && y in s && y !in r[..n] ensures key(r[i]) <= key(y) {
      SortByMembers(s, key, y);
      var k :| 0 <= k < |r| && r[k] == y;
    }
  }

  /** A prefix of a sorted sequence is sorted. */
  lemma SortedPrefix<T>(s: seq<T>, key: T -> real, n: nat)
    requires n <= |s| && SortedBy(s, key)
    ensures SortedBy(s[..n], key)
  {
    forall i, j | 0 <= i < j < n ensures key(s[..n][i]) <= key(s[..n][j]) {
      assert s[..n][i] == s[i] && s[..n][j] == s[j];
    }
  }

  /** The first min(|s|, m) elements of the sorted permutation: as many as there are, up to m, all
      taken from s, in key order, and none with a larger key than an element of s left out. */
  lemma SortedTake<T>(s: seq<T>, key: T -> real, m: nat)
    ensures var n := if |s| > m then m else |s|;
      var t := SortBy(s, key)[..n];
      && |t| == n && SortedBy(t, key)
      && (forall x :: x in t ==> x in s)
      && (forall i, y :: 0 <= i < n && y in s && y !in t ==> key(t[i]) <= key(y))
  {
    var r := SortBy(s, key);
    var n := if |s| > m then m else |s|;
    SortedPrefixSmallest(s, key, n);
    SortedPrefix(r, key, n);
    forall x | x in r[..n] ensures x in s {
      SortByMembers(s, key, x);
    }
  }

  /** Every element of a sorted permutation comes from the input, and the other way round. */
  lemma SortByMembers<T>(s: seq<T>, key: T -> real, x: T)
    ensures x in SortBy(s, key) <==> x in s
  {
    var r := SortBy(s, key);
    assert x in r <==> x in multiset(r);
    assert x in s <==> x in multiset(s);
  }
}
