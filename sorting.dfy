/**
 * Python's `sorted(xs, key=k)` on values: a stable sort by a key that is an
 * integer or "greater than every integer" (the `float('inf')` default used for
 * phases without a sequence number).
 */
module Sorting {

  /** A sort key: an integer, or Top, which sorts after every integer. */
  datatype Rank = At(n: int) | Top

  predicate RankLe(a: Rank, b: Rank) {
    match (a, b)
    case (_, Top) => true
    case (Top, At(_)) => false
    case (At(x), At(y)) => x <= y
  }

  ghost predicate SortedBy<T>(s: seq<T>, key: T -> Rank) {
    forall i, j :: 0 <= i < j < |s| ==> RankLe(key(s[i]), key(s[j]))
  }

  /** The elements of `s` whose key is `k`, in their order in `s`. */
  function WithKey<T>(s: seq<T>, key: T -> Rank, k: Rank): seq<T> {
    if s == [] then []
    else (if key(s[0]) == k then [s[0]] else []) + WithKey(s[1..], key, k)
  }

  /** Puts `x` in front of the first element whose key is not smaller than x's. */
  function Insert<T>(x: T, s: seq<T>, key: T -> Rank): seq<T> {
    if s == [] || RankLe(key(x), key(s[0])) then [x] + s
    else [s[0]] + Insert(x, s[1..], key)
  }

  /** Insertion sort: each element goes in front of the later ones with an equal key. */
  function SortBy<T>(s: seq<T>, key: T -> Rank): seq<T> {
    if s == [] then [] else Insert(s[0], SortBy(s[1..], key), key)
  }

  lemma {:induction false} InsertSorted<T>(x: T, s: seq<T>, key: T -> Rank)
    requires SortedBy(s, key)
    ensures SortedBy(Insert(x, s, key), key)
    ensures multiset(Insert(x, s, key)) == multiset(s) + multiset{x}
  {
    if s == [] || RankLe(key(x), key(s[0])) {
      assert Insert(x, s, key) == [x] + s;
    } else {
      var rest := Insert(x, s[1..], key);
      InsertSorted(x, s[1..], key);
      assert s == [s[0]] + s[1..];
      forall e | e in multiset(rest) ensures RankLe(key(s[0]), key(e)) {
        assert e in multiset(s[1..]) + multiset{x};
        if e in multiset(s[1..]) {
          var j :| 0 <= j < |s[1..]| && s[1..][j] == e;
          assert s[1 + j] == e;
        }
      }
      forall j | 0 <= j < |rest| ensures RankLe(key(s[0]), key(rest[j])) {
        assert rest[j] in multiset(rest);
      }
    }
  }

  /** `SortBy` returns a permutation of its input in ascending key order. */
  lemma {:induction false} SortByCorrect<T>(s: seq<T>, key: T -> Rank)
    ensures SortedBy(SortBy(s, key), key)
    ensures multiset(SortBy(s, key)) == multiset(s)
    ensures |SortBy(s, key)| == |s|
  {
    if s != [] {
      SortByCorrect(s[1..], key);
      InsertSorted(s[0], SortBy(s[1..], key), key);
      assert s == [s[0]] + s[1..];
    }
    assert |multiset(SortBy(s, key))| == |multiset(s)|;
  }

  lemma {:induction false} InsertWithKey<T>(x: T, s: seq<T>, key: T -> Rank, k: Rank)
    ensures WithKey(Insert(x, s, key), key, k)
         == (if key(x) == k then [x] else []) + WithKey(s, key, k)
  {
    var xs := if key(x) == k then [x] else [];
    if s == [] || RankLe(key(x), key(s[0])) {
      var t := [x] + s;
      assert t[0] == x && t[1..] == s;
      assert WithKey(t, key, k) == xs + WithKey(s, key, k);
    } else {
      var rest := Insert(x, s[1..], key);
      var t := [s[0]] + rest;
      var hs := if key(s[0]) == k then [s[0]] else [];
      InsertWithKey(x, s[1..], key, k);
      assert t[0] == s[0] && t[1..] == rest;
      assert WithKey(t, key, k) == hs + (xs + WithKey(s[1..], key, k));
      assert WithKey(s, key, k) == hs + WithKey(s[1..], key, k);
      assert key(x) != key(s[0]);
      assert hs == [] || xs == [];
    }
  }

  /** Stability: the elements with any one key keep their input order. */
  lemma {:induction false} SortByStable<T>(s: seq<T>, key: T -> Rank, k: Rank)
    ensures WithKey(SortBy(s, key), key, k) == WithKey(s, key, k)
  {
    if s != [] {
      SortByStable(s[1..], key, k);
      InsertWithKey(s[0], SortBy(s[1..], key), key, k);
    }
  }

  /** Sorting input that is already in order changes nothing. */
  lemma {:induction false} SortBySortedIsIdentity<T>(s: seq<T>, key: T -> Rank)
    requires SortedBy(s, key)
    ensures SortBy(s, key) == s
  {
    if s != [] {
      assert SortedBy(s[1..], key) by {
        forall i, j | 0 <= i < j < |s[1..]| ensures RankLe(key(s[1..][i]), key(s[1..][j])) {
          assert s[1..][i] == s[i + 1] && s[1..][j] == s[j + 1];
        }
      }
      SortBySortedIsIdentity(s[1..], key);
      if |s| > 1 {
        assert RankLe(key(s[0]), key(s[1]));
      }
      assert s == [s[0]] + s[1..];
    }
  }

  // ---- Integers, as in `sorted(parent_ids)` ----

  function IntRank(x: int): Rank { At(x) }

  ghost predicate Ascending(s: seq<int>) {
    forall i, j :: 0 <= i < j < |s| ==> s[i] <= s[j]
  }

  /** `sorted(xs)` for a list of integers. */
  function SortInts(s: seq<int>): (r: seq<int>)
    ensures |r| == |s|
  {
    SortByCorrect(s, IntRank);
    SortBy(s, IntRank)
  }

  /** `sorted` on integers: ascending, a permutation, and the identity on sorted input. */
  lemma SortIntsCorrect(s: seq<int>)
    ensures Ascending(SortInts(s))
    ensures multiset(SortInts(s)) == multiset(s)
    ensures Ascending(s) ==> SortInts(s) == s
  {
    SortByCorrect(s, IntRank);
    var r := SortInts(s);
    forall i, j | 0 <= i < j < |r| ensures r[i] <= r[j] {
      assert RankLe(IntRank(r[i]), IntRank(r[j]));
    }
    if Ascending(s) {
      assert SortedBy(s, IntRank) by {
        forall i, j | 0 <= i < j < |s| ensures RankLe(IntRank(s[i]), IntRank(s[j])) {
        }
      }
      SortBySortedIsIdentity(s, IntRank);
    }
  }

  /** The head of a sorted non-empty list of integers is its minimum. */
  lemma SortIntsHeadIsMin(s: seq<int>)
    requires s != []
    ensures SortInts(s)[0] in s
    ensures forall x :: x in s ==> SortInts(s)[0] <= x
  {
    SortIntsCorrect(s);
    var r := SortInts(s);
    assert r[0] in multiset(r);
    forall x | x in s ensures r[0] <= x {
      assert x in multiset(r);
      var j :| 0 <= j < |r| && r[j] == x;
    }
  }
}
