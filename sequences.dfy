/**
 * Facts about sequences without repeated elements and about concatenating a
 * list of lists, shared by the edge and ordering proofs.
 */
module Sequences {

  /** No element occurs twice. */
  predicate Distinct<T(==)>(s: seq<T>) {
    forall a, b :: 0 <= a < b < |s| ==> s[a] != s[b]
  }

  lemma DistinctAppend<T>(a: seq<T>, b: seq<T>)
    requires Distinct(a) && Distinct(b)
    requires forall x :: x in a ==> x !in b
    ensures Distinct(a + b)
  {
    forall p, q | 0 <= p < q < |a + b| ensures (a + b)[p] != (a + b)[q] {
      if q < |a| {
        assert (a + b)[p] == a[p] && (a + b)[q] == a[q];
      } else if p < |a| {
        assert (a + b)[p] == a[p] && (a + b)[q] == b[q - |a|];
        assert a[p] in a;
      } else {
        assert (a + b)[p] == b[p - |a|] && (a + b)[q] == b[q - |a|];
      }
    }
  }

  /** In a list without repetitions each member occurs exactly once. */
  lemma {:induction false} DistinctCount<T>(s: seq<T>, x: T)
    requires Distinct(s)
    ensures multiset(s)[x] == if x in s then 1 else 0
  {
    if s != [] {
      var t := s[..|s| - 1];
      assert Distinct(t) by {
        forall p, q | 0 <= p < q < |t| ensures t[p] != t[q] {
          assert t[p] == s[p] && t[q] == s[q];
        }
      }
      DistinctCount(t, x);
      assert s == t + [s[|s| - 1]];
      assert s[|s| - 1] !in t by {
        forall p | 0 <= p < |t| ensures t[p] != s[|s| - 1] {
          assert t[p] == s[p];
        }
      }
      assert x in s <==> x in t || x == s[|s| - 1];
    }
  }

  /** Splitting off the last element of a list splits its count. */
  lemma MultisetLast<T>(s: seq<T>, x: T)
    requires s != []
    ensures multiset(s)[x] == multiset(s[..|s| - 1])[x] + (if x == s[|s| - 1] then 1 else 0)
    ensures x in s <==> x in s[..|s| - 1] || x == s[|s| - 1]
  {
    assert s == s[..|s| - 1] + [s[|s| - 1]];
  }

  /** A prefix one longer is the prefix and the next element; the prefix keeps the earlier elements. */
  lemma TakeOneMore<T>(s: seq<T>, i: nat)
    requires i < |s|
    ensures s[..i + 1] == s[..i] + [s[i]]
    ensures forall k :: 0 <= k < i ==> s[..i][k] == s[k]
  {
  }

  /** Appending one element is injective in the element. */
  lemma SnocInjective<T>(s: seq<T>, x: T, y: T)
    requires s + [x] == s + [y]
    ensures x == y
  {
    assert (s + [x])[|s|] == x;
  }

  /** Two equal elements at different positions count twice. */
  lemma RepeatCounts<T>(s: seq<T>, a: nat, b: nat)
    requires a < b < |s|
    ensures s[a] == s[b] ==> multiset(s)[s[a]] >= 2
  {
    assert s == s[..a] + [s[a]] + s[a + 1..b] + [s[b]] + s[b + 1..];
  }

  /** A list in which every element occurs at most once has no repetitions. */
  lemma CountAtMostOneIsDistinct<T>(s: seq<T>)
    requires forall x :: x in s ==> multiset(s)[x] <= 1
    ensures Distinct(s)
  {
    forall a, b | 0 <= a < b < |s| ensures s[a] != s[b] {
      RepeatCounts(s, a, b);
    }
  }

  /** Rearranging a list without repetitions leaves none. */
  lemma DistinctPermutation<T>(s: seq<T>, t: seq<T>)
    requires Distinct(s) && multiset(s) == multiset(t)
    ensures Distinct(t)
  {
    forall x | x in t ensures multiset(t)[x] <= 1 {
      DistinctCount(s, x);
    }
    CountAtMostOneIsDistinct(t);
  }

  /** The concatenation of a list of lists, first list first. */
  function Flatten<T>(parts: seq<seq<T>>): (r: seq<T>)
    ensures parts == [] ==> r == []
  {
    if parts == [] then [] else Flatten(parts[..|parts| - 1]) + parts[|parts| - 1]
  }

  /** Extending the prefix by one part appends that part. */
  lemma FlattenStep<T>(parts: seq<seq<T>>, j: nat)
    requires j < |parts|
    ensures Flatten(parts[..j + 1]) == Flatten(parts[..j]) + parts[j]
  {
    assert parts[..j + 1][..j] == parts[..j];
  }

  /** An element of the concatenation comes from some part, and every part's elements are in it. */
  lemma {:induction false} FlattenMember<T>(parts: seq<seq<T>>, x: T)
    ensures x in Flatten(parts) <==> exists j :: 0 <= j < |parts| && x in parts[j]
  {
    if parts != [] {
      var init := parts[..|parts| - 1];
      FlattenMember(init, x);
      assert x in Flatten(parts) <==> x in Flatten(init) || x in parts[|parts| - 1];
      if exists j :: 0 <= j < |init| && x in init[j] {
        var j :| 0 <= j < |init| && x in init[j];
        assert parts[j] == init[j];
      }
      if exists j :: 0 <= j < |parts| && x in parts[j] {
        var j :| 0 <= j < |parts| && x in parts[j];
        if j < |init| {
          assert init[j] == parts[j];
        }
      }
    }
  }

  /** Parts that are each without repeats and pairwise disjoint concatenate to a list without repeats. */
  lemma {:induction false} FlattenDistinct<T>(parts: seq<seq<T>>)
    requires forall j :: 0 <= j < |parts| ==> Distinct(parts[j])
    requires forall j1, j2, x :: 0 <= j1 < j2 < |parts| && x in parts[j1] ==> x !in parts[j2]
    ensures Distinct(Flatten(parts))
  {
    if parts != [] {
      var init, last := parts[..|parts| - 1], parts[|parts| - 1];
      FlattenDistinct(init);
      forall x | x in Flatten(init) ensures x !in last {
        FlattenMember(init, x);
        var j :| 0 <= j < |init| && x in init[j];
        assert init[j] == parts[j];
      }
      DistinctAppend(Flatten(init), last);
    }
  }

  /** Of two positions of the concatenation, the earlier one comes from the same part or an earlier one. */
  lemma {:induction false} FlattenOrder<T>(parts: seq<seq<T>>, a: nat, b: nat)
    requires a < b < |Flatten(parts)|
    ensures exists ja, jb :: 0 <= ja <= jb < |parts| && Flatten(parts)[a] in parts[ja] && Flatten(parts)[b] in parts[jb]
  {
    var init, last := parts[..|parts| - 1], parts[|parts| - 1];
    var f := Flatten(init);
    assert Flatten(parts) == f + last;
    if b < |f| {
      FlattenOrder(init, a, b);
      var ja, jb :| 0 <= ja <= jb < |init| && f[a] in init[ja] && f[b] in init[jb];
      assert init[ja] == parts[ja] && init[jb] == parts[jb];
    } else if a < |f| {
      FlattenMember(init, f[a]);
      var ja :| 0 <= ja < |init| && f[a] in init[ja];
      assert init[ja] == parts[ja];
      assert Flatten(parts)[b] == last[b - |f|];
    } else {
      assert Flatten(parts)[a] == last[a - |f|] && Flatten(parts)[b] == last[b - |f|];
    }
  }
}
