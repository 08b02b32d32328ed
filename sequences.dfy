/** Facts about sequences without repeated elements, shared by the stores. */
module Sequences {

  predicate Distinct<T(==)>(s: seq<T>) {
    forall i, j :: 0 <= i < j < |s| ==> s[i] != s[j]
  }

  lemma {:induction false} IndexOf<T>(s: seq<T>, x: T) returns (k: nat)
    requires x in s
    ensures k < |s| && s[k] == x
  {
    if s[0] == x {
      k := 0;
    } else {
      assert x in s[1..];
      k := IndexOf(s[1..], x);
      k := k + 1;
    }
  }

  /** A sequence has no repeats exactly when each element occurs at most once in its multiset. */
  lemma DistinctByMultiset<T>(s: seq<T>)
    requires forall x :: multiset(s)[x] <= 1
    ensures Distinct(s)
  {
    forall i, j | 0 <= i < j < |s| ensures s[i] != s[j] {
      var pre := s[..j];
      assert s == pre + [s[j]] + s[j + 1..];
      assert pre[i] == s[i];
      assert multiset(s)[s[j]] >= multiset(pre)[s[j]] + 1;
      assert multiset(pre)[s[i]] >= 1;
    }
  }

  lemma {:induction false} MultisetOfDistinct<T>(s: seq<T>)
    requires Distinct(s)
    ensures forall x :: multiset(s)[x] <= 1
  {
    if s != [] {
      MultisetOfDistinct(s[1..]);
      assert s == [s[0]] + s[1..];
      assert s[0] !in s[1..];
    }
  }

  /** Rearranging a sequence without repeats leaves none. */
  lemma PermutationKeepsDistinct<T>(s: seq<T>, t: seq<T>)
    requires Distinct(s) && multiset(s) == multiset(t)
    ensures Distinct(t)
  {
    MultisetOfDistinct(s);
    DistinctByMultiset(t);
  }
}
