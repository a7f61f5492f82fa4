/**
 * `sort.Strings`, which `Generator.PrintGo` applies to the names of the free
 * functions it collected from a map, whose iteration order Go leaves
 * unspecified. Sorting is modelled by an insertion sort on a sequence; what
 * matters to the generator is that the result is sorted, is a permutation of
 * the input, and is therefore the same whatever order the names came in.
 */
module Sorting {
  import opened Strings

  /** No later string sorts strictly before an earlier one. */
  predicate Sorted(s: seq<string>) {
    forall i, j :: 0 <= i < j < |s| ==> !Less(s[j], s[i])
  }

  predicate StrictlySorted(s: seq<string>) {
    forall i, j :: 0 <= i < j < |s| ==> Less(s[i], s[j])
  }

  predicate Distinct(s: seq<string>) {
    forall i, j :: 0 <= i < j < |s| ==> s[i] != s[j]
  }

  /** Inserting `x` before the first element it sorts strictly before. */
  method Insert(r: seq<string>, x: string) returns (r': seq<string>)
    requires Sorted(r)
    ensures Sorted(r') && multiset(r') == multiset(r) + multiset{x}
  {
    var k := 0;
    while k < |r| && !Less(x, r[k])
      invariant 0 <= k <= |r|
      invariant forall i :: 0 <= i < k ==> !Less(x, r[i])
    {
      k := k + 1;
    }
    InsertSorted(r, x, k);
    r' := r[..k] + [x] + r[k..];
    assert r == r[..k] + r[k..];
  }

  /** Where the scan of `Insert` stops, the insertion keeps the sequence sorted. */
  lemma InsertSorted(r: seq<string>, x: string, k: nat)
    requires Sorted(r) && k <= |r|
    requires forall i :: 0 <= i < k ==> !Less(x, r[i])
    requires k < |r| ==> Less(x, r[k])
    ensures Sorted(r[..k] + [x] + r[k..])
  {
    var r' := r[..k] + [x] + r[k..];
    forall j | k <= j < |r|
      ensures !Less(r[j], x)
    {
      if Less(r[j], x) {
        LessTransitive(r[j], x, r[k]);
        if j == k {
          LessIrreflexive(r[k]);
        }
      }
    }
    forall i, j | 0 <= i < j < |r'|
      ensures !Less(r'[j], r'[i])
    {
      if j < k {
        assert r'[i] == r[i] && r'[j] == r[j];
      } else if j == k {
        assert r'[j] == x && r'[i] == r[i];
      } else if i == k {
        assert r'[i] == x && r'[j] == r[j - 1];
      } else if i < k {
        assert r'[i] == r[i] && r'[j] == r[j - 1];
      } else {
        assert r'[i] == r[i - 1] && r'[j] == r[j - 1];
      }
    }
  }

  /** `sort.Strings`: a sorted permutation of `s`. */
  method SortStrings(s: seq<string>) returns (r: seq<string>)
    ensures Sorted(r) && multiset(r) == multiset(s)
  {
    r := [];
    for i := 0 to |s|
      invariant Sorted(r) && multiset(r) == multiset(s[..i])
    {
      r := Insert(r, s[i]);
      assert s[..i + 1] == s[..i] + [s[i]];
    }
    assert s[..|s|] == s;
  }

  /** Each element of a sequence without repetitions occurs exactly once. */
  lemma {:induction false} DistinctCounts(s: seq<string>, x: string)
    requires Distinct(s)
    ensures multiset(s)[x] == if x in s then 1 else 0
    decreases |s|
  {
    if s != [] {
      assert s == [s[0]] + s[1..];
      DistinctCounts(s[1..], x);
      if x == s[0] {
        assert x !in s[1..];
      }
    }
  }

  /** A permutation of a sequence without repetitions has none either. */
  lemma PermutationDistinct(a: seq<string>, b: seq<string>)
    requires Distinct(a) && multiset(a) == multiset(b)
    ensures Distinct(b)
  {
    forall i, j | 0 <= i < j < |b|
      ensures b[i] != b[j]
    {
      if b[i] == b[j] {
        var x := b[i];
        assert b == b[..j] + b[j..];
        assert x in b[..j] && x in b[j..];
        assert multiset(b)[x] == multiset(b[..j])[x] + multiset(b[j..])[x];
        DistinctCounts(a, x);
      }
    }
  }

  /** Sorted without repetitions is strictly sorted. */
  lemma SortedDistinct(s: seq<string>)
    requires Sorted(s) && Distinct(s)
    ensures StrictlySorted(s)
  {
    forall i, j | 0 <= i < j < |s|
      ensures Less(s[i], s[j])
    {
      LessTotal(s[i], s[j]);
    }
  }

  /** Strictly sorted is sorted. */
  lemma StrictlySortedSorted(s: seq<string>)
    requires StrictlySorted(s)
    ensures Sorted(s)
  {
    forall i, j | 0 <= i < j < |s|
      ensures !Less(s[j], s[i])
    {
      LessAsymmetric(s[i], s[j]);
    }
  }

  /**
   * Sorting determines the result: two sorted permutations of the same
   * strings are equal, so the order the input came in does not matter.
   */
  lemma {:induction false} SortedUnique(a: seq<string>, b: seq<string>)
    requires Sorted(a) && Sorted(b) && multiset(a) == multiset(b)
    ensures a == b
    decreases |a|
  {
    if a != [] {
      assert a[0] in multiset(a);
      SortedHeads(a, b);
      assert multiset(a) == multiset{a[0]} + multiset(a[1..]) by {
        assert a == [a[0]] + a[1..];
      }
      assert multiset(b) == multiset{b[0]} + multiset(b[1..]) by {
        assert b == [b[0]] + b[1..];
      }
      assert multiset(a[1..]) == multiset(a) - multiset{a[0]};
      assert multiset(b[1..]) == multiset(b) - multiset{b[0]};
      SortedUnique(a[1..], b[1..]);
      assert a == [a[0]] + a[1..] && b == [b[0]] + b[1..];
    }
  }

  /** Two sorted permutations of the same strings start alike. */
  lemma SortedHeads(a: seq<string>, b: seq<string>)
    requires Sorted(a) && Sorted(b) && multiset(a) == multiset(b) && a != []
    ensures b != [] && a[0] == b[0]
  {
    assert a[0] in multiset(b);
    var i :| 0 <= i < |b| && b[i] == a[0];
    assert b[0] in multiset(a);
    var j :| 0 <= j < |a| && a[j] == b[0];
    assert !Less(a[0], b[0]) by {
      if i == 0 { LessIrreflexive(a[0]); }
    }
    assert !Less(b[0], a[0]) by {
      if j == 0 { LessIrreflexive(b[0]); }
    }
    LessTotal(a[0], b[0]);
  }
}
