/**
 * Sequence facts shared by the intrusive registries: removing an element,
 * and the absence of repeated elements.
 */
module Seqs {
  /** `s` with every occurrence of `x` removed, order kept. */
  function Without<T(==)>(s: seq<T>, x: T): (r: seq<T>)
    ensures |r| <= |s|
  {
    if s == [] then [] else (if s[0] == x then [] else [s[0]]) + Without(s[1..], x)
  }

  /** Removing an element drops exactly its occurrences and keeps the others. */
  lemma {:induction false} WithoutMembers<T>(s: seq<T>, x: T, y: T)
    ensures y in Without(s, x) <==> y in s && y != x
  {
    if s != [] {
      WithoutMembers(s[1..], x, y);
      assert s == [s[0]] + s[1..];
    }
  }

  lemma WithoutIncluded<T>(s: seq<T>, x: T)
    ensures forall y :: y in Without(s, x) ==> y in s
  {
    forall y | y in Without(s, x) ensures y in s {
      WithoutMembers(s, x, y);
    }
  }

  lemma {:induction false} WithoutAbsent<T>(s: seq<T>, x: T)
    requires x !in s
    ensures Without(s, x) == s
  {
    if s != [] {
      WithoutAbsent(s[1..], x);
    }
  }

  /** Extending a prefix by the next element. */
  lemma PrefixSnoc<T>(s: seq<T>, k: nat)
    requires k < |s|
    ensures s[..k + 1] == s[..k] + [s[k]]
  {
  }

  lemma TakeAll<T>(s: seq<T>, k: nat)
    requires k == |s|
    ensures s[..k] == s
  {
  }

  /** Splitting a concatenation at the length of its first part. */
  lemma SplitConcat<T>(a: seq<T>, b: seq<T>)
    ensures (a + b)[..|a|] == a && (a + b)[|a|..] == b
  {
  }

  lemma ConcatAssoc<T>(a: seq<T>, b: seq<T>, c: seq<T>)
    ensures a + (b + c) == (a + b) + c
  {
  }

  /** No element occurs twice. */
  ghost predicate Distinct<T>(s: seq<T>)
    decreases |s|
  {
    |s| <= 1 || (s[0] !in s[1..] && Distinct(s[1..]))
  }

  lemma {:induction false} DistinctAt<T>(s: seq<T>, a: nat, b: nat)
    requires Distinct(s) && a < |s| && b < |s| && a != b
    ensures s[a] != s[b]
    decreases |s|
  {
    if a == 0 {
      assert s[b] == s[1..][b-1];
    } else if b == 0 {
      assert s[a] == s[1..][a-1];
    } else {
      DistinctAt(s[1..], a - 1, b - 1);
    }
  }

  /** The element at `k` occurs nowhere else in the sequence. */
  lemma DistinctAfter<T>(s: seq<T>, k: nat)
    requires Distinct(s) && k < |s|
    ensures forall i :: 0 <= i < |s| && i != k ==> s[i] != s[k]
  {
    forall i | 0 <= i < |s| && i != k ensures s[i] != s[k] {
      DistinctAt(s, i, k);
    }
  }

  lemma {:induction false} DistinctRemove<T>(s: seq<T>, i: nat)
    requires Distinct(s) && i < |s|
    ensures Distinct(s[..i] + s[i+1..])
    decreases |s|
  {
    if i == 0 {
      assert s[..0] + s[1..] == s[1..];
    } else {
      DistinctRemove(s[1..], i - 1);
      var r := s[..i] + s[i+1..];
      assert r == [s[0]] + (s[1..][..i-1] + s[1..][i..]);
      assert r[1..] == s[1..][..i-1] + s[1..][i..];
    }
  }

  /** In a sequence without repetitions, removing the element at `i` is cutting it out. */
  lemma {:induction false} WithoutAt<T>(s: seq<T>, i: nat)
    requires i < |s| && Distinct(s)
    ensures Without(s, s[i]) == s[..i] + s[i+1..]
    decreases |s|
  {
    var t := s[1..];
    if i == 0 {
      WithoutAbsent(t, s[0]);
    } else {
      WithoutAt(t, i - 1);
      DistinctAt(s, 0, i);
      assert [s[0]] + t[..i-1] == s[..i];
      assert t[i..] == s[i+1..];
    }
  }
}
