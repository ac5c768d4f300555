/** A sort that stands in for the language's own: all that callers may rely on is that the result is
    an ordered permutation. */
module Sorting {
  /** A total preorder: any two are comparable, and the order is transitive. */
  ghost predicate TotalOrder<T(!new)>(le: (T, T) -> bool) {
    && (forall x, y :: le(x, y) || le(y, x))
    && (forall x, y, z :: le(x, y) && le(y, z) ==> le(x, z))
  }

  ghost predicate Ordered<T>(s: seq<T>, le: (T, T) -> bool) {
    forall i, j :: 0 <= i < j < |s| ==> le(s[i], s[j])
  }

  ghost predicate Permutation<T>(a: seq<T>, b: seq<T>) {
    multiset(a) == multiset(b)
  }

  lemma PermutationFacts<T>(a: seq<T>, b: seq<T>)
    requires Permutation(a, b)
    ensures |a| == |b| && forall x :: x in a <==> x in b
  {
    assert |a| == |multiset(a)| == |multiset(b)| == |b|;
    forall x
      ensures x in a <==> x in b
    {
      assert x in a <==> x in multiset(a);
      assert x in b <==> x in multiset(b);
    }
  }

  ghost predicate Distinct<T>(s: seq<T>) {
    forall i, j :: 0 <= i < j < |s| ==> s[i] != s[j]
  }

  /** Distinct means that everything occurs at most once. */
  lemma {:induction false} DistinctCounts<T(!new)>(s: seq<T>)
    ensures Distinct(s) <==> forall x :: multiset(s)[x] <= 1
  {
    if s == [] {
    } else {
      assert s == [s[0]] + s[1..];
      DistinctCounts(s[1..]);
      if Distinct(s) {
        assert s[0] !in s[1..];
      } else if Distinct(s[1..]) {
        var j :| 0 < j < |s| && s[j] == s[0];
        assert s[0] == s[1..][j - 1];
        assert multiset(s)[s[0]] >= 2;
      } else {
        var x :| multiset(s[1..])[x] > 1;
        assert multiset(s)[x] > 1;
      }
    }
  }

  lemma PermutedDistinct<T(!new)>(a: seq<T>, b: seq<T>)
    requires Permutation(a, b)
    ensures Distinct(a) <==> Distinct(b)
  {
    DistinctCounts(a);
    DistinctCounts(b);
  }

  lemma InsertPermutes<T>(s: seq<T>, k: nat, x: T)
    requires k <= |s|
    ensures Permutation(s[..k] + [x] + s[k..], s + [x])
  {
    assert s == s[..k] + s[k..];
  }

  lemma InsertOrdered<T(!new)>(s: seq<T>, k: nat, x: T, le: (T, T) -> bool)
    requires TotalOrder(le) && Ordered(s, le) && k <= |s|
    requires (forall i :: 0 <= i < k ==> le(s[i], x)) && (k < |s| ==> le(x, s[k]))
    ensures Ordered(s[..k] + [x] + s[k..], le)
  {
    assert forall i :: k < i < |s| ==> le(s[k], s[i]);
  }

  /** Insertion of one element into an ordered list. */
  method Insert<T(!new)>(s: seq<T>, x: T, le: (T, T) -> bool) returns (r: seq<T>)
    requires TotalOrder(le) && Ordered(s, le)
    ensures Ordered(r, le) && Permutation(r, s + [x])
  {
    var k := 0;
    while k < |s| && !le(x, s[k])
      invariant 0 <= k <= |s|
      invariant forall i :: 0 <= i < k ==> le(s[i], x)
    {
      k := k + 1;
    }
    r := s[..k] + [x] + s[k..];
    InsertOrdered(s, k, x, le);
    InsertPermutes(s, k, x);
  }

  method Sort<T(!new)>(s: seq<T>, le: (T, T) -> bool) returns (r: seq<T>)
    requires TotalOrder(le)
    ensures Ordered(r, le) && Permutation(r, s)
  {
    hide TotalOrder;
    r := [];
    for n := 0 to |s|
      invariant Ordered(r, le) && Permutation(r, s[..n])
    {
      r := Insert(r, s[n], le);
      assert s[..n + 1] == s[..n] + [s[n]];
    }
    assert s[..|s|] == s;
  }

  function Sum<T>(s: seq<T>, f: T -> int): int {
    if s == [] then 0 else f(s[0]) + Sum(s[1..], f)
  }

  lemma {:induction false} SumAppend<T>(a: seq<T>, b: seq<T>, f: T -> int)
    ensures Sum(a + b, f) == Sum(a, f) + Sum(b, f)
  {
    if a == [] {
      assert a + b == b;
    } else {
      assert (a + b)[1..] == a[1..] + b;
      SumAppend(a[1..], b, f);
    }
  }

  lemma DropPermutes<T>(a: seq<T>, b: seq<T>, k: nat)
    requires Permutation(a, b) && a != [] && k < |b| && b[k] == a[0]
    ensures Permutation(a[1..], b[..k] + b[k + 1..])
  {
    var x := a[0];
    assert a == [x] + a[1..];
    assert b == b[..k] + [x] + b[k + 1..];
    var rest := b[..k] + b[k + 1..];
    assert multiset(b) == multiset{x} + multiset(rest);
    assert multiset(a[1..]) == multiset(a) - multiset{x};
    assert multiset(rest) == multiset(b) - multiset{x};
  }

  lemma {:induction false} SumPermutation<T>(a: seq<T>, b: seq<T>, f: T -> int)
    requires Permutation(a, b)
    ensures Sum(a, f) == Sum(b, f)
  {
    PermutationFacts(a, b);
    if a == [] {
    } else {
      assert a[0] in b;
      var k :| 0 <= k < |b| && b[k] == a[0];
      DropPermutes(a, b, k);
      SumPermutation(a[1..], b[..k] + b[k + 1..], f);
      assert b == b[..k] + ([b[k]] + b[k + 1..]);
      SumAppend(b[..k], [b[k]] + b[k + 1..], f);
      SumAppend(b[..k], b[k + 1..], f);
    }
  }
}
