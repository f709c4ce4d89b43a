/** Comparison sorts of the Go standard library (slices.SortFunc, sort.Slice): the result is a
    sorted permutation, and nothing is promised about the order of equal elements. */
module Sorting {
  import opened Text

  ghost predicate TotalPreorder<T(!new)>(le: (T, T) -> bool) {
    && (forall a, b :: le(a, b) || le(b, a))
    && (forall a, b, c :: le(a, b) && le(b, c) ==> le(a, c))
  }

  ghost predicate Sorted<T>(le: (T, T) -> bool, s: seq<T>) {
    forall i, j :: 0 <= i < j < |s| ==> le(s[i], s[j])
  }

  lemma InsertKeepsSorted<T(!new)>(le: (T, T) -> bool, r: seq<T>, k: nat, x: T)
    requires TotalPreorder(le) && Sorted(le, r) && k <= |r|
    requires forall i :: 0 <= i < k ==> le(r[i], x)
    requires k < |r| ==> !le(r[k], x)
    ensures Sorted(le, r[..k] + [x] + r[k..])
    ensures multiset(r[..k] + [x] + r[k..]) == multiset(r) + multiset{x}
  {
    assert r == r[..k] + r[k..];
    var all := r[..k] + [x] + r[k..];
    forall i, j | 0 <= i < j < |all| ensures le(all[i], all[j]) {
      if i == k {
        assert le(x, r[k]) && (j == k + 1 || le(r[k], r[j - 1]));
      }
    }
  }

  /** An arbitrary sorted permutation of xs. */
  method SortBy<T(!new)>(le: (T, T) -> bool, xs: seq<T>) returns (r: seq<T>)
    requires TotalPreorder(le)
    ensures Sorted(le, r)
    ensures multiset(r) == multiset(xs)
  {
    r := [];
    for n := 0 to |xs|
      invariant Sorted(le, r)
      invariant multiset(r) == multiset(xs[..n])
    {
      var k := 0;
      while k < |r| && le(r[k], xs[n])
        invariant k <= |r|
        invariant forall i :: 0 <= i < k ==> le(r[i], xs[n])
      {
        k := k + 1;
      }
      InsertKeepsSorted(le, r, k, xs[n]);
      assert xs[..n + 1] == xs[..n] + [xs[n]];
      r := r[..k] + [xs[n]] + r[k..];
    }
    assert xs[..|xs|] == xs;
  }

  lemma AtMostIsTotalPreorder()
    ensures TotalPreorder(AtMost)
  {
    forall a, b ensures AtMost(a, b) || AtMost(b, a) { AtMostTotal(a, b); }
    forall a, b, c | AtMost(a, b) && AtMost(b, c) ensures AtMost(a, c) { AtMostTransitive(a, b, c); }
  }

  lemma SameMultisetSameElements<T>(a: seq<T>, b: seq<T>, x: T)
    requires multiset(a) == multiset(b)
    ensures |a| == |b| && (x in a <==> x in b)
  {
    assert |multiset(a)| == |a| && |multiset(b)| == |b|;
    assert x in multiset(a) <==> x in a;
    assert x in multiset(b) <==> x in b;
  }

  lemma OccursTwice<T>(s: seq<T>, i: nat, j: nat)
    requires i < j < |s| && s[i] == s[j]
    ensures multiset(s)[s[i]] >= 2
  {
    assert s == s[..i] + [s[i]] + s[i + 1..j] + [s[j]] + s[j + 1..];
  }

  lemma MultisetWithout<T>(a: seq<T>, i: nat)
    requires i < |a|
    ensures multiset(a[..i] + a[i + 1..]) == multiset(a) - multiset{a[i]}
  {
    assert a == a[..i] + [a[i]] + a[i + 1..];
  }

  lemma MultisetOfTail<T>(a: seq<T>)
    requires a != []
    ensures multiset(a[1..]) == multiset(a) - multiset{a[0]}
  {
    assert a == [a[0]] + a[1..];
  }

  lemma SortedHead(a: seq<string>, b: seq<string>)
    requires Sorted(AtMost, a) && Sorted(AtMost, b)
    requires a != [] && b != [] && b[0] in a
    ensures AtMost(a[0], b[0])
  {
    var j :| 0 <= j < |a| && a[j] == b[0];
    AtMostTotal(a[0], a[0]);
  }

  /** Two sorted string lists with the same elements are the same list. */
  lemma {:induction false} SortedUnique(a: seq<string>, b: seq<string>)
    requires Sorted(AtMost, a) && Sorted(AtMost, b)
    requires multiset(a) == multiset(b)
    ensures a == b
  {
    if a == [] {
      assert |multiset(b)| == 0;
    } else {
      SameMultisetSameElements(a, b, a[0]);
      SameMultisetSameElements(a, b, b[0]);
      SortedHead(a, b);
      SortedHead(b, a);
      AtMostAntisymmetric(a[0], b[0]);
      MultisetOfTail(a);
      MultisetOfTail(b);
      SortedUnique(a[1..], b[1..]);
      assert a == [a[0]] + a[1..] && b == [b[0]] + b[1..];
    }
  }
}
