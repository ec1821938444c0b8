/** Order-preserving selection from a sequence: the shape of a Python list
    comprehension with an `if` guard, and the subsequence relation it produces. */
module Sequences {

  /** What `Filter` promises of `r` as a selection from `s` by `p`. */
  ghost predicate SelectedBy<T(!new)>(p: T -> bool, s: seq<T>, r: seq<T>)
  {
    |r| <= |s| &&
    (forall i :: 0 <= i < |r| ==> r[i] in s && p(r[i])) &&
    (forall i :: 0 <= i < |s| && p(s[i]) ==> s[i] in r) &&
    (forall x :: multiset(r)[x] == if p(x) then multiset(s)[x] else 0)
  }

  /** A selection from the tail, with the head put in front when it passes, is a selection
      from the whole sequence. */
  lemma SelectedByCons<T(!new)>(p: T -> bool, s: seq<T>, rest: seq<T>)
    requires s != [] && SelectedBy(p, s[1..], rest)
    ensures SelectedBy(p, s, (if p(s[0]) then [s[0]] else []) + rest)
  {
    var head := if p(s[0]) then [s[0]] else [];
    var r := head + rest;
    assert s == [s[0]] + s[1..];
    assert multiset(r) == multiset(head) + multiset(rest);
    forall i | 0 <= i < |s| && p(s[i])
      ensures s[i] in r
    {
      if i > 0 {
        assert s[i] == s[1..][i - 1];
      }
    }
  }

  /** The elements of `s` that satisfy `p`, in their original order. */
  function Filter<T(==,!new)>(p: T -> bool, s: seq<T>): (r: seq<T>)
    ensures |r| <= |s|
    ensures forall i :: 0 <= i < |r| ==> r[i] in s && p(r[i])
    ensures forall i :: 0 <= i < |s| && p(s[i]) ==> s[i] in r
    ensures forall x :: multiset(r)[x] == if p(x) then multiset(s)[x] else 0
  {
    if s == [] then []
    else
      var rest := Filter(p, s[1..]);
      SelectedByCons(p, s, rest);
      (if p(s[0]) then [s[0]] else []) + rest
  }

  /** `a` is obtained from `b` by deleting elements: order is kept and nothing is
      duplicated or invented. */
  predicate IsSubsequence<T(==)>(a: seq<T>, b: seq<T>)
    decreases |b|
  {
    if a == [] then true
    else if b == [] then false
    else (a[0] == b[0] && IsSubsequence(a[1..], b[1..])) || IsSubsequence(a, b[1..])
  }

  lemma {:induction false} FilterIsSubsequence<T(!new)>(p: T -> bool, s: seq<T>)
    ensures IsSubsequence(Filter(p, s), s)
  {
    if s != [] {
      FilterIsSubsequence(p, s[1..]);
      var r := Filter(p, s);
      if p(s[0]) {
        assert r[0] == s[0] && r[1..] == Filter(p, s[1..]);
      } else {
        assert r == Filter(p, s[1..]);
        if r != [] {
          assert IsSubsequence(r, s[1..]);
        }
      }
    }
  }

  lemma {:induction false} SubsequenceTransitive<T>(a: seq<T>, b: seq<T>, c: seq<T>)
    requires IsSubsequence(a, b) && IsSubsequence(b, c)
    ensures IsSubsequence(a, c)
    decreases |c|
  {
    if a == [] {
    } else if IsSubsequence(b, c[1..]) {
      SubsequenceTransitive(a, b, c[1..]);
    } else if a[0] == b[0] && IsSubsequence(a[1..], b[1..]) {
      SubsequenceTransitive(a[1..], b[1..], c[1..]);
    } else {
      SubsequenceTransitive(a, b[1..], c[1..]);
    }
  }

  /** A subsequence takes each element at most as often as the original holds it. */
  lemma {:induction false} SubsequenceMultiset<T>(a: seq<T>, b: seq<T>)
    requires IsSubsequence(a, b)
    ensures multiset(a) <= multiset(b)
    decreases |b|
  {
    if a != [] {
      assert b == [b[0]] + b[1..];
      if a[0] == b[0] && IsSubsequence(a[1..], b[1..]) {
        SubsequenceMultiset(a[1..], b[1..]);
        assert a == [a[0]] + a[1..];
      } else {
        SubsequenceMultiset(a, b[1..]);
      }
    }
  }

  /** A property every element of `b` has, every element of a subsequence of `b` has. */
  lemma {:induction false} SubsequenceKeepsProperty<T>(p: T -> bool, a: seq<T>, b: seq<T>)
    requires IsSubsequence(a, b)
    requires forall i :: 0 <= i < |b| ==> p(b[i])
    ensures forall i :: 0 <= i < |a| ==> p(a[i])
    decreases |b|
  {
    if a != [] {
      assert forall i :: 0 <= i < |b[1..]| ==> p(b[1..][i]) by {
        forall i | 0 <= i < |b[1..]| ensures p(b[1..][i]) {
          assert b[1..][i] == b[i + 1];
        }
      }
      if a[0] == b[0] && IsSubsequence(a[1..], b[1..]) {
        SubsequenceKeepsProperty(p, a[1..], b[1..]);
        forall i | 0 <= i < |a| ensures p(a[i]) {
          if i > 0 {
            assert a[i] == a[1..][i - 1];
          }
        }
      } else {
        SubsequenceKeepsProperty(p, a, b[1..]);
      }
    }
  }

  lemma {:induction false} SubsequenceReflexive<T>(a: seq<T>)
    ensures IsSubsequence(a, a)
    decreases |a|
  {
    if a != [] {
      SubsequenceReflexive(a[1..]);
    }
  }
}
