/**
  `flatten(iterable)` and `uniquify(iterable)` of pyop2/utils.py.  Both are
  generators in the source; here their whole output is a sequence.
 */
module Sequences {

  /** The items of the inner sequences, in order. */
  function Flatten<T>(xss: seq<seq<T>>): seq<T> {
    if xss == [] then [] else xss[0] + Flatten(xss[1..])
  }

  function TotalLength<T>(xss: seq<seq<T>>): nat {
    if xss == [] then 0 else |xss[0]| + TotalLength(xss[1..])
  }

  /** Flattening distributes over concatenation of the outer sequence. */
  lemma {:induction false} FlattenAppend<T>(a: seq<seq<T>>, b: seq<seq<T>>)
    ensures Flatten(a + b) == Flatten(a) + Flatten(b)
    decreases |a|
  {
    if a != [] {
      assert (a + b)[1..] == a[1..] + b;
      FlattenAppend(a[1..], b);
    } else {
      assert a + b == b;
    }
  }

  /** One inner sequence flattens to itself, so the result is the concatenation in order. */
  lemma {:induction false} FlattenConcat<T>(a: seq<seq<T>>, xs: seq<T>)
    ensures Flatten(a + [xs]) == Flatten(a) + xs
  {
    FlattenAppend(a, [xs]);
    assert Flatten([xs]) == xs + Flatten([xs][1..]);
  }

  /** The result holds as many items as the inner sequences together. */
  lemma {:induction false} FlattenLength<T>(xss: seq<seq<T>>)
    ensures |Flatten(xss)| == TotalLength(xss)
    decreases |xss|
  {
    if xss != [] { FlattenLength(xss[1..]); }
  }

  /** An item is in the result iff it is in one of the inner sequences. */
  lemma {:induction false} FlattenMembers<T>(xss: seq<seq<T>>, x: T)
    ensures x in Flatten(xss) <==> exists i :: 0 <= i < |xss| && x in xss[i]
    decreases |xss|
  {
    if xss != [] {
      FlattenMembers(xss[1..], x);
      if x in Flatten(xss[1..]) {
        var i :| 0 <= i < |xss[1..]| && x in xss[1..][i];
        assert xss[i + 1] == xss[1..][i];
      }
      if i :| 0 <= i < |xss| && x in xss[i] {
        if i > 0 { assert xss[1..][i - 1] == xss[i]; }
      }
    }
  }

  /** The index of the first occurrence of x in s. */
  function FirstIndex<T(==)>(s: seq<T>, x: T): (k: nat)
    requires x in s
    ensures k < |s| && s[k] == x && x !in s[..k]
  {
    if s[0] == x then 0
    else
      var k := FirstIndex(s[1..], x) + 1;
      assert s[..k] == [s[0]] + s[1..][..k - 1];
      k
  }

  /** `uniquify`: every distinct item of `s` once, in the order of first
      occurrence; `uniq` is the set of items already produced. */
  method Uniquify<T(==)>(s: seq<T>) returns (r: seq<T>)
    ensures forall x :: x in r <==> x in s
    ensures forall i, j :: 0 <= i < j < |r| ==> r[i] != r[j]
    ensures forall i, j :: 0 <= i < j < |r| ==> FirstIndex(s, r[i]) < FirstIndex(s, r[j])
  {
    var uniq: set<T> := {};
    r := [];
    var n := 0;
    while n < |s|
      invariant n <= |s|
      invariant forall x :: x in uniq <==> x in r
      invariant forall x :: x in r <==> x in s[..n]
      invariant forall i, j :: 0 <= i < j < |r| ==> r[i] != r[j]
      invariant forall i :: 0 <= i < |r| ==> r[i] in s && FirstIndex(s, r[i]) < n
      invariant forall i, j :: 0 <= i < j < |r| ==> FirstIndex(s, r[i]) < FirstIndex(s, r[j])
    {
      var x := s[n];
      assert s[..n + 1] == s[..n] + [x];
      if x !in uniq {
        var k := FirstIndex(s, x);
        assert k == n;
        uniq := uniq + {x};
        r := r + [x];
      }
      n := n + 1;
    }
    assert s[..n] == s;
  }
}
