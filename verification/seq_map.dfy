/** Applying a function to every element of a sequence, and the fact that
    equal multisets of inputs give equal multisets of outputs. */
module SeqMap {

  function MapSeq<A, B>(f: A -> B, s: seq<A>): (r: seq<B>)
    ensures |r| == |s| && forall i :: 0 <= i < |s| ==> r[i] == f(s[i])
  {
    seq(|s|, i requires 0 <= i < |s| => f(s[i]))
  }

  /** Taking out position `j` takes one copy of `b[j]` out of the multiset. */
  lemma MultisetRemove<T>(b: seq<T>, j: nat)
    requires j < |b|
    ensures multiset(b[..j] + b[j + 1..]) == multiset(b) - multiset{b[j]}
    ensures multiset(b) == multiset(b[..j] + b[j + 1..]) + multiset{b[j]}
  {
    assert b == b[..j] + [b[j]] + b[j + 1..];
  }

  lemma IndexOf<T>(b: seq<T>, x: T) returns (j: nat)
    requires x in multiset(b)
    ensures j < |b| && b[j] == x
  {
    assert x in b;
    j :| 0 <= j < |b| && b[j] == x;
  }

  /** Mapping commutes with taking out position `j`. */
  lemma MapRemove<A, B>(f: A -> B, b: seq<A>, j: nat, rest: seq<A>)
    requires j < |b| && rest == b[..j] + b[j + 1..]
    ensures multiset(MapSeq(f, b)) == multiset(MapSeq(f, rest)) + multiset{f(b[j])}
  {
    var m := MapSeq(f, b);
    MultisetRemove(m, j);
    assert m[..j] + m[j + 1..] == MapSeq(f, rest);
  }

  /** Two arrangements of the same inputs map to two arrangements of the same outputs. */
  lemma {:induction false} MapPermutation<A, B>(f: A -> B, a: seq<A>, b: seq<A>)
    requires multiset(a) == multiset(b)
    ensures multiset(MapSeq(f, a)) == multiset(MapSeq(f, b))
    decreases |a|
  {
    if a == [] {
      assert |b| == |multiset(b)| == 0;
    } else {
      var x := a[0];
      var j := IndexOf(b, x);
      var rest := b[..j] + b[j + 1..];
      MultisetRemove(a, 0);
      MultisetRemove(b, j);
      assert a[..0] + a[1..] == a[1..];
      assert multiset(a[1..]) == multiset(rest);
      MapPermutation(f, a[1..], rest);
      MapRemove(f, a, 0, a[1..]);
      MapRemove(f, b, j, rest);
    }
  }
}
