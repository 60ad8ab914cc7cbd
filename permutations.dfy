/** Mapping a function over a sequence, and the fact that a mapped sequence is
    a permutation of another mapped sequence whenever the inputs are
    permutations of each other. Used to state that the order in which records
    arrive on the channel does not change the reported outcomes. */
module Permutations {
  function Map<A, B>(f: A -> B, s: seq<A>): (r: seq<B>)
    ensures |r| == |s|
  {
    if s == [] then [] else [f(s[0])] + Map(f, s[1..])
  }

  lemma {:induction false} MapAt<A, B>(f: A -> B, s: seq<A>, i: nat)
    requires i < |s|
    ensures Map(f, s)[i] == f(s[i])
  {
    if i > 0 { MapAt(f, s[1..], i - 1); }
  }

  lemma {:induction false} MapConcat<A, B>(f: A -> B, a: seq<A>, b: seq<A>)
    ensures Map(f, a + b) == Map(f, a) + Map(f, b)
  {
    if a == [] { assert a + b == b; }
    else {
      assert (a + b)[0] == a[0];
      assert (a + b)[1..] == a[1..] + b;
      MapConcat(f, a[1..], b);
    }
  }

  lemma PermutationLength<T>(a: seq<T>, b: seq<T>)
    requires multiset(a) == multiset(b)
    ensures |a| == |b|
  {
    assert |multiset(a)| == |multiset(b)|;
  }

  /** Taking the first element of `a` out of both sides of a permutation. */
  lemma RemoveMatched<T>(a: seq<T>, b: seq<T>, i: nat)
    requires multiset(a) == multiset(b) && a != [] && i < |b| && b[i] == a[0]
    ensures multiset(a[1..]) == multiset(b[..i] + b[i + 1..])
  {
    assert a == [a[0]] + a[1..];
    assert b == b[..i] + [b[i]] + b[i + 1..];
    assert multiset(b[..i] + b[i + 1..]) == multiset(b) - multiset{a[0]};
  }

  lemma FindIndex<T>(b: seq<T>, x: T) returns (i: nat)
    requires x in multiset(b)
    ensures i < |b| && b[i] == x
  {
    assert x in b;
    i :| i < |b| && b[i] == x;
  }

  lemma MapAroundOne<A, B>(f: A -> B, front: seq<A>, x: A, back: seq<A>)
    ensures multiset(Map(f, front + ([x] + back))) == multiset{f(x)} + multiset(Map(f, front + back))
  {
    MapConcat(f, front, [x] + back);
    MapConcat(f, [x], back);
    MapConcat(f, front, back);
    assert Map(f, [x]) == [f(x)];
  }

  lemma {:induction false} MapRespectsPermutation<A, B>(f: A -> B, a: seq<A>, b: seq<A>)
    requires multiset(a) == multiset(b)
    ensures multiset(Map(f, a)) == multiset(Map(f, b))
    decreases |a|
  {
    if a == [] {
      PermutationLength(a, b);
      assert b == [];
    } else {
      var x := a[0];
      assert x in multiset(b) by { assert x in multiset(a); }
      var i := FindIndex(b, x);
      var front, back := b[..i], b[i + 1..];
      RemoveMatched(a, b, i);
      MapRespectsPermutation(f, a[1..], front + back);
      assert Map(f, a) == [f(x)] + Map(f, a[1..]);
      MapAroundOne(f, front, x, back);
      assert b == front + ([x] + back);
    }
  }

  /** After a permutation, the image of every element of `b` is still among
      the images of `a`. */
  lemma MapKeepsEveryImage<A, B>(f: A -> B, a: seq<A>, b: seq<A>, i: nat)
    requires multiset(a) == multiset(b) && i < |b|
    ensures f(b[i]) in Map(f, a)
  {
    MapRespectsPermutation(f, a, b);
    MapAt(f, b, i);
    assert f(b[i]) in multiset(Map(f, b));
  }
}
