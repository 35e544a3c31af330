/** Sequences of sequences, and sequences whose order does not matter. */
module Sequences {
  function Flat<T>(parts: seq<seq<T>>): seq<T> {
    if parts == [] then [] else Flat(parts[..|parts| - 1]) + parts[|parts| - 1]
  }

  lemma FlatAppends<T>(parts: seq<seq<T>>, last: seq<T>)
    ensures Flat(parts + [last]) == Flat(parts) + last
  {
    assert (parts + [last])[..|parts|] == parts;
  }

  lemma {:induction false} FlatFront<T>(parts: seq<seq<T>>)
    requires parts != []
    ensures Flat(parts) == parts[0] + Flat(parts[1..])
    decreases |parts|
  {
    var init, last := parts[..|parts| - 1], parts[|parts| - 1];
    if init == [] {
      assert parts[1..] == [];
      assert Flat(init) == [] && [] + last == last == last + [];
    } else {
      FlatFront(init);
      assert parts[1..] == init[1..] + [last];
      FlatAppends(init[1..], last);
      assert init[0] + Flat(init[1..]) + last == init[0] + (Flat(init[1..]) + last);
    }
  }

  function Map<A, B>(f: A -> B, s: seq<A>): (t: seq<B>)
    ensures |t| == |s| && forall i :: 0 <= i < |s| ==> t[i] == f(s[i])
  {
    if s == [] then [] else Map(f, s[..|s| - 1]) + [f(s[|s| - 1])]
  }

  lemma MapAppends<A, B>(f: A -> B, s: seq<A>, x: A)
    ensures Map(f, s + [x]) == Map(f, s) + [f(x)]
  {
    assert (s + [x])[..|s|] == s;
  }

  function Without<A>(s: seq<A>, j: nat): (t: seq<A>)
    requires j < |s|
    ensures |t| == |s| - 1
  {
    s[..j] + s[j + 1..]
  }

  lemma WithoutOne<A>(s: seq<A>, j: nat)
    requires j < |s|
    ensures multiset(s) == multiset(Without(s, j)) + multiset{s[j]}
  {
    assert s == (s[..j] + [s[j]]) + s[j + 1..];
  }

  lemma WithoutAt<A>(s: seq<A>, j: nat, k: nat)
    requires j < |s| && k < |s| - 1
    ensures Without(s, j)[k] == s[if k < j then k else k + 1]
  {
  }

  lemma MapWithoutAt<A, B>(f: A -> B, s: seq<A>, j: nat, k: nat)
    requires j < |s| && k < |s| - 1
    ensures Map(f, Without(s, j))[k] == Without(Map(f, s), j)[k]
  {
    WithoutAt(s, j, k);
    WithoutAt(Map(f, s), j, k);
  }

  lemma MapWithout<A, B>(f: A -> B, s: seq<A>, j: nat)
    requires j < |s|
    ensures Map(f, Without(s, j)) == Without(Map(f, s), j)
  {
    forall k | 0 <= k < |s| - 1
      ensures Map(f, Without(s, j))[k] == Without(Map(f, s), j)[k]
    {
      MapWithoutAt(f, s, j, k);
    }
  }

  lemma MapWithoutOne<A, B>(f: A -> B, s: seq<A>, j: nat)
    requires j < |s|
    ensures multiset(Map(f, s)) == multiset(Map(f, Without(s, j))) + multiset{f(s[j])}
  {
    WithoutOne(Map(f, s), j);
    MapWithout(f, s, j);
  }

  /** Where the first element of one order is in the other. */
  lemma FindFirst<A>(a: seq<A>, b: seq<A>) returns (j: nat)
    requires multiset(a) == multiset(b) && a != []
    ensures j < |b| && b[j] == a[0] && multiset(Without(a, 0)) == multiset(Without(b, j))
  {
    assert a[0] in multiset(b);
    j :| 0 <= j < |b| && b[j] == a[0];
    WithoutOne(a, 0);
    WithoutOne(b, j);
    assert multiset(Without(a, 0)) == multiset(a) - multiset{a[0]} == multiset(Without(b, j));
  }

  /** A permutation of the arguments is a permutation of the results. */
  lemma {:induction false} PermutationMaps<A, B>(f: A -> B, a: seq<A>, b: seq<A>)
    requires multiset(a) == multiset(b)
    ensures multiset(Map(f, a)) == multiset(Map(f, b))
    decreases |a|
  {
    if a == [] {
      assert |multiset(b)| == 0;
    } else {
      var j := FindFirst(a, b);
      PermutationMaps(f, Without(a, 0), Without(b, j));
      MapWithoutOne(f, a, 0);
      MapWithoutOne(f, b, j);
    }
  }
}
