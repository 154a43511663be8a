/** List comprehensions `[x for x in s if p(x)]`. */
module Seqs {
  import opened Wrappers

  function Filter<T>(s: seq<T>, p: T -> bool): (r: seq<T>)
    ensures |r| <= |s|
    ensures forall x :: x in r ==> x in s && p(x)
    ensures forall x :: x in s && p(x) ==> x in r
  {
    if s == [] then []
    else if p(s[0]) then [s[0]] + Filter(s[1..], p)
    else Filter(s[1..], p)
  }

  /** Filters by predicates that never hold together share no element. */
  lemma FilterDisjoint<T>(s: seq<T>, p: T -> bool, q: T -> bool)
    requires forall x :: x in s ==> !(p(x) && q(x))
    ensures forall x :: x in Filter(s, p) ==> x !in Filter(s, q)
  {
  }

  /** A filter and its complement split the input: their lengths add up. */
  lemma {:induction false} FilterPartition<T>(s: seq<T>, p: T -> bool, q: T -> bool)
    requires forall x :: x in s ==> (q(x) <==> !p(x))
    ensures |Filter(s, p)| + |Filter(s, q)| == |s|
    decreases |s|
  {
    if s != [] {
      FilterPartition(s[1..], p, q);
    }
  }

  /** Filters by two predicates no element satisfies together select at
      most the whole input between them. */
  lemma {:induction false} FilterDisjointCount<T>(s: seq<T>, p: T -> bool, q: T -> bool)
    requires forall x :: x in s ==> !(p(x) && q(x))
    ensures |Filter(s, p)| + |Filter(s, q)| <= |s|
    decreases |s|
  {
    if s != [] {
      assert forall x :: x in s[1..] ==> x in s;
      FilterDisjointCount(s[1..], p, q);
    }
  }

  /** `[f(x) for x in s]`. */
  function Map<A, B>(f: A -> B, s: seq<A>): (r: seq<B>)
    ensures |r| == |s|
  {
    seq(|s|, i requires 0 <= i < |s| => f(s[i]))
  }

  /** Mapping one more element appends its image. */
  lemma MapNext<A, B>(f: A -> B, s: seq<A>, i: nat)
    requires i < |s|
    ensures Map(f, s[..i + 1]) == Map(f, s[..i]) + [f(s[i])]
  {
    var a, b := Map(f, s[..i + 1]), Map(f, s[..i]) + [f(s[i])];
    forall k | 0 <= k <= i ensures a[k] == b[k] {
      assert s[..i + 1][k] == s[k];
      if k < i {
        assert s[..i][k] == s[k];
      }
    }
  }

  /** The present values of a sequence of options, in order. */
  function Somes<T>(os: seq<Option<T>>): seq<T>
    decreases |os|
  {
    if os == [] then []
    else
      var n := |os| - 1;
      Somes(os[..n]) + if os[n].Some? then [os[n].value] else []
  }

  /** Extending the prefix by one option adds its value, if any. */
  lemma SomesNext<T>(os: seq<Option<T>>, i: nat)
    requires i < |os|
    ensures Somes(os[..i + 1]) == Somes(os[..i]) + if os[i].Some? then [os[i].value] else []
  {
    assert os[..i + 1][..i] == os[..i];
  }

  lemma {:induction false} SomesMembers<T>(os: seq<Option<T>>, x: T)
    ensures x in Somes(os) <==> exists i :: 0 <= i < |os| && os[i] == Some(x)
    decreases |os|
  {
    if os != [] {
      var n := |os| - 1;
      SomesMembers(os[..n], x);
      if x in Somes(os) && x in Somes(os[..n]) {
        var i :| 0 <= i < n && os[..n][i] == Some(x);
        assert os[i] == Some(x);
      }
      if exists i :: 0 <= i < |os| && os[i] == Some(x) {
        var i :| 0 <= i < |os| && os[i] == Some(x);
        if i < n {
          assert os[..n][i] == Some(x);
        }
      }
    }
  }
}
