/**
 A list made of some elements of another one, in their order.
 */
module Picking {
  import opened Counting

  // r holds f of the elements of s that satisfy p and nothing else: an element with n
  // such elements before it comes n-th.
  ghost predicate Picks<T, U>(s: seq<T>, p: T -> bool, f: T -> U, r: seq<U>) {
    && |r| == Count(s, p)
    && forall i :: 0 <= i < |s| && p(s[i]) ==> Before(s, p, i) < |r| && r[Before(s, p, i)] == f(s[i])
  }

  function Before<T>(s: seq<T>, p: T -> bool, i: nat): nat
    requires i <= |s|
  {
    Count(s[..i], p)
  }

  lemma BeforeNext<T>(s: seq<T>, p: T -> bool, i: nat)
    requires i < |s|
    ensures Before(s, p, i + 1) == One(p(s[0])) + Before(s[1..], p, i)
  {
    assert s[..i + 1][1..] == s[1..][..i];
  }

  lemma PicksNext<T, U>(s: seq<T>, p: T -> bool, f: T -> U, r: seq<U>)
    requires s != []
    ensures Picks(s[1..], p, f, r) <==> Picks(s, p, f, (if p(s[0]) then [f(s[0])] else []) + r)
  {
    var r' := (if p(s[0]) then [f(s[0])] else []) + r;
    var n := One(p(s[0]));
    assert forall k :: 0 <= k < |r| ==> r'[n + k] == r[k];
    assert Before(s, p, 0) == 0;
    forall i | 0 <= i < |s| - 1
      ensures Before(s, p, i + 1) == n + Before(s[1..], p, i) && s[1..][i] == s[i + 1]
    {
      BeforeNext(s, p, i);
    }
    if Picks(s[1..], p, f, r) {
      forall i | 0 <= i < |s| && p(s[i])
        ensures Before(s, p, i) < |r'| && r'[Before(s, p, i)] == f(s[i])
      {
        if i > 0 {
          assert s[1..][i - 1] == s[i] && Before(s, p, i - 1 + 1) == n + Before(s[1..], p, i - 1);
        }
      }
    }
    if Picks(s, p, f, r') {
      forall i | 0 <= i < |s[1..]| && p(s[1..][i])
        ensures Before(s[1..], p, i) < |r| && r[Before(s[1..], p, i)] == f(s[1..][i])
      {
        assert Before(s, p, i + 1) == n + Before(s[1..], p, i);
      }
    }
  }

  // There is only one such list.
  lemma {:induction false} PicksUnique<T, U>(s: seq<T>, p: T -> bool, f: T -> U, r: seq<U>, r': seq<U>)
    requires Picks(s, p, f, r) && Picks(s, p, f, r')
    ensures r == r'
  {
    if s != [] {
      if p(s[0]) {
        assert Before(s, p, 0) == 0;
        assert r == [f(s[0])] + r[1..] && r' == [f(s[0])] + r'[1..];
        PicksNext(s, p, f, r[1..]);
        PicksNext(s, p, f, r'[1..]);
        PicksUnique(s[1..], p, f, r[1..], r'[1..]);
      } else {
        assert r == [] + r && r' == [] + r';
        PicksNext(s, p, f, r);
        PicksNext(s, p, f, r');
        PicksUnique(s[1..], p, f, r, r');
      }
    }
  }
}
