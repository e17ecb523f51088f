/**
 String order, stable sorting by a string key, and the map a sequence collects
 into. Go and Rust compare strings byte by byte; on UTF-8 text that is the order
 of the code points.
 */
module Ordering {
  predicate Le(a: string, b: string) {
    a == [] || (b != [] && (a[0] < b[0] || (a[0] == b[0] && Le(a[1..], b[1..]))))
  }

  lemma {:induction false} LeTotal(a: string, b: string)
    ensures Le(a, b) || Le(b, a)
    ensures Le(a, b) && Le(b, a) ==> a == b
  {
    if a != [] && b != [] && a[0] == b[0] {
      LeTotal(a[1..], b[1..]);
      assert a == [a[0]] + a[1..] && b == [b[0]] + b[1..];
    }
  }

  lemma {:induction false} LeTransitive(a: string, b: string, c: string)
    requires Le(a, b) && Le(b, c)
    ensures Le(a, c)
  {
    if a != [] && a[0] == b[0] == c[0] {
      LeTransitive(a[1..], b[1..], c[1..]);
    }
  }

  // The first place where the two differ.
  predicate DiffersAt(a: string, b: string, i: nat) {
    i < |a| && i < |b| && a[..i] == b[..i] && a[i] < b[i]
  }

  // The order of a dictionary: a prefix comes first, and else the first difference
  // decides.
  lemma {:induction false} LeMeans(a: string, b: string)
    ensures Le(a, b) <==> a <= b || exists i :: DiffersAt(a, b, i)
  {
    if a != [] && b != [] {
      LeMeans(a[1..], b[1..]);
      assert a == [a[0]] + a[1..] && b == [b[0]] + b[1..];
      assert a <= b <==> a[0] == b[0] && a[1..] <= b[1..];
      assert a[..0] == b[..0];
      assert DiffersAt(a, b, 0) <==> a[0] < b[0];
      if i: nat :| DiffersAt(a, b, i) {
        if i > 0 {
          DifferLater(a, b, i - 1);
          assert DiffersAt(a[1..], b[1..], i - 1);
        }
      }
      if i: nat :| DiffersAt(a[1..], b[1..], i) {
        DifferLater(a, b, i);
        assert a[0] == b[0] ==> DiffersAt(a, b, i + 1);
      }
    }
  }

  lemma DifferLater(a: string, b: string, i: nat)
    requires a != [] && b != []
    ensures DiffersAt(a, b, i + 1) <==> a[0] == b[0] && DiffersAt(a[1..], b[1..], i)
  {
    if i + 1 < |a| && i + 1 < |b| {
      assert a[..i + 1] == [a[0]] + a[1..][..i] && b[..i + 1] == [b[0]] + b[1..][..i];
      assert a[..i + 1] == b[..i + 1] ==> a[..i + 1][0] == b[..i + 1][0] && a[..i + 1][1..] == b[..i + 1][1..];
    }
  }

  predicate SortedBy<T>(s: seq<T>, key: T -> string) {
    forall i, j :: 0 <= i < j < |s| ==> Le(key(s[i]), key(s[j]))
  }

  predicate DistinctBy<T>(s: seq<T>, key: T -> string) {
    forall i, j :: 0 <= i < j < |s| ==> key(s[i]) != key(s[j])
  }

  // An item that stands under its key unless the map has that key already.
  function Under<T>(x: T, m: map<string, T>, key: T -> string): map<string, T> {
    if key(x) in m then m else m[key(x) := x]
  }

  // The items by key; a later item replaces an earlier one.
  function Keyed<T>(s: seq<T>, key: T -> string): map<string, T> {
    if s == [] then map[] else Under(s[0], Keyed(s[1..], key), key)
  }

  lemma {:induction false} KeyedMembers<T>(s: seq<T>, key: T -> string)
    ensures forall n :: n in Keyed(s, key) ==> key(Keyed(s, key)[n]) == n && Keyed(s, key)[n] in s
    ensures forall x :: x in s ==> key(x) in Keyed(s, key)
  {
    if s != [] {
      KeyedMembers(s[1..], key);
      assert s == [s[0]] + s[1..];
    }
  }

  lemma UnderCommutes<T>(x: T, y: T, m: map<string, T>, key: T -> string)
    ensures Under(x, m[key(y) := y], key) == Under(x, m, key)[key(y) := y]
  {
  }

  lemma {:induction false} KeyedAppends<T>(s: seq<T>, x: T, key: T -> string)
    ensures Keyed(s + [x], key) == Keyed(s, key)[key(x) := x]
  {
    if s == [] {
      assert s + [x] == [x];
    } else {
      assert (s + [x])[1..] == s[1..] + [x];
      KeyedAppends(s[1..], x, key);
      UnderCommutes(s[0], x, Keyed(s[1..], key), key);
    }
  }

  lemma {:induction false} KeyedFinds<T>(s: seq<T>, i: nat, key: T -> string)
    requires DistinctBy(s, key) && i < |s|
    ensures key(s[i]) in Keyed(s, key) && Keyed(s, key)[key(s[i])] == s[i]
  {
    KeyedMembers(s, key);
    assert s[i] in s;
    var j :| 0 <= j < |s| && s[j] == Keyed(s, key)[key(s[i])];
  }

  function InsertBy<T>(x: T, s: seq<T>, key: T -> string): seq<T> {
    if s == [] || Le(key(x), key(s[0])) then [x] + s else [s[0]] + InsertBy(x, s[1..], key)
  }

  // Stable: an item goes before the equal ones that came after it.
  function SortBy<T>(s: seq<T>, key: T -> string): seq<T> {
    if s == [] then [] else InsertBy(s[0], SortBy(s[1..], key), key)
  }

  lemma {:induction false} InsertKeeps<T>(x: T, s: seq<T>, key: T -> string)
    ensures multiset(InsertBy(x, s, key)) == multiset{x} + multiset(s)
  {
    if s != [] && !Le(key(x), key(s[0])) {
      InsertKeeps(x, s[1..], key);
      assert s == [s[0]] + s[1..];
    }
  }

  lemma {:induction false} InsertSorts<T>(x: T, s: seq<T>, key: T -> string)
    requires SortedBy(s, key)
    ensures SortedBy(InsertBy(x, s, key), key)
  {
    if s == [] {
    } else if Le(key(x), key(s[0])) {
      forall j | 0 < j < |s| ensures Le(key(x), key(s[j])) {
        LeTransitive(key(x), key(s[0]), key(s[j]));
      }
    } else {
      var rest := InsertBy(x, s[1..], key);
      InsertSorts(x, s[1..], key);
      InsertKeeps(x, s[1..], key);
      LeTotal(key(x), key(s[0]));
      forall j | 0 <= j < |rest| ensures Le(key(s[0]), key(rest[j])) {
        assert rest[j] in multiset(rest);
        if rest[j] != x {
          assert rest[j] in s[1..];
        }
      }
    }
  }

  lemma UnderSwaps<T>(x: T, y: T, m: map<string, T>, key: T -> string)
    requires key(x) != key(y)
    ensures Under(x, Under(y, m, key), key) == Under(y, Under(x, m, key), key)
  {
  }

  lemma {:induction false} InsertKeyed<T>(x: T, s: seq<T>, key: T -> string)
    ensures Keyed(InsertBy(x, s, key), key) == Under(x, Keyed(s, key), key)
  {
    if s == [] || Le(key(x), key(s[0])) {
      assert ([x] + s)[1..] == s;
    } else {
      LeTotal(key(x), key(s[0]));
      InsertKeyed(x, s[1..], key);
      assert ([s[0]] + InsertBy(x, s[1..], key))[1..] == InsertBy(x, s[1..], key);
      UnderSwaps(x, s[0], Keyed(s[1..], key), key);
    }
  }

  lemma {:induction false} SortByPermutes<T>(s: seq<T>, key: T -> string)
    ensures multiset(SortBy(s, key)) == multiset(s)
  {
    if s != [] {
      SortByPermutes(s[1..], key);
      InsertKeeps(s[0], SortBy(s[1..], key), key);
      assert s == [s[0]] + s[1..];
    }
  }

  lemma {:induction false} SortBySorts<T>(s: seq<T>, key: T -> string)
    ensures SortedBy(SortBy(s, key), key)
  {
    if s != [] {
      SortBySorts(s[1..], key);
      InsertSorts(s[0], SortBy(s[1..], key), key);
    }
  }

  lemma {:induction false} SortByKeyed<T>(s: seq<T>, key: T -> string)
    ensures Keyed(SortBy(s, key), key) == Keyed(s, key)
  {
    if s != [] {
      SortByKeyed(s[1..], key);
      InsertKeyed(s[0], SortBy(s[1..], key), key);
    }
  }

  // Sorting is a sorted permutation, and being stable it collects into the same map.
  lemma SortByIsStableSort<T>(s: seq<T>, key: T -> string)
    ensures SortedBy(SortBy(s, key), key)
    ensures multiset(SortBy(s, key)) == multiset(s)
    ensures |SortBy(s, key)| == |s|
    ensures Keyed(SortBy(s, key), key) == Keyed(s, key)
  {
    SortBySorts(s, key);
    SortByPermutes(s, key);
    SortByKeyed(s, key);
    assert |multiset(SortBy(s, key))| == |multiset(s)|;
  }

  // A permutation keeps the keys distinct.
  lemma DistinctPermutes<T>(s: seq<T>, t: seq<T>, key: T -> string)
    requires DistinctBy(s, key) && multiset(s) == multiset(t) && |s| == |t|
    ensures DistinctBy(t, key)
  {
    forall i, j | 0 <= i < j < |t| ensures key(t[i]) != key(t[j]) {
      if key(t[i]) == key(t[j]) {
        assert t[i] in multiset(s) && t[j] in multiset(s);
        var p :| 0 <= p < |s| && s[p] == t[i];
        var q :| 0 <= q < |s| && s[q] == t[j];
        assert p == q;
        TwoCopies(t, i, j);
        OneCopy(s, p, key);
      }
    }
  }

  lemma TwoCopies<T>(t: seq<T>, i: nat, j: nat)
    requires i < j < |t| && t[i] == t[j]
    ensures multiset(t)[t[i]] >= 2
  {
    assert t == t[..j] + t[j..];
    assert t[i] in t[..j] && t[j] in t[j..];
  }

  lemma OneCopy<T>(s: seq<T>, p: nat, key: T -> string)
    requires DistinctBy(s, key) && p < |s|
    ensures multiset(s)[s[p]] == 1
  {
    assert s == s[..p] + [s[p]] + s[p + 1..];
    assert s[p] !in s[..p] && s[p] !in s[p + 1..];
  }

  // A sorted sequence with distinct keys is determined by its map.
  lemma {:induction false} SortedUnique<T>(s: seq<T>, t: seq<T>, key: T -> string)
    requires SortedBy(s, key) && DistinctBy(s, key) && SortedBy(t, key) && DistinctBy(t, key)
    requires Keyed(s, key) == Keyed(t, key)
    ensures s == t
  {
    if s == [] || t == [] {
      KeyedEmpty(s, key);
      KeyedEmpty(t, key);
    } else {
      SameHead(s, t, key);
      TailKeyed(s, key);
      TailKeyed(t, key);
      SortedUnique(s[1..], t[1..], key);
      assert s == [s[0]] + s[1..] && t == [t[0]] + t[1..];
    }
  }

  lemma KeyedEmpty<T>(s: seq<T>, key: T -> string)
    ensures Keyed(s, key) == map[] <==> s == []
  {
    if s != [] {
      KeyedMembers(s, key);
      assert s[0] in s;
    }
  }

  lemma SameHead<T>(s: seq<T>, t: seq<T>, key: T -> string)
    requires SortedBy(s, key) && DistinctBy(s, key) && SortedBy(t, key) && DistinctBy(t, key)
    requires s != [] && t != [] && Keyed(s, key) == Keyed(t, key)
    ensures s[0] == t[0]
  {
    HeadIsLeast(s, t, key);
    HeadIsLeast(t, s, key);
    LeTotal(key(s[0]), key(t[0]));
    KeyedFinds(s, 0, key);
    KeyedFinds(t, 0, key);
  }

  lemma HeadIsLeast<T>(s: seq<T>, t: seq<T>, key: T -> string)
    requires SortedBy(s, key) && s != [] && t != [] && Keyed(s, key) == Keyed(t, key)
    ensures Le(key(s[0]), key(t[0]))
  {
    KeyedMembers(s, key);
    KeyedMembers(t, key);
    assert t[0] in t;
    var i :| 0 <= i < |s| && s[i] == Keyed(s, key)[key(t[0])];
    LeTotal(key(s[0]), key(s[0]));
  }

  lemma TailKeyed<T>(s: seq<T>, key: T -> string)
    requires s != [] && DistinctBy(s, key)
    ensures Keyed(s[1..], key) == Keyed(s, key) - {key(s[0])}
  {
    HeadKeyIsNew(s, key);
    AddRemove(Keyed(s[1..], key), key(s[0]), s[0]);
  }

  lemma HeadKeyIsNew<T>(s: seq<T>, key: T -> string)
    requires s != [] && DistinctBy(s, key)
    ensures key(s[0]) !in Keyed(s[1..], key)
  {
    KeyedMembers(s[1..], key);
    assert forall x :: x in s[1..] ==> key(x) != key(s[0]);
  }

  lemma AddRemove<T>(m: map<string, T>, k: string, v: T)
    requires k !in m
    ensures m[k := v] - {k} == m
  {
  }

  function Filter<T>(s: seq<T>, p: T -> bool): seq<T> {
    if s == [] then []
    else
      var k := |s| - 1;
      Filter(s[..k], p) + if p(s[k]) then [s[k]] else []
  }

  lemma {:induction false} FilterMembers<T>(s: seq<T>, p: T -> bool)
    ensures forall x :: x in Filter(s, p) <==> x in s && p(x)
  {
    if s != [] {
      var k := |s| - 1;
      FilterMembers(s[..k], p);
      assert s == s[..k] + [s[k]];
    }
  }

  lemma {:induction false} FilterFrom<T>(s: seq<T>, p: T -> bool, i: nat)
    requires i < |Filter(s, p)|
    ensures Filter(s, p)[i] in s
  {
    var k := |s| - 1;
    assert s == s[..k] + [s[k]];
    if i < |Filter(s[..k], p)| {
      FilterFrom(s[..k], p, i);
    }
  }

  lemma LastIsLargest<T>(s: seq<T>, x: T, key: T -> string)
    requires s != [] && SortedBy(s, key) && DistinctBy(s, key) && x in s[..|s| - 1]
    ensures Le(key(x), key(s[|s| - 1])) && key(x) != key(s[|s| - 1])
  {
    var i :| 0 <= i < |s| - 1 && s[i] == x;
  }

  lemma {:induction false} FilterSorted<T>(s: seq<T>, p: T -> bool, key: T -> string)
    requires SortedBy(s, key) && DistinctBy(s, key)
    ensures SortedBy(Filter(s, p), key) && DistinctBy(Filter(s, p), key)
  {
    if s != [] {
      var k := |s| - 1;
      FilterSorted(s[..k], p, key);
      var f := Filter(s[..k], p);
      forall i | 0 <= i < |f| ensures Le(key(f[i]), key(s[k])) && key(f[i]) != key(s[k]) {
        FilterFrom(s[..k], p, i);
        LastIsLargest(s, f[i], key);
      }
    }
  }

  // The entries of a map without some of its keys.
  function Without<T>(m: map<string, T>, keys: set<string>): map<string, T> {
    map n | n in m && n !in keys :: m[n]
  }

  lemma WithoutOne<T>(m: map<string, T>, keys: set<string>, k: string)
    requires k in keys && k in m
    ensures Without(m, keys - {k}) == Without(m, keys)[k := m[k]]
  {
  }

  lemma WithoutEnds<T>(m: map<string, T>)
    ensures Without(m, {}) == m
    ensures Without(m, m.Keys) == map[]
  {
  }

  lemma DistinctAppends<T>(s: seq<T>, x: T, key: T -> string)
    requires DistinctBy(s, key) && key(x) !in Keyed(s, key)
    ensures DistinctBy(s + [x], key)
  {
    KeyedMembers(s, key);
    assert forall i :: 0 <= i < |s| ==> s[i] in s;
  }

  // The values of a map, in any order.
  method Values<T>(m: map<string, T>, key: T -> string) returns (out: seq<T>)
    requires forall n :: n in m ==> key(m[n]) == n
    ensures DistinctBy(out, key) && Keyed(out, key) == m
  {
    out := [];
    var todo := m.Keys;
    WithoutEnds(m);
    while todo != {}
      invariant todo <= m.Keys && DistinctBy(out, key)
      invariant Keyed(out, key) == Without(m, todo)
      decreases |todo|
    {
      var n :| n in todo;
      DistinctAppends(out, m[n], key);
      KeyedAppends(out, m[n], key);
      WithoutOne(m, todo, n);
      todo := todo - {n};
      out := out + [m[n]];
    }
  }
}
