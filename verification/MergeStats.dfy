/**
 Merging the native Hysteria counters into the cached sing-box sample (mergeStats
 in agent/internal/grpcserver/server.go). The merged list is built on top of the
 cached slice's own storage, so the result is right and the cache is not.
 Counters are unbounded here, and speeds and connection counts are left out.
 */
module MergeStats {
  import opened Ordering
  import opened Traffic

  function CountersOf(u: UserTraffic): Counters {
    Counters(u.down, u.up)
  }

  // The left users with each right user's bytes added, in turn.
  function Merged(m: ByName, right: seq<UserTraffic>): ByName {
    if right == [] then m
    else
      var k := |right| - 1;
      Credited(Merged(m, right[..k]), right[k].name, CountersOf(right[k]))
  }

  // What one list says a user sent and received, over repeated entries.
  function ListUp(users: seq<UserTraffic>, name: string): nat {
    if users == [] then 0
    else (if users[|users| - 1].name == name then users[|users| - 1].up else 0) + ListUp(users[..|users| - 1], name)
  }

  function ListDown(users: seq<UserTraffic>, name: string): nat {
    if users == [] then 0
    else (if users[|users| - 1].name == name then users[|users| - 1].down else 0) + ListDown(users[..|users| - 1], name)
  }

  function AllUp(users: seq<UserTraffic>): nat {
    if users == [] then 0 else users[|users| - 1].up + AllUp(users[..|users| - 1])
  }

  function AllDown(users: seq<UserTraffic>): nat {
    if users == [] then 0 else users[|users| - 1].down + AllDown(users[..|users| - 1])
  }

  ghost predicate Named(m: ByName) {
    forall n :: n in m ==> m[n].name == n
  }

  ghost function NamesOf(users: seq<UserTraffic>): set<string> {
    set u | u in users :: u.name
  }

  // Each user's merged bytes are the left ones plus the right ones.
  lemma {:induction false} MergedAdds(m: ByName, right: seq<UserTraffic>, name: string)
    ensures Up(Merged(m, right), name) == Up(m, name) + ListUp(right, name)
    ensures Down(Merged(m, right), name) == Down(m, name) + ListDown(right, name)
  {
    if right != [] {
      MergedAdds(m, right[..|right| - 1], name);
    }
  }

  lemma {:induction false} MergedNames(m: ByName, right: seq<UserTraffic>)
    requires Named(m)
    ensures Named(Merged(m, right))
    ensures Merged(m, right).Keys == m.Keys + NamesOf(right)
  {
    if right != [] {
      var k := |right| - 1;
      MergedNames(m, right[..k]);
      assert right == right[..k] + [right[k]];
    }
  }

  lemma CreditedTotals(m: ByName, name: string, value: Counters)
    requires Named(m)
    ensures TotalUp(Credited(m, name, value)) == TotalUp(m) + value.rx
    ensures TotalDown(Credited(m, name, value)) == TotalDown(m) + value.tx
  {
    var s: Sample := map[];
    AddedNone(m);
    AddedOne(m, s, name, value);
    AddedTotals(m, s[name := value]);
    SumPick({name}, RxOf(s[name := value]), name);
    SumPick({name}, TxOf(s[name := value]), name);
    assert s[name := value].Keys == {name} && {name} - {name} == {};
  }

  // No byte is lost or counted twice by one merge.
  lemma {:induction false} MergedTotals(m: ByName, right: seq<UserTraffic>)
    requires Named(m)
    ensures TotalUp(Merged(m, right)) == TotalUp(m) + AllUp(right)
    ensures TotalDown(Merged(m, right)) == TotalDown(m) + AllDown(right)
  {
    if right != [] {
      var k := |right| - 1;
      MergedTotals(m, right[..k]);
      MergedNames(m, right[..k]);
      CreditedTotals(Merged(m, right[..k]), right[k].name, CountersOf(right[k]));
    }
  }

  // ------------------------------------------------------------------------ the merge

  // What the cached storage may hold after a merge that produced `m`: the sorted
  // result itself when it fits, else some of its entries in iteration order.
  ghost predicate MayLeave(m: ByName, before: seq<UserTraffic>, after: seq<UserTraffic>) {
    && |after| == |before|
    && DistinctNames(after)
    && (forall i :: 0 <= i < |after| ==> after[i].name in m && after[i] == m[after[i].name])
    && (|m| == |before| ==> SortedBy(after, NameOf) && Index(after) == m)
  }

  method AddUsers(before: ByName, right: seq<UserTraffic>) returns (users: ByName)
    ensures users == Merged(before, right)
  {
    users := before;
    for i := 0 to |right|
      invariant users == Merged(before, right[..i])
    {
      assert right[..i + 1][..i] == right[..i];
      users := Credited(users, right[i].name, CountersOf(right[i]));
    }
    assert right[..|right|] == right;
  }

  // Appending to a slice of length zero over `a`: in place while it fits, then in
  // a larger copy.
  method AppendAll(a: array<UserTraffic>, values: seq<UserTraffic>) returns (buf: array<UserTraffic>)
    requires |values| >= a.Length
    modifies a
    ensures buf == a <==> |values| == a.Length
    ensures buf != a ==> fresh(buf)
    ensures buf.Length >= |values| && buf[..|values|] == values
    ensures a[..] == values[..a.Length]
  {
    buf := a;
    for i := 0 to |values|
      invariant buf == a || fresh(buf)
      invariant buf == a <==> i <= a.Length
      invariant buf.Length >= i && buf[..i] == values[..i]
      invariant i <= a.Length ==> a[..i] == values[..i]
      invariant i >= a.Length ==> a[..] == values[..a.Length]
    {
      if i == buf.Length {
        buf := Grow(buf, values[i]);
      }
      buf[i] := values[i];
      assert buf[..i + 1] == values[..i + 1];
    }
  }

  method Grow(buf: array<UserTraffic>, fill: UserTraffic) returns (bigger: array<UserTraffic>)
    ensures fresh(bigger) && bigger.Length > buf.Length && bigger[..buf.Length] == buf[..]
  {
    bigger := new UserTraffic[2 * buf.Length + 1](i => fill);
    forall i | 0 <= i < buf.Length {
      bigger[i] := buf[i];
    }
  }

  // sort.Slice over the first n entries, in place.
  method SortPrefix(buf: array<UserTraffic>, n: nat)
    requires n <= buf.Length
    modifies buf
    ensures buf[..n] == SortBy(old(buf[..n]), NameOf)
    ensures buf[n..] == old(buf[n..])
  {
    var sorted := SortBy(buf[..n], NameOf);
    SortByIsStableSort(buf[..n], NameOf);
    forall i | 0 <= i < n {
      buf[i] := sorted[i];
    }
  }

  lemma {:induction false} DistinctSize(s: seq<UserTraffic>)
    requires DistinctNames(s)
    ensures |Index(s)| == |s|
  {
    if s != [] {
      HeadKeyIsNew(s, NameOf);
      DistinctSize(s[1..]);
    }
  }

  lemma SortedValues(values: seq<UserTraffic>)
    requires DistinctNames(values)
    ensures SortedBy(SortBy(values, NameOf), NameOf) && DistinctNames(SortBy(values, NameOf))
    ensures Index(SortBy(values, NameOf)) == Index(values)
  {
    SortByIsStableSort(values, NameOf);
    DistinctPermutes(values, SortBy(values, NameOf), NameOf);
  }

  lemma MergedSize(left: seq<UserTraffic>, right: seq<UserTraffic>)
    requires DistinctNames(left)
    ensures |Merged(Index(left), right)| == |left| + |NamesOf(right) - Index(left).Keys|
    ensures NamesOf(right) <= Index(left).Keys ==> Merged(Index(left), right).Keys == Index(left).Keys
    ensures NamesOf(right) <= Index(left).Keys <==> |Merged(Index(left), right)| == |left|
  {
    KeyedMembers(left, NameOf);
    MergedNames(Index(left), right);
    DistinctSize(left);
    UnionSize(Index(left).Keys, NamesOf(right));
  }

  lemma UnionSize(names: set<string>, more: set<string>)
    ensures |names + more| == |names| + |more - names|
    ensures more <= names <==> more - names == {}
    ensures more <= names ==> names + more == names
  {
    assert names + more == names + (more - names);
  }

  lemma PrefixLeft(before: seq<UserTraffic>, values: seq<UserTraffic>)
    requires DistinctNames(values) && |Index(values)| == |values| > |before|
    ensures MayLeave(Index(values), before, values[..|before|])
  {
    forall i | 0 <= i < |before|
      ensures values[i].name in Index(values) && values[i] == Index(values)[values[i].name]
    {
      KeyedFinds(values, i, NameOf);
    }
  }

  lemma SortedLeft(before: seq<UserTraffic>, sorted: seq<UserTraffic>)
    requires DistinctNames(sorted) && SortedBy(sorted, NameOf) && |sorted| == |before|
    ensures MayLeave(Index(sorted), before, sorted)
  {
    forall i | 0 <= i < |before|
      ensures sorted[i].name in Index(sorted) && sorted[i] == Index(sorted)[sorted[i].name]
    {
      KeyedFinds(sorted, i, NameOf);
    }
  }

  // The result is sorted by name, has no duplicate and adds the two lists. The
  // cached entries are overwritten by it.
  method MergeUsers(a: array<UserTraffic>, right: seq<UserTraffic>) returns (merged: seq<UserTraffic>)
    requires DistinctNames(a[..])
    modifies a
    ensures SortedBy(merged, NameOf) && DistinctNames(merged)
    ensures Index(merged) == Merged(Index(old(a[..])), right)
    ensures MayLeave(Index(merged), old(a[..]), a[..])
  {
    ghost var before := a[..];
    var m := ReadUsers(a[..]);
    KeyedMembers(before, NameOf);
    MergedNames(m, right);
    m := AddUsers(m, right);
    var values := Values(m, NameOf);
    MergedSize(before, right);
    DistinctSize(values);
    SortedValues(values);
    var buf := AppendAll(a, values);
    var n := |values|;
    SortPrefix(buf, n);
    merged := buf[..n];
    if buf == a {
      assert a[..] == merged;
      DistinctSize(merged);
      SortedLeft(before, merged);
    } else {
      PrefixLeft(before, values);
    }
  }

  method Merge(nodeUp: nat, nodeDown: nat, cache: array<UserTraffic>, right: Stat) returns (r: Stat)
    requires DistinctNames(cache[..])
    modifies cache
    ensures r.nodeUp == nodeUp + right.nodeUp && r.nodeDown == nodeDown + right.nodeDown
    ensures SortedBy(r.users, NameOf) && DistinctNames(r.users)
    ensures Index(r.users) == Merged(Index(old(cache[..])), right.users)
    ensures MayLeave(Index(r.users), old(cache[..]), cache[..])
  {
    var users := MergeUsers(cache, right.users);
    r := Stat(nodeUp + right.nodeUp, nodeDown + right.nodeDown, users);
  }

  // ------------------------------------------------------------------------ the cache

  // The cached storage over consecutive ticks of the stats stream, with no poll of
  // either core in between.
  ghost predicate Ticks(caches: seq<seq<UserTraffic>>, right: seq<UserTraffic>) {
    forall k :: 0 < k < |caches| ==> MayLeave(Merged(Index(caches[k - 1]), right), caches[k - 1], caches[k])
  }

  lemma TickAdds(cache: seq<UserTraffic>, right: seq<UserTraffic>, after: seq<UserTraffic>, name: string)
    requires DistinctNames(cache) && NamesOf(right) <= Index(cache).Keys
    requires MayLeave(Merged(Index(cache), right), cache, after)
    ensures DistinctNames(after) && Index(after).Keys == Index(cache).Keys
    ensures Up(Index(after), name) == Up(Index(cache), name) + ListUp(right, name)
    ensures Down(Index(after), name) == Down(Index(cache), name) + ListDown(right, name)
  {
    MergedSize(cache, right);
    MergedAdds(Index(cache), right, name);
  }

  lemma {:induction false} TicksKeepNames(caches: seq<seq<UserTraffic>>, right: seq<UserTraffic>, k: nat)
    requires k < |caches| && Ticks(caches, right)
    requires DistinctNames(caches[0]) && NamesOf(right) <= Index(caches[0]).Keys
    ensures DistinctNames(caches[k]) && Index(caches[k]).Keys == Index(caches[0]).Keys
    decreases k
  {
    if k > 0 {
      TicksKeepNames(caches, right, k - 1);
      TickAdds(caches[k - 1], right, caches[k], "");
    }
  }

  // While every native user is also a sing-box user, each tick adds the native
  // bytes once more: the k-th tick reports them k times.
  lemma {:induction false} TicksCountAgain(caches: seq<seq<UserTraffic>>, right: seq<UserTraffic>, k: nat, name: string)
    requires k < |caches| && Ticks(caches, right)
    requires DistinctNames(caches[0]) && NamesOf(right) <= Index(caches[0]).Keys
    ensures Up(Index(caches[k]), name) == Up(Index(caches[0]), name) + k * ListUp(right, name)
    ensures Down(Index(caches[k]), name) == Down(Index(caches[0]), name) + k * ListDown(right, name)
    decreases k
  {
    if k > 0 {
      TicksCountAgain(caches, right, k - 1, name);
      TicksKeepNames(caches, right, k - 1);
      TickAdds(caches[k - 1], right, caches[k], name);
      OnceMore(k, ListUp(right, name));
      OnceMore(k, ListDown(right, name));
    }
  }

  lemma OnceMore(k: nat, bytes: nat)
    ensures k * bytes == (k - 1) * bytes + bytes
  {
  }

  // The right list adds nothing to the left one.
  ghost predicate AddsNothing(left: seq<UserTraffic>, right: seq<UserTraffic>) {
    forall u :: u in right ==> u.name in Index(left) && u.up == 0 && u.down == 0
  }

  // Every merge leaves the cache as it was, whatever the iteration order.
  ghost predicate KeepsCache(left: seq<UserTraffic>, right: seq<UserTraffic>) {
    forall after :: MayLeave(Merged(Index(left), right), left, after) ==> after == left
  }

  lemma CreditedNothing(m: ByName, name: string)
    requires name in m && m[name].name == name
    ensures Credited(m, name, Counters(0, 0)) == m
  {
  }

  lemma {:induction false} MergedNothing(left: seq<UserTraffic>, right: seq<UserTraffic>)
    requires AddsNothing(left, right)
    ensures Merged(Index(left), right) == Index(left)
  {
    if right != [] {
      var k := |right| - 1;
      assert right == right[..k] + [right[k]];
      MergedNothing(left, right[..k]);
      KeyedMembers(left, NameOf);
      CreditedNothing(Index(left), right[k].name);
    }
  }

  lemma NothingKeeps(left: seq<UserTraffic>, right: seq<UserTraffic>)
    requires SortedBy(left, NameOf) && DistinctNames(left)
    requires left == [] || AddsNothing(left, right)
    ensures KeepsCache(left, right)
  {
    forall after | MayLeave(Merged(Index(left), right), left, after) ensures after == left {
      if left != [] {
        MergedNothing(left, right);
        DistinctSize(left);
        SortedUnique(after, left, NameOf);
      }
    }
  }

  // The left list with the merged bytes.
  ghost function Refreshed(left: seq<UserTraffic>, m: ByName): seq<UserTraffic>
    requires forall i :: 0 <= i < |left| ==> left[i].name in m
  {
    seq(|left|, i requires 0 <= i < |left| => m[left[i].name])
  }

  lemma LeftNamesMerged(left: seq<UserTraffic>, right: seq<UserTraffic>)
    ensures Named(Index(left)) && Named(Merged(Index(left), right))
    ensures forall i :: 0 <= i < |left| ==> left[i].name in Merged(Index(left), right)
    ensures forall u :: u in right ==> u.name in Merged(Index(left), right)
  {
    KeyedMembers(left, NameOf);
    MergedNames(Index(left), right);
    forall u | u in right ensures u.name in NamesOf(right) {
    }
    forall i | 0 <= i < |left| ensures left[i].name in Index(left) {
      assert left[i] in left;
    }
  }

  lemma NotOnLeft(left: seq<UserTraffic>, name: string)
    requires name !in Index(left)
    ensures forall i :: 0 <= i < |left| ==> left[i].name != name
  {
    KeyedMembers(left, NameOf);
    forall i | 0 <= i < |left| ensures left[i].name != name {
      assert left[i] in left;
    }
  }

  // The left entries refreshed, with another user in the first place.
  lemma FirstReplaced(left: seq<UserTraffic>, m: ByName, name: string, after: seq<UserTraffic>)
    requires left != [] && DistinctNames(left) && Named(m) && name in m
    requires forall i :: 0 <= i < |left| ==> left[i].name in m && left[i].name != name
    requires after == Refreshed(left, m)[0 := m[name]]
    ensures DistinctNames(after)
    ensures forall i :: 0 <= i < |after| ==> after[i].name in m && after[i] == m[after[i].name]
  {
    assert forall i :: 0 < i < |left| ==> after[i] == m[left[i].name];
  }

  // A native user the sing-box list lacks can take the first cached place.
  lemma NewNameSpoils(left: seq<UserTraffic>, right: seq<UserTraffic>, u: UserTraffic)
    requires left != [] && DistinctNames(left) && u in right && u.name !in Index(left)
    ensures !KeepsCache(left, right)
  {
    var m := Merged(Index(left), right);
    LeftNamesMerged(left, right);
    NotOnLeft(left, u.name);
    var after := Refreshed(left, m)[0 := m[u.name]];
    FirstReplaced(left, m, u.name, after);
    MergedSize(left, right);
    assert u.name in NamesOf(right);
    assert MayLeave(m, left, after);
    assert after[0] != left[0];
  }

  lemma {:induction false} BytesListed(right: seq<UserTraffic>, u: UserTraffic)
    requires u in right
    ensures ListUp(right, u.name) >= u.up && ListDown(right, u.name) >= u.down
  {
    var k := |right| - 1;
    assert right == right[..k] + [right[k]];
    if u in right[..k] {
      BytesListed(right[..k], u);
    }
  }

  // Native bytes of a known user end up in the cached entry.
  lemma BytesSpoil(left: seq<UserTraffic>, right: seq<UserTraffic>, u: UserTraffic)
    requires SortedBy(left, NameOf) && DistinctNames(left) && NamesOf(right) <= Index(left).Keys
    requires u in right && u.name in Index(left) && (u.up > 0 || u.down > 0)
    ensures !KeepsCache(left, right)
  {
    var m := Merged(Index(left), right);
    LeftNamesMerged(left, right);
    var after := Refreshed(left, m);
    MergedSize(left, right);
    RefreshedIndex(left, m, after);
    assert MayLeave(m, left, after);
    BytesListed(right, u);
    MergedAdds(Index(left), right, u.name);
    assert Index(after) != Index(left);
  }

  lemma RefreshedIndex(left: seq<UserTraffic>, m: ByName, after: seq<UserTraffic>)
    requires DistinctNames(left) && m.Keys == Index(left).Keys && Named(m)
    requires |after| == |left|
    requires forall i :: 0 <= i < |left| ==> left[i].name in m && after[i] == m[left[i].name]
    ensures DistinctNames(after) && Index(after) == m
  {
    assert forall i :: 0 <= i < |left| ==> after[i].name == left[i].name;
    forall n | n in m ensures n in Index(after) && Index(after)[n] == m[n] {
      RefreshedEntry(left, m, after, n);
    }
    forall n | n in Index(after) ensures n in m {
      KeyedMembers(after, NameOf);
      var i :| 0 <= i < |after| && after[i] == Index(after)[n];
    }
  }

  lemma RefreshedEntry(left: seq<UserTraffic>, m: ByName, after: seq<UserTraffic>, n: string)
    requires DistinctNames(after) && n in m && n in Index(left) && |after| == |left|
    requires forall i :: 0 <= i < |left| ==> left[i].name in m && after[i] == m[left[i].name]
    requires forall i :: 0 <= i < |left| ==> after[i].name == left[i].name
    ensures n in Index(after) && Index(after)[n] == m[n]
  {
    KeyedMembers(left, NameOf);
    var i :| 0 <= i < |left| && left[i] == Index(left)[n];
    KeyedFinds(after, i, NameOf);
  }

  // Exactly when the cached sample survives a merge: it is empty, or the native
  // side reports only known users with no bytes.
  lemma CacheSurvives(left: seq<UserTraffic>, right: seq<UserTraffic>)
    requires SortedBy(left, NameOf) && DistinctNames(left)
    ensures KeepsCache(left, right) <==> left == [] || AddsNothing(left, right)
  {
    if left == [] || AddsNothing(left, right) {
      NothingKeeps(left, right);
    } else if u :| u in right && u.name !in Index(left) {
      NewNameSpoils(left, right, u);
    } else {
      var u :| u in right && (u.up > 0 || u.down > 0);
      BytesSpoil(left, right, u);
    }
  }
}
