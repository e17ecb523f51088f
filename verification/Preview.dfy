/**
 The configuration preview (summarize and preview in master/src/spec.rs): what a
 push would add, change and remove on a node, and which cores it restarts. The
 hash of the encoded spec is a parameter.
 */
module Preview {
  import Agents
  import opened Ordering
  import opened Wrappers

  datatype Tls = Tls(enabled: bool, reality: bool)

  // `rest` stands for the fields no summary looks at.
  datatype Inbound = Inbound(tag: string, core: string, protocol: string, listen: string, port: nat,
                             network: Option<string>, tls: Option<Tls>, users: seq<string>, rest: string)

  datatype Security = NoSecurity | TlsSecurity | RealitySecurity

  datatype Summary = Summary(tag: string, core: string, protocol: string, listen: string, port: nat,
                             network: string, security: Security, userCount: nat)

  type Table = map<string, Summary>

  datatype ConfigPreview = ConfigPreview(desiredHash: string, appliedHash: Option<string>, changed: bool,
                                         baselineAvailable: bool, added: seq<Summary>, removed: seq<Summary>,
                                         modified: seq<Summary>, restartCores: set<string>)

  function TagOf(s: Summary): string {
    s.tag
  }

  function SecurityOf(tls: Option<Tls>): Security {
    if tls.Some? && tls.value.reality then RealitySecurity
    else if tls.Some? && tls.value.enabled then TlsSecurity
    else NoSecurity
  }

  function SummaryOf(i: Inbound): Summary {
    Summary(i.tag,
            if i.core == "" then "singbox" else i.core,
            i.protocol, i.listen, i.port,
            if i.network.Some? && i.network.value != "" then i.network.value else "tcp",
            SecurityOf(i.tls),
            |i.users|)
  }

  // The names under which an empty core or network is shown.
  predicate SameUnder(a: string, b: string, empty: string) {
    a == b || (a in {"", empty} && b in {"", empty})
  }

  // What a summary shows for security and transport.
  lemma SummaryShows(i: Inbound)
    ensures var s := SummaryOf(i);
            && s.tag == i.tag && s.protocol == i.protocol && s.listen == i.listen && s.port == i.port
            && s.userCount == |i.users|
            && (s.security == RealitySecurity <==> i.tls.Some? && i.tls.value.reality)
            && (s.security == NoSecurity <==> i.tls.None? || (!i.tls.value.reality && !i.tls.value.enabled))
            && (i.network.GetOr("") == "" ==> s.network == "tcp")
            && (i.network.GetOr("") != "" ==> i.network == Some(s.network))
  {
  }

  // Exactly when two inbounds look the same in a preview.
  lemma LooksTheSame(i: Inbound, j: Inbound)
    ensures SummaryOf(i) == SummaryOf(j) <==>
            && i.tag == j.tag && i.protocol == j.protocol && i.listen == j.listen && i.port == j.port
            && SameUnder(i.core, j.core, "singbox")
            && SameUnder(i.network.GetOr(""), j.network.GetOr(""), "tcp")
            && ((i.tls.Some? && i.tls.value.reality) <==> (j.tls.Some? && j.tls.value.reality))
            && ((i.tls.Some? && (i.tls.value.reality || i.tls.value.enabled)) <==>
                (j.tls.Some? && (j.tls.value.reality || j.tls.value.enabled)))
            && |i.users| == |j.users|
  {
  }

  // The core a preview names is the one that runs the inbound on the agent exactly when
  // it is one the agent knows and the inbound is not Hysteria2 left to the default.
  lemma ShownCoreRuns(i: Inbound)
    ensures SummaryOf(i).core == Agents.CoreOfInbound(Agents.Inbound(i.core, i.protocol, i.tag)) <==>
            || i.core == "xray" || i.core == "hysteria"
            || (i.core in {"", "singbox"} && i.protocol != "hysteria2")
  {
  }

  function SummariesOf(spec: seq<Inbound>): seq<Summary> {
    seq(|spec|, i requires 0 <= i < |spec| => SummaryOf(spec[i]))
  }

  // The summaries by tag; the last inbound with a tag wins.
  function TableOf(spec: seq<Inbound>): Table {
    Keyed(SummariesOf(spec), TagOf)
  }

  // One summary per inbound, sorted by tag, inbounds of one tag in spec order.
  method Summarize(spec: seq<Inbound>) returns (s: seq<Summary>)
    ensures SortedBy(s, TagOf) && |s| == |spec|
    ensures multiset(s) == multiset(SummariesOf(spec))
    ensures Keyed(s, TagOf) == TableOf(spec)
  {
    s := SortBy(SummariesOf(spec), TagOf);
    SortByIsStableSort(SummariesOf(spec), TagOf);
  }

  // ------------------------------------------------------------------------ the diff

  function Missing(m: Table): Summary -> bool {
    (s: Summary) => s.tag !in m
  }

  function Differing(m: Table): Summary -> bool {
    (s: Summary) => s.tag in m && m[s.tag] != s
  }

  function CoresOf(s: seq<Summary>): set<string> {
    set x | x in s :: x.core
  }

  function PriorCores(s: seq<Summary>, m: Table): set<string> {
    set x | x in s && x.tag in m :: m[x.tag].core
  }

  // The sorted entries of the map a list collects into.
  method Entries(list: seq<Summary>) returns (m: Table, s: seq<Summary>)
    ensures m == Keyed(list, TagOf)
    ensures SortedBy(s, TagOf) && DistinctBy(s, TagOf) && Keyed(s, TagOf) == m
  {
    m := map[];
    for i := 0 to |list|
      invariant m == Keyed(list[..i], TagOf)
    {
      assert list[..i + 1] == list[..i] + [list[i]];
      KeyedAppends(list[..i], list[i], TagOf);
      m := m[list[i].tag := list[i]];
    }
    assert list[..|list|] == list;
    KeyedMembers(list, TagOf);
    var values := Values(m, TagOf);
    s := SortBy(values, TagOf);
    SortByIsStableSort(values, TagOf);
    DistinctPermutes(values, s, TagOf);
  }

  // The cores of new entries, and of changed ones before and after.
  function Touched(added: seq<Summary>, modified: seq<Summary>, prior: Table): set<string> {
    CoresOf(added) + CoresOf(modified) + PriorCores(modified, prior)
  }

  lemma TouchedAppend(added: seq<Summary>, modified: seq<Summary>, s: Summary, prior: Table)
    ensures Touched(added + [s], modified, prior) == Touched(added, modified, prior) + {s.core}
    ensures s.tag in prior ==>
              Touched(added, modified + [s], prior) == Touched(added, modified, prior) + {prior[s.tag].core} + {s.core}
  {
    CoresAppend(added, s, prior);
    CoresAppend(modified, s, prior);
  }

  // The loop over the desired entries.
  method Compare(desired: seq<Summary>, prior: Table)
    returns (added: seq<Summary>, modified: seq<Summary>, restart: set<string>)
    ensures added == Filter(desired, Missing(prior))
    ensures modified == Filter(desired, Differing(prior))
    ensures restart == Touched(added, modified, prior)
  {
    added, modified, restart := [], [], {};
    for i := 0 to |desired|
      invariant added == Filter(desired[..i], Missing(prior))
      invariant modified == Filter(desired[..i], Differing(prior))
      invariant restart == Touched(added, modified, prior)
    {
      var s := desired[i];
      assert desired[..i + 1][..i] == desired[..i];
      TouchedAppend(added, modified, s, prior);
      if s.tag !in prior {
        added := added + [s];
        restart := restart + {s.core};
      } else if prior[s.tag] != s {
        modified := modified + [s];
        restart := restart + {prior[s.tag].core} + {s.core};
      }
    }
    assert desired[..|desired|] == desired;
  }

  lemma CoresAppend(list: seq<Summary>, s: Summary, prior: Table)
    ensures CoresOf(list + [s]) == CoresOf(list) + {s.core}
    ensures s.tag in prior ==> PriorCores(list + [s], prior) == PriorCores(list, prior) + {prior[s.tag].core}
  {
    assert s in list + [s];
  }

  // The loop over the earlier entries.
  method Gone(prior: seq<Summary>, desired: Table) returns (removed: seq<Summary>, restart: set<string>)
    ensures removed == Filter(prior, Missing(desired))
    ensures restart == CoresOf(removed)
  {
    removed, restart := [], {};
    for i := 0 to |prior|
      invariant removed == Filter(prior[..i], Missing(desired))
      invariant restart == CoresOf(removed)
    {
      assert prior[..i + 1][..i] == prior[..i];
      CoresAppend(removed, prior[i], desired);
      if prior[i].tag !in desired {
        removed := removed + [prior[i]];
        restart := restart + {prior[i].core};
      }
    }
    assert prior[..|prior|] == prior;
  }

  // The earlier table with the preview's changes made.
  function Patched(before: Table, r: ConfigPreview): Table {
    (before - set s | s in r.removed :: s.tag) + Keyed(r.modified, TagOf) + Keyed(r.added, TagOf)
  }

  function OfCore(m: Table, core: string): Table {
    map t | t in m && m[t].core == core :: m[t]
  }

  // What a preview against a baseline means.
  ghost predicate IsDiff(before: Table, after: Table, r: ConfigPreview) {
    && Tidy(r.added) && Tidy(r.modified) && Tidy(r.removed)
    && (forall s :: s in r.added <==> s.tag in after && after[s.tag] == s && s.tag !in before)
    && (forall s :: s in r.modified <==> s.tag in after && after[s.tag] == s && s.tag in before && before[s.tag] != s)
    && (forall s :: s in r.removed <==> s.tag in before && before[s.tag] == s && s.tag !in after)
    && r.restartCores == Touched(r.added, r.modified, before) + CoresOf(r.removed)
  }

  ghost predicate Tidy(s: seq<Summary>) {
    SortedBy(s, TagOf) && DistinctBy(s, TagOf)
  }

  method Preview(spec: seq<Inbound>, desiredHash: string, appliedHash: Option<string>, baseline: Option<seq<Summary>>)
    returns (r: ConfigPreview)
    ensures r.desiredHash == desiredHash && r.appliedHash == appliedHash && r.baselineAvailable == baseline.Some?
    ensures r.changed <==> appliedHash != Some(desiredHash)
    ensures baseline.Some? ==> IsDiff(Keyed(baseline.value, TagOf), TableOf(spec), r)
    ensures baseline.Some? ==> Patched(Keyed(baseline.value, TagOf), r) == TableOf(spec)
    ensures baseline.Some? ==> forall core :: core in r.restartCores <==>
              OfCore(Keyed(baseline.value, TagOf), core) != OfCore(TableOf(spec), core)
    ensures baseline.None? ==> r.removed == [] && r.modified == [] && r.restartCores == CoresOf(r.added)
    ensures baseline.None? && r.changed ==>
              SortedBy(r.added, TagOf) && multiset(r.added) == multiset(SummariesOf(spec))
    ensures baseline.None? && !r.changed ==> r.added == []
  {
    var desired := Summarize(spec);
    var changed := appliedHash != Some(desiredHash);
    var added, removed, modified, restart := [], [], [], {};
    if baseline.Some? {
      var before, prior := Entries(baseline.value);
      var after, next := Entries(desired);
      added, modified, restart := Compare(next, before);
      var cores;
      removed, cores := Gone(prior, after);
      restart := restart + cores;
      SortedFilters(before, prior, after, next);
    } else if changed {
      added := desired;
      restart := CoresOf(added);
    }
    r := ConfigPreview(desiredHash, appliedHash, changed, baseline.Some?, added, removed, modified, restart);
    if baseline.Some? {
      DiffMeans(baseline.value, spec, r);
    }
  }

  lemma EntryIff(s: seq<Summary>, x: Summary)
    requires DistinctBy(s, TagOf)
    ensures x in s <==> x.tag in Keyed(s, TagOf) && Keyed(s, TagOf)[x.tag] == x
  {
    KeyedMembers(s, TagOf);
    if x in s {
      var i :| 0 <= i < |s| && s[i] == x;
      KeyedFinds(s, i, TagOf);
    }
  }

  lemma SortedFilters(before: Table, prior: seq<Summary>, after: Table, next: seq<Summary>)
    requires Tidy(prior) && Keyed(prior, TagOf) == before && Tidy(next) && Keyed(next, TagOf) == after
    ensures Tidy(Filter(next, Missing(before))) && Tidy(Filter(next, Differing(before)))
    ensures Tidy(Filter(prior, Missing(after)))
    ensures forall s :: s in Filter(next, Missing(before)) <==> s.tag in after && after[s.tag] == s && s.tag !in before
    ensures forall s :: s in Filter(next, Differing(before)) <==>
              s.tag in after && after[s.tag] == s && s.tag in before && before[s.tag] != s
    ensures forall s :: s in Filter(prior, Missing(after)) <==> s.tag in before && before[s.tag] == s && s.tag !in after
  {
    FilterSorted(next, Missing(before), TagOf);
    FilterSorted(next, Differing(before), TagOf);
    FilterSorted(prior, Missing(after), TagOf);
    FilterMembers(next, Missing(before));
    FilterMembers(next, Differing(before));
    FilterMembers(prior, Missing(after));
    forall s: Summary
      ensures s in next <==> s.tag in after && after[s.tag] == s
      ensures s in prior <==> s.tag in before && before[s.tag] == s
    {
      EntryIff(next, s);
      EntryIff(prior, s);
    }
  }

  // ------------------------------------------------------------------------ what it means

  ghost predicate WellTagged(m: Table) {
    forall t :: t in m ==> m[t].tag == t
  }

  // The three lists name different tags, and making their changes to the earlier
  // table gives exactly the desired one.
  lemma DiffPatches(before: Table, after: Table, r: ConfigPreview)
    requires WellTagged(before) && WellTagged(after) && IsDiff(before, after, r)
    ensures forall s, x :: s in r.added && (x in r.modified || x in r.removed) ==> s.tag != x.tag
    ensures forall s, x :: s in r.modified && x in r.removed ==> s.tag != x.tag
    ensures Patched(before, r) == after
  {
    DiffDisjoint(before, after, r);
    var patched := Patched(before, r);
    forall t: string
      ensures t in patched <==> t in after
      ensures t in after ==> patched[t] == after[t]
    {
      PatchedAt(before, after, r, t);
    }
    SameTable(patched, after);
  }

  lemma DiffDisjoint(before: Table, after: Table, r: ConfigPreview)
    requires IsDiff(before, after, r)
    ensures forall s, x :: s in r.added && (x in r.modified || x in r.removed) ==> s.tag != x.tag
    ensures forall s, x :: s in r.modified && x in r.removed ==> s.tag != x.tag
  {
  }

  lemma SameTable(m: Table, n: Table)
    requires forall t :: t in m <==> t in n
    requires forall t :: t in n ==> m[t] == n[t]
    ensures m == n
  {
  }

  lemma ListAt(list: seq<Summary>, t: string)
    requires DistinctBy(list, TagOf)
    ensures t in Keyed(list, TagOf) <==> exists s :: s in list && s.tag == t
    ensures forall s :: s in list && s.tag == t ==> Keyed(list, TagOf)[t] == s
  {
    KeyedMembers(list, TagOf);
    forall s | s in list && s.tag == t ensures Keyed(list, TagOf)[t] == s {
      EntryIff(list, s);
    }
  }

  lemma PatchedAt(before: Table, after: Table, r: ConfigPreview, t: string)
    requires WellTagged(before) && WellTagged(after) && IsDiff(before, after, r)
    ensures t in Patched(before, r) <==> t in after
    ensures t in after ==> Patched(before, r)[t] == after[t]
  {
    ListAt(r.added, t);
    ListAt(r.modified, t);
    if t in after {
      var s := after[t];
      assert t !in before ==> s in r.added;
      assert t in before && before[t] != s ==> s in r.modified;
    } else if t in before {
      assert before[t] in r.removed;
    }
  }

  // A core is restarted exactly when its inbounds' summaries change.
  lemma RestartsExactly(before: Table, after: Table, r: ConfigPreview, core: string)
    requires WellTagged(before) && WellTagged(after) && IsDiff(before, after, r)
    ensures core in r.restartCores <==> OfCore(before, core) != OfCore(after, core)
  {
    if core in r.restartCores {
      RestartHasReason(before, after, r, core);
    } else {
      forall t: string
        ensures t in OfCore(before, core) <==> t in OfCore(after, core)
        ensures t in OfCore(before, core) ==> OfCore(before, core)[t] == OfCore(after, core)[t]
      {
        QuietTag(before, after, r, core, t);
      }
    }
  }

  lemma QuietTag(before: Table, after: Table, r: ConfigPreview, core: string, t: string)
    requires WellTagged(before) && WellTagged(after) && IsDiff(before, after, r) && core !in r.restartCores
    ensures t in OfCore(before, core) <==> t in OfCore(after, core)
    ensures t in OfCore(before, core) ==> OfCore(before, core)[t] == OfCore(after, core)[t]
  {
    if t in after && t !in before {
      assert after[t] in r.added;
      assert after[t].core in CoresOf(r.added);
    } else if t in before && t !in after {
      assert before[t] in r.removed;
      assert before[t].core in CoresOf(r.removed);
    } else if t in before && before[t] != after[t] {
      assert after[t] in r.modified;
      assert after[t].core in CoresOf(r.modified) && before[t].core in PriorCores(r.modified, before);
    }
  }

  lemma RestartHasReason(before: Table, after: Table, r: ConfigPreview, core: string)
    requires IsDiff(before, after, r) && core in r.restartCores
    ensures OfCore(before, core) != OfCore(after, core)
  {
    var b, a := OfCore(before, core), OfCore(after, core);
    if core in CoresOf(r.added) {
      var s :| s in r.added && s.core == core;
      assert s.tag in a && s.tag !in b;
    } else if core in CoresOf(r.modified) {
      var s :| s in r.modified && s.core == core;
      assert s.tag in a && a[s.tag] == s && (s.tag in b ==> b[s.tag] == before[s.tag]);
    } else if core in PriorCores(r.modified, before) {
      var s :| s in r.modified && s.tag in before && before[s.tag].core == core;
      assert s.tag in b && s.core in CoresOf(r.modified) && s.tag !in a;
    } else {
      var s :| s in r.removed && s.core == core;
      assert s.tag in b && s.tag !in a;
    }
  }

  // A preview shows no change exactly when the tables are equal.
  lemma ShowsNothingIff(before: Table, after: Table, r: ConfigPreview)
    requires WellTagged(before) && WellTagged(after) && IsDiff(before, after, r)
    ensures r.added == [] && r.modified == [] && r.removed == [] <==> before == after
    ensures before == after ==> r.restartCores == {}
  {
    DiffPatches(before, after, r);
    assert r.added != [] ==> r.added[0] in r.added;
    assert r.modified != [] ==> r.modified[0] in r.modified;
    assert r.removed != [] ==> r.removed[0] in r.removed;
  }

  // Summaries count users and drop the other fields, so a spec with users
  // replaced can need a push that the preview shows as no change at all.
  lemma ReplacedUsersShowNothing(spec: seq<Inbound>, k: nat, users: seq<string>, rest: string)
    requires k < |spec| && |users| == |spec[k].users|
    ensures TableOf(spec[k := spec[k].(users := users, rest := rest)]) == TableOf(spec)
  {
    assert SummariesOf(spec[k := spec[k].(users := users, rest := rest)]) == SummariesOf(spec);
  }

  lemma DiffMeans(baseline: seq<Summary>, spec: seq<Inbound>, r: ConfigPreview)
    requires IsDiff(Keyed(baseline, TagOf), TableOf(spec), r)
    ensures Patched(Keyed(baseline, TagOf), r) == TableOf(spec)
    ensures forall core :: core in r.restartCores <==>
              OfCore(Keyed(baseline, TagOf), core) != OfCore(TableOf(spec), core)
  {
    KeyedMembers(baseline, TagOf);
    KeyedMembers(SummariesOf(spec), TagOf);
    DiffPatches(Keyed(baseline, TagOf), TableOf(spec), r);
    forall core: string
      ensures core in r.restartCores <==> OfCore(Keyed(baseline, TagOf), core) != OfCore(TableOf(spec), core)
    {
      RestartsExactly(Keyed(baseline, TagOf), TableOf(spec), r, core);
    }
  }
}
