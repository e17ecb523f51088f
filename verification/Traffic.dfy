/**
 Accumulation of the Hysteria traffic counters (Poll in
 agent/internal/hysteria/manager.go): each poll reads and clears the native
 counters and adds them to per-user and node totals. Counters are unbounded here.
 */
module Traffic {
  import opened Wrappers
  import opened Ordering

  datatype UserTraffic = UserTraffic(name: string, up: nat, down: nat)

  // One cleared sample entry, from the server's perspective.
  datatype Counters = Counters(tx: nat, rx: nat)

  type Sample = map<string, Counters>

  datatype Stat = Stat(nodeUp: nat, nodeDown: nat, users: seq<UserTraffic>)

  type ByName = map<string, UserTraffic>

  function Up(m: ByName, name: string): nat {
    if name in m then m[name].up else 0
  }

  function Down(m: ByName, name: string): nat {
    if name in m then m[name].down else 0
  }

  function Rx(s: Sample, name: string): nat {
    if name in s then s[name].rx else 0
  }

  function Tx(s: Sample, name: string): nat {
    if name in s then s[name].tx else 0
  }

  function NameOf(u: UserTraffic): string {
    u.name
  }

  predicate DistinctNames(users: seq<UserTraffic>) {
    DistinctBy(users, NameOf)
  }

  function Index(users: seq<UserTraffic>): ByName {
    Keyed(users, NameOf)
  }

  // ------------------------------------------------------------------------ sums

  ghost function Sum(names: set<string>, f: string -> nat): nat
    decreases |names|
  {
    if names == {} then 0 else var n :| n in names; f(n) + Sum(names - {n}, f)
  }

  lemma {:induction false} SumPick(names: set<string>, f: string -> nat, n: string)
    requires n in names
    ensures Sum(names, f) == f(n) + Sum(names - {n}, f)
    decreases |names|
  {
    var m :| m in names && Sum(names, f) == f(m) + Sum(names - {m}, f);
    if m != n {
      SumPick(names - {m}, f, n);
      SumPick(names - {n}, f, m);
      assert names - {m} - {n} == names - {n} - {m};
    }
  }

  lemma {:induction false} SumAdds(names: set<string>, f: string -> nat, g: string -> nat, h: string -> nat)
    requires forall n :: n in names ==> h(n) == f(n) + g(n)
    ensures Sum(names, h) == Sum(names, f) + Sum(names, g)
    decreases |names|
  {
    if names != {} {
      var n :| n in names;
      SumPick(names, f, n);
      SumPick(names, g, n);
      SumPick(names, h, n);
      SumAdds(names - {n}, f, g, h);
    }
  }

  // Names where f is zero do not matter.
  lemma {:induction false} SumExtends(names: set<string>, more: set<string>, f: string -> nat)
    requires names <= more && forall n :: n in more - names ==> f(n) == 0
    ensures Sum(more, f) == Sum(names, f)
    decreases |more - names|
  {
    if more - names == {} {
      assert more == names;
    } else {
      var n :| n in more - names;
      SumPick(more, f, n);
      SumExtends(names, more - {n}, f);
    }
  }

  // ------------------------------------------------------------------------ poll

  function Added(m: ByName, s: Sample): ByName {
    map n | n in m.Keys + s.Keys :: UserTraffic(n, Up(m, n) + Rx(s, n), Down(m, n) + Tx(s, n))
  }

  function UpOf(m: ByName): string -> nat {
    n => Up(m, n)
  }

  function DownOf(m: ByName): string -> nat {
    n => Down(m, n)
  }

  function RxOf(s: Sample): string -> nat {
    n => Rx(s, n)
  }

  function TxOf(s: Sample): string -> nat {
    n => Tx(s, n)
  }

  ghost function TotalUp(m: ByName): nat {
    Sum(m.Keys, UpOf(m))
  }

  ghost function TotalDown(m: ByName): nat {
    Sum(m.Keys, DownOf(m))
  }

  ghost function SampleRx(s: Sample): nat {
    Sum(s.Keys, RxOf(s))
  }

  ghost function SampleTx(s: Sample): nat {
    Sum(s.Keys, TxOf(s))
  }

  lemma AddedTotals(m: ByName, s: Sample)
    ensures TotalUp(Added(m, s)) == TotalUp(m) + SampleRx(s)
    ensures TotalDown(Added(m, s)) == TotalDown(m) + SampleTx(s)
  {
    var a, all := Added(m, s), m.Keys + s.Keys;
    assert a.Keys == all;
    SumAdds(all, UpOf(m), RxOf(s), UpOf(a));
    SumAdds(all, DownOf(m), TxOf(s), DownOf(a));
    SumExtends(m.Keys, all, UpOf(m));
    SumExtends(m.Keys, all, DownOf(m));
    SumExtends(s.Keys, all, RxOf(s));
    SumExtends(s.Keys, all, TxOf(s));
  }

  class HysteriaStats {
    var latest: Stat

    // Names are distinct and the node totals are the sums over the users.
    ghost predicate Valid()
      reads this
    {
      && DistinctNames(latest.users)
      && latest.nodeUp == TotalUp(Index(latest.users))
      && latest.nodeDown == TotalDown(Index(latest.users))
    }

    constructor ()
      ensures Valid() && latest == Stat(0, 0, [])
    {
      latest := Stat(0, 0, []);
    }

    // A poll that gets no sample changes nothing.
    method Poll(sample: Option<Sample>) returns (ok: bool)
      requires Valid()
      modifies this
      ensures Valid() && ok == sample.Some?
      ensures !ok ==> latest == old(latest)
      ensures ok ==> Index(latest.users) == Added(Index(old(latest).users), sample.value)
      ensures ok ==> latest.nodeUp == old(latest).nodeUp + SampleRx(sample.value)
      ensures ok ==> latest.nodeDown == old(latest).nodeDown + SampleTx(sample.value)
    {
      if sample.None? {
        return false;
      }
      var before := ReadUsers(latest.users);
      KeyedMembers(latest.users, NameOf);
      var users, deltaUp, deltaDown := AddSample(before, sample.value);
      var out := Values(users, NameOf);
      AddedTotals(before, sample.value);
      latest := Stat(latest.nodeUp + deltaUp, latest.nodeDown + deltaDown, out);
      ok := true;
    }
  }

  method ReadUsers(users: seq<UserTraffic>) returns (m: ByName)
    ensures m == Index(users)
  {
    m := map[];
    for i := 0 to |users|
      invariant m == Index(users[..i])
    {
      assert users[..i + 1] == users[..i] + [users[i]];
      KeyedAppends(users[..i], users[i], NameOf);
      m := m[users[i].name := users[i]];
    }
    assert users[..|users|] == users;
  }

  lemma AddedNone(before: ByName)
    requires forall n :: n in before ==> before[n].name == n
    ensures Added(before, map[]) == before
  {
  }

  lemma AddedOne(before: ByName, s: Sample, name: string, value: Counters)
    requires name !in s
    ensures Added(before, s[name := value]) == Credited(Added(before, s), name, value)
  {
  }

  // One user's counters added.
  function Credited(m: ByName, name: string, value: Counters): ByName {
    m[name := UserTraffic(name, Up(m, name) + value.rx, Down(m, name) + value.tx)]
  }

  lemma AddedStep(before: ByName, sample: Sample, todo: set<string>, name: string)
    requires name in todo && name in sample
    ensures Added(before, Without(sample, todo - {name}))
         == Credited(Added(before, Without(sample, todo)), name, sample[name])
  {
    AddedOne(before, Without(sample, todo), name, sample[name]);
    WithoutOne(sample, todo, name);
  }

  // The loop over the sample, in any order.
  method AddSample(before: ByName, sample: Sample) returns (users: ByName, deltaUp: nat, deltaDown: nat)
    requires forall n :: n in before ==> before[n].name == n
    ensures users == Added(before, sample)
    ensures deltaUp == SampleRx(sample) && deltaDown == SampleTx(sample)
  {
    users, deltaUp, deltaDown := before, 0, 0;
    var todo := sample.Keys;
    WithoutEnds(sample);
    AddedNone(before);
    while todo != {}
      invariant todo <= sample.Keys
      invariant users == Added(before, Without(sample, todo))
      invariant deltaUp + Sum(todo, RxOf(sample)) == SampleRx(sample)
      invariant deltaDown + Sum(todo, TxOf(sample)) == SampleTx(sample)
      decreases |todo|
    {
      var name :| name in todo;
      var value := sample[name];
      SumPick(todo, RxOf(sample), name);
      SumPick(todo, TxOf(sample), name);
      AddedStep(before, sample, todo, name);
      todo := todo - {name};
      users := Credited(users, name, value);
      deltaUp := deltaUp + value.rx;
      deltaDown := deltaDown + value.tx;
    }
  }

  // ------------------------------------------------------------------------ runs

  // The per-user totals after a sequence of polls.
  function Polled(samples: seq<Sample>): ByName {
    if samples == [] then map[] else Added(Polled(samples[..|samples| - 1]), samples[|samples| - 1])
  }

  function SumRx(samples: seq<Sample>, name: string): nat {
    if samples == [] then 0 else Rx(samples[0], name) + SumRx(samples[1..], name)
  }

  function SumTx(samples: seq<Sample>, name: string): nat {
    if samples == [] then 0 else Tx(samples[0], name) + SumTx(samples[1..], name)
  }

  lemma {:induction false} SumsSplit(samples: seq<Sample>, s: Sample, name: string)
    ensures SumRx(samples + [s], name) == SumRx(samples, name) + Rx(s, name)
    ensures SumTx(samples + [s], name) == SumTx(samples, name) + Tx(s, name)
  {
    if samples == [] {
      assert samples + [s] == [s];
      assert [s][1..] == [];
    } else {
      assert (samples + [s])[1..] == samples[1..] + [s];
      SumsSplit(samples[1..], s, name);
    }
  }

  // Conservation: each user's totals are the sums of everything ever cleared
  // under that name, with receive counted as upload and send as download.
  lemma {:induction false} PolledIsSum(samples: seq<Sample>, name: string)
    ensures Up(Polled(samples), name) == SumRx(samples, name)
    ensures Down(Polled(samples), name) == SumTx(samples, name)
  {
    if samples != [] {
      var n := |samples| - 1;
      PolledIsSum(samples[..n], name);
      SumsSplit(samples[..n], samples[n], name);
      assert samples == samples[..n] + [samples[n]];
    }
  }

  // Counters never fall from one poll to a later one.
  lemma {:induction false} CountersGrow(samples: seq<Sample>, i: nat, name: string)
    requires i <= |samples|
    ensures Up(Polled(samples[..i]), name) <= Up(Polled(samples), name)
    ensures Down(Polled(samples[..i]), name) <= Down(Polled(samples), name)
    decreases |samples|
  {
    if i == |samples| {
      assert samples[..i] == samples;
    } else {
      var n := |samples| - 1;
      CountersGrow(samples[..n], i, name);
      assert samples[..n][..i] == samples[..i];
    }
  }
}
