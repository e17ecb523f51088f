/**
 The traffic quota from the master to the agent: what build_node_spec sends
 (master/src/spec.rs), what the agent keeps of a push, and whom it cuts off until
 the next one (agent/internal/localquota, agent/internal/grpcserver).
 */
module Quota {
  import opened Picking
  import opened Sets

  // -------------------------------------------------------------------- master

  datatype User = User(name: string, enabled: bool, expired: bool, limit: int, used: int)

  predicate IsActive(u: User) {
    u.enabled && !u.expired && !(u.limit > 0 && u.used >= u.limit)
  }

  // 0 stands for unlimited.
  function QuotaBytes(u: User): nat {
    if u.limit > 0 then (if u.limit - u.used > 0 then u.limit - u.used else 0) else 0
  }

  datatype Pushed = Pushed(name: string, quota: nat)

  // The users of one inbound: the active ones, then the chain credentials, which
  // are unlimited.
  function InboundUsers(users: seq<User>, chain: seq<string>): seq<Pushed> {
    ActiveUsers(users) + seq(|chain|, i requires 0 <= i < |chain| => Pushed(chain[i], 0))
  }

  function ActiveUsers(users: seq<User>): seq<Pushed> {
    if users == [] then []
    else (if IsActive(users[0]) then [Pushed(users[0].name, QuotaBytes(users[0]))] else []) + ActiveUsers(users[1..])
  }

  // What is sent: the users that are enabled, not expired and below their limit if they
  // have one, in order, each with what is left of that limit.
  lemma {:induction false} ActivePicks(users: seq<User>)
    ensures Picks(users, (u: User) => u.enabled && !u.expired && (u.limit <= 0 || u.used < u.limit),
                  (u: User) => Pushed(u.name, if 0 < u.limit && u.used < u.limit then u.limit - u.used else 0),
                  ActiveUsers(users))
  {
    if users != [] {
      ActivePicks(users[1..]);
      PicksNext(users, (u: User) => u.enabled && !u.expired && (u.limit <= 0 || u.used < u.limit),
                (u: User) => Pushed(u.name, if 0 < u.limit && u.used < u.limit then u.limit - u.used else 0),
                ActiveUsers(users[1..]));
    }
  }

  // Among the users that are sent, 0 is sent exactly for the unlimited.
  lemma ZeroMeansUnlimited(u: User)
    requires IsActive(u)
    ensures QuotaBytes(u) == 0 <==> u.limit <= 0
    ensures u.limit > 0 ==> QuotaBytes(u) == u.limit - u.used
  {
  }

  // --------------------------------------------------------------------- agent

  function Get(m: map<string, nat>, name: string): nat {
    if name in m then m[name] else 0
  }

  // The user has a quota and has used it up since the baseline.
  predicate Over(totals: map<string, nat>, baseline: map<string, nat>, quota: map<string, nat>, name: string) {
    name in quota && quota[name] > 0 && Get(totals, name) >= Get(baseline, name) + quota[name]
  }

  predicate AllTrue(m: map<string, bool>) {
    forall k :: k in m ==> m[k]
  }

  // The map holds exactly the users over their quota.
  method Decide(totals: map<string, nat>, baseline: map<string, nat>, quota: map<string, nat>)
    returns (out: map<string, bool>)
    ensures AllTrue(out)
    ensures forall n :: n in out <==> Over(totals, baseline, quota, n)
  {
    out := map[];
    var names := quota.Keys;
    while names != {}
      invariant names <= quota.Keys && AllTrue(out)
      invariant forall n :: n in out <==> n !in names && Over(totals, baseline, quota, n)
      decreases |names|
    {
      var name :| name in names;
      names := names - {name};
      var q := quota[name];
      if q != 0 {
        var delta := 0;
        var used := Get(totals, name);
        if used > Get(baseline, name) {
          delta := used - Get(baseline, name);
        }
        if delta >= q {
          out := out[name := true];
        }
      }
    }
  }

  // For maps as Decide makes them the answer is whether the sets differ.
  method Changed(a: map<string, bool>, b: map<string, bool>) returns (r: bool)
    ensures AllTrue(a) && AllTrue(b) ==> (r <==> a.Keys != b.Keys)
  {
    if |a| != |b| {
      return true;
    }
    var keys := a.Keys;
    while keys != {}
      invariant keys <= a.Keys
      invariant forall k :: k in a && k !in keys ==> k in b && b[k]
      decreases |keys|
    {
      var k :| k in keys;
      keys := keys - {k};
      if !(k in b && b[k]) {
        return true;
      }
    }
    SubsetSize(a.Keys, b.Keys);
    r := false;
  }

  // What a push leaves: the last positive quota sent for each name.
  function Captured(quota: map<string, nat>, users: seq<Pushed>): map<string, nat>
    decreases |users|
  {
    if users == [] then quota
    else
      var init, u := users[..|users| - 1], users[|users| - 1];
      var q := Captured(quota, init);
      if u.quota > 0 then q[u.name := u.quota] else q
  }

  function CapturedAll(inbounds: seq<seq<Pushed>>): map<string, nat> {
    if inbounds == [] then map[] else Captured(CapturedAll(inbounds[..|inbounds| - 1]), inbounds[|inbounds| - 1])
  }

  datatype LiveConn = LiveConn(id: string, user: string)

  function Among(users: set<string>): LiveConn -> bool {
    (c: LiveConn) => c.user in users
  }

  function IdOf(): LiveConn -> string {
    (c: LiveConn) => c.id
  }

  // The ids of the users' connections.
  function IdsOf(conns: seq<LiveConn>, users: set<string>): seq<string> {
    if conns == [] then []
    else (if conns[0].user in users then [conns[0].id] else []) + IdsOf(conns[1..], users)
  }

  lemma {:induction false} IdsPick(conns: seq<LiveConn>, users: set<string>)
    ensures Picks(conns, Among(users), IdOf(), IdsOf(conns, users))
  {
    if conns != [] {
      IdsPick(conns[1..], users);
      PicksNext(conns, Among(users), IdOf(), IdsOf(conns[1..], users));
    }
  }

  // The loop over the connections.
  method CollectIds(conns: seq<LiveConn>, users: map<string, bool>) returns (ids: seq<string>)
    requires AllTrue(users)
    ensures Picks(conns, Among(users.Keys), IdOf(), ids)
  {
    ids := [];
    for i := 0 to |conns|
      invariant ids + IdsOf(conns[i..], users.Keys) == IdsOf(conns, users.Keys)
    {
      assert conns[i..][1..] == conns[i + 1..];
      if conns[i].user in users && users[conns[i].user] {
        ids := ids + [conns[i].id];
      }
    }
    IdsPick(conns, users.Keys);
  }

  class QuotaGuard {
    var quotaBytes: map<string, nat>
    var baseline: map<string, nat>
    var suppressed: map<string, bool>

    constructor ()
      ensures quotaBytes == map[] && baseline == map[] && suppressed == map[]
    {
      quotaBytes, baseline, suppressed := map[], map[], map[];
    }

    // After a successful push.
    method CaptureQuota(inbounds: seq<seq<Pushed>>, totals: map<string, nat>)
      modifies this
      ensures quotaBytes == CapturedAll(inbounds) && baseline == totals && suppressed == map[]
    {
      var quota: map<string, nat> := map[];
      for i := 0 to |inbounds|
        invariant quota == CapturedAll(inbounds[..i])
      {
        ghost var before := quota;
        for j := 0 to |inbounds[i]|
          invariant quota == Captured(before, inbounds[i][..j])
        {
          assert inbounds[i][..j + 1][..j] == inbounds[i][..j];
          if inbounds[i][j].quota > 0 {
            quota := quota[inbounds[i][j].name := inbounds[i][j].quota];
          }
        }
        assert inbounds[i][..|inbounds[i]|] == inbounds[i];
        assert inbounds[..i + 1][..i] == inbounds[..i];
      }
      assert inbounds[..|inbounds|] == inbounds;
      quotaBytes, baseline, suppressed := quota, totals, map[];
    }

    // The ids to close are those of the connections of users over their quota, in
    // order; nothing else of the state changes.
    method EnforceQuota(totals: map<string, nat>, conns: seq<LiveConn>) returns (ids: seq<string>, changed: bool)
      requires AllTrue(suppressed)
      modifies this`suppressed
      ensures AllTrue(suppressed)
      ensures forall n :: n in suppressed <==> Over(totals, baseline, quotaBytes, n)
      ensures changed <==> suppressed.Keys != old(suppressed).Keys
      ensures Picks(conns, Among(suppressed.Keys), IdOf(), ids)
    {
      var now := Decide(totals, baseline, quotaBytes);
      changed := Changed(now, suppressed);
      suppressed := now;
      ids := CollectIds(conns, now);
    }
  }

  // -------------------------------------------------------------- between pushes

  predicate NoLess(a: map<string, nat>, b: map<string, nat>) {
    forall n :: n in a ==> a[n] <= Get(b, n)
  }

  // While totals do not fall, the users cut off stay cut off.
  lemma SuppressionGrows(totals: map<string, nat>, later: map<string, nat>, baseline: map<string, nat>,
                         quota: map<string, nat>, name: string)
    requires NoLess(totals, later) && Over(totals, baseline, quota, name)
    ensures Over(later, baseline, quota, name)
  {
  }

  predicate DistinctNames(users: seq<User>) {
    forall i, j :: 0 <= i < j < |users| ==> users[i].name != users[j].name
  }

  // What Captured does to one name.
  lemma {:induction false} CapturedMisses(quota: map<string, nat>, users: seq<Pushed>, name: string)
    requires forall i :: 0 <= i < |users| ==> users[i].name != name || users[i].quota == 0
    ensures name in Captured(quota, users) <==> name in quota
    ensures name in quota ==> Captured(quota, users)[name] == quota[name]
    decreases |users|
  {
    if users != [] {
      CapturedMisses(quota, users[..|users| - 1], name);
    }
  }

  lemma {:induction false} CapturedFinds(quota: map<string, nat>, users: seq<Pushed>, name: string, q: nat)
    requires q > 0 && (exists i :: 0 <= i < |users| && users[i] == Pushed(name, q))
    requires forall i :: 0 <= i < |users| && users[i].name == name ==> users[i].quota == q || users[i].quota == 0
    ensures name in Captured(quota, users) && Captured(quota, users)[name] == q
    decreases |users|
  {
    var init, last := users[..|users| - 1], users[|users| - 1];
    if last != Pushed(name, q) {
      var i :| 0 <= i < |users| && users[i] == Pushed(name, q);
      assert init[i] == Pushed(name, q);
      CapturedFinds(quota, init, name, q);
    }
  }

  // In general the last positive quota of a name counts, over all inbounds.
  lemma {:induction false} LastQuotaCounts(quota: map<string, nat>, users: seq<Pushed>, j: nat)
    requires j < |users| && users[j].quota > 0
    requires forall i :: j < i < |users| ==> users[i].name != users[j].name || users[i].quota == 0
    ensures users[j].name in Captured(quota, users) && Captured(quota, users)[users[j].name] == users[j].quota
    decreases |users|
  {
    if j < |users| - 1 {
      LastQuotaCounts(quota, users[..|users| - 1], j);
    }
  }

  predicate NoQuota(users: seq<Pushed>, name: string) {
    forall i :: 0 <= i < |users| ==> users[i].name != name || users[i].quota == 0
  }

  lemma {:induction false} LastInboundCounts(inbounds: seq<seq<Pushed>>, m: nat, j: nat)
    requires m < |inbounds| && j < |inbounds[m]| && inbounds[m][j].quota > 0
    requires NoQuota(inbounds[m][j + 1..], inbounds[m][j].name)
    requires forall i :: m < i < |inbounds| ==> NoQuota(inbounds[i], inbounds[m][j].name)
    ensures var q := CapturedAll(inbounds);
            inbounds[m][j].name in q && q[inbounds[m][j].name] == inbounds[m][j].quota
    decreases |inbounds|
  {
    var k := |inbounds| - 1;
    var users, name := inbounds[m], inbounds[m][j].name;
    if m < k {
      LastInboundCounts(inbounds[..k], m, j);
      CapturedMisses(CapturedAll(inbounds[..k]), inbounds[k], name);
    } else {
      forall i | j < i < |users|
        ensures users[i].name != name || users[i].quota == 0
      {
        assert users[j + 1..][i - j - 1] == users[i];
      }
      LastQuotaCounts(CapturedAll(inbounds[..k]), users, j);
    }
  }

  lemma {:induction false} NoQuotaAnywhere(inbounds: seq<seq<Pushed>>, name: string)
    requires forall i :: 0 <= i < |inbounds| ==> NoQuota(inbounds[i], name)
    ensures name !in CapturedAll(inbounds)
    decreases |inbounds|
  {
    if inbounds != [] {
      NoQuotaAnywhere(inbounds[..|inbounds| - 1], name);
      CapturedMisses(CapturedAll(inbounds[..|inbounds| - 1]), inbounds[|inbounds| - 1], name);
    }
  }

  lemma {:induction false} ActiveUserIsSent(users: seq<User>, i: nat)
    requires i < |users| && IsActive(users[i])
    ensures Pushed(users[i].name, QuotaBytes(users[i])) in ActiveUsers(users)
  {
    if i > 0 {
      ActiveUserIsSent(users[1..], i - 1);
    }
  }

  lemma {:induction false} SentOnlyOnce(users: seq<User>, p: Pushed)
    requires p in ActiveUsers(users)
    ensures exists i :: 0 <= i < |users| && IsActive(users[i]) && p == Pushed(users[i].name, QuotaBytes(users[i]))
  {
    if !IsActive(users[0]) || p != Pushed(users[0].name, QuotaBytes(users[0])) {
      SentOnlyOnce(users[1..], p);
      var rest := users[1..];
      var i :| 0 <= i < |rest| && IsActive(rest[i]) && p == Pushed(rest[i].name, QuotaBytes(rest[i]));
      assert users[i + 1] == users[1..][i];
    }
  }

  // In one inbound, an active user's name carries the user's quota or, as a chain
  // label, zero.
  lemma InboundQuotas(users: seq<User>, chain: seq<string>, i: nat)
    requires DistinctNames(users) && i < |users| && IsActive(users[i])
    ensures var sent := InboundUsers(users, chain);
            && (exists j :: 0 <= j < |sent| && sent[j] == Pushed(users[i].name, QuotaBytes(users[i])))
            && (forall j :: 0 <= j < |sent| && sent[j].name == users[i].name ==>
                  sent[j].quota == QuotaBytes(users[i]) || sent[j].quota == 0)
  {
    var sent, active := InboundUsers(users, chain), ActiveUsers(users);
    ActiveUserIsSent(users, i);
    var n :| 0 <= n < |active| && active[n] == Pushed(users[i].name, QuotaBytes(users[i]));
    assert sent[n] == active[n];
    forall j | 0 <= j < |sent| && sent[j].name == users[i].name
      ensures sent[j].quota == QuotaBytes(users[i]) || sent[j].quota == 0
    {
      if j < |active| {
        assert sent[j] in active;
        SentOnlyOnce(users, sent[j]);
      }
    }
  }

  // After a push to any number of inbounds, a limited active user has its
  // remaining quota at the agent and an unlimited one has none.
  lemma {:induction false} CapturedQuota(users: seq<User>, chains: seq<seq<string>>, i: nat)
    requires DistinctNames(users) && i < |users| && IsActive(users[i])
    ensures var q := CapturedAll(seq(|chains|, n requires 0 <= n < |chains| => InboundUsers(users, chains[n])));
            && (users[i].limit > 0 && chains != [] ==> users[i].name in q && q[users[i].name] == QuotaBytes(users[i]))
            && (users[i].limit <= 0 || chains == [] ==> users[i].name !in q)
    decreases |chains|
  {
    if chains != [] {
      var m := |chains| - 1;
      var inbounds := seq(|chains|, n requires 0 <= n < |chains| => InboundUsers(users, chains[n]));
      var before := seq(m, n requires 0 <= n < m => InboundUsers(users, chains[..m][n]));
      assert inbounds[..m] == before;
      CapturedQuota(users, chains[..m], i);
      InboundQuotas(users, chains[m], i);
      ZeroMeansUnlimited(users[i]);
      if users[i].limit > 0 {
        CapturedFinds(CapturedAll(before), inbounds[m], users[i].name, QuotaBytes(users[i]));
      } else {
        CapturedMisses(CapturedAll(before), inbounds[m], users[i].name);
      }
    }
  }

  // From the push on, an active limited user is cut off exactly when the usage
  // the master knew plus the usage since reaches the limit, and an unlimited one
  // never is.
  lemma CutoffIsExact(users: seq<User>, chains: seq<seq<string>>, baseline: map<string, nat>,
                      totals: map<string, nat>, i: nat)
    requires DistinctNames(users) && i < |users| && IsActive(users[i]) && chains != []
    requires NoLess(baseline, totals)
    ensures var quota := CapturedAll(seq(|chains|, n requires 0 <= n < |chains| => InboundUsers(users, chains[n])));
            var u := users[i];
            Over(totals, baseline, quota, u.name) <==>
            u.limit > 0 && u.used + (Get(totals, u.name) - Get(baseline, u.name)) >= u.limit
  {
    CapturedQuota(users, chains, i);
    ZeroMeansUnlimited(users[i]);
  }
}
