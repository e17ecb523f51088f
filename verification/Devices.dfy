/**
 Device limits (device_tick in master/src/monitor.rs): a device of a user is a
 source address, the oldest `limit` devices stay, and the connections of the
 others are closed on their nodes. Hash-map iteration orders are left open, so
 among equally old devices any may stay.
 */
module Devices {
  import opened Picking
  import opened Sets
  import opened Wrappers

  const I64_MAX := 0x7FFF_FFFF_FFFF_FFFF

  type i64 = x: int | -0x8000_0000_0000_0000 <= x <= I64_MAX

  datatype LiveConn = LiveConn(id: string, user: string, ip: string, startedAt: i64)

  datatype ConnRef = ConnRef(node: nat, id: string, ip: string, startedAt: i64)

  // The answer of one node, or nothing when it could not be asked.
  datatype Snapshot = Snapshot(node: nat, conns: Option<seq<LiveConn>>)

  // An unknown start counts as the newest.
  function Started(c: ConnRef): int {
    if c.startedAt > 0 then c.startedAt else I64_MAX
  }

  function Ips(conns: seq<ConnRef>): set<string> {
    set c | c in conns :: c.ip
  }

  // The first connection is at least as old: the second one's start is unknown or the
  // last instant there is, or the first one's is known and no later.
  predicate Older(x: ConnRef, y: ConnRef) {
    y.startedAt <= 0 || y.startedAt == I64_MAX || 0 < x.startedAt <= y.startedAt
  }

  lemma StartedIsAge(x: ConnRef, y: ConnRef)
    ensures Started(x) <= Started(y) <==> Older(x, y)
  {
  }

  // --------------------------------------------------------------------- ranking

  // The time is the earliest start of any connection from the address.
  ghost predicate Earliest(conns: seq<ConnRef>, ip: string, time: int) {
    && (exists c :: c in conns && c.ip == ip && Started(c) == time)
    && forall c :: c in conns && c.ip == ip ==> time <= Started(c)
  }

  // Each device with its earliest start.
  method FirstSeen(conns: seq<ConnRef>) returns (first: map<string, int>)
    ensures first.Keys == Ips(conns)
    ensures forall ip :: ip in first ==> Earliest(conns, ip, first[ip])
  {
    first := map[];
    for i := 0 to |conns|
      invariant first.Keys == Ips(conns[..i])
      invariant forall ip :: ip in first ==> Earliest(conns[..i], ip, first[ip])
    {
      var c := conns[i];
      ghost var before := first;
      assert conns[..i + 1] == conns[..i] + [c];
      if c.ip !in first || Started(c) < first[c.ip] {
        first := first[c.ip := Started(c)];
      }
      forall ip | ip in first
        ensures Earliest(conns[..i + 1], ip, first[ip])
      {
        assert c in conns[..i + 1];
        assert ip in before ==> Earliest(conns[..i], ip, before[ip]);
        assert ip !in before ==> forall d :: d in conns[..i] ==> d.ip in before;
      }
    }
    assert conns[..|conns|] == conns;
  }

  lemma {:induction false} OldestExists(ips: set<string>, first: map<string, int>) returns (oldest: string)
    requires ips != {} && ips <= first.Keys
    ensures oldest in ips && forall ip :: ip in ips ==> first[oldest] <= first[ip]
    decreases |ips|
  {
    var ip :| ip in ips;
    if ips == {ip} {
      oldest := ip;
    } else {
      var o := OldestExists(ips - {ip}, first);
      oldest := if first[ip] < first[o] then ip else o;
    }
  }

  predicate Ranks(ranked: seq<string>, first: map<string, int>) {
    && (forall i :: 0 <= i < |ranked| ==> ranked[i] in first)
    && (forall i, j :: 0 <= i < j < |ranked| ==> ranked[i] != ranked[j] && first[ranked[i]] <= first[ranked[j]])
  }

  // The devices by age, in any order among equals.
  method Rank(first: map<string, int>) returns (ranked: seq<string>)
    ensures Ranks(ranked, first)
    ensures (set ip | ip in ranked) == first.Keys
  {
    ranked := [];
    var todo := first.Keys;
    while todo != {}
      invariant todo <= first.Keys
      invariant Ranks(ranked, first)
      invariant forall ip :: ip in first <==> ip in ranked || ip in todo
      invariant forall ip :: ip in todo ==> ip !in ranked
      invariant forall i, ip :: 0 <= i < |ranked| && ip in todo ==> first[ranked[i]] <= first[ip]
      decreases |todo|
    {
      ghost var o := OldestExists(todo, first);
      var oldest :| oldest in todo && forall ip :: ip in todo ==> first[oldest] <= first[ip];
      ranked := ranked + [oldest];
      todo := todo - {oldest};
    }
  }

  lemma {:induction false} DistinctSize(xs: seq<string>)
    requires forall i, j :: 0 <= i < j < |xs| ==> xs[i] != xs[j]
    ensures |set x | x in xs| == |xs|
  {
    if xs != [] {
      DistinctSize(xs[1..]);
      assert xs == [xs[0]] + xs[1..];
      assert (set x | x in xs) == {xs[0]} + (set x | x in xs[1..]);
    }
  }

  // The devices to cut: none without a limit or within it, and else all but as many of
  // the oldest as the limit says.
  ghost predicate CutOk(conns: seq<ConnRef>, limit: int, cut: set<string>) {
    && cut <= Ips(conns)
    && (limit <= 0 || |Ips(conns)| <= limit ==> cut == {})
    && (0 < limit < |Ips(conns)| ==>
          && |Ips(conns) - cut| == limit
          && forall k, c :: k in Ips(conns) - cut && c in conns && c.ip in cut ==> AsOldAs(conns, k, c))
  }

  // The device has a connection that is at least as old.
  ghost predicate AsOldAs(conns: seq<ConnRef>, ip: string, c: ConnRef) {
    exists x :: x in conns && x.ip == ip && Older(x, c)
  }

  lemma EarliestIsAge(conns: seq<ConnRef>, k: string, c: ConnRef, s: int, t: int)
    requires c in conns && Earliest(conns, k, s) && Earliest(conns, c.ip, t) && s <= t
    ensures AsOldAs(conns, k, c)
  {
    var x :| x in conns && x.ip == k && Started(x) == s;
    StartedIsAge(x, c);
  }

  method ChooseCut(conns: seq<ConnRef>, raw: int) returns (cut: set<string>)
    ensures CutOk(conns, raw, cut)
  {
    var limit: nat := if raw > 0 then raw else 0;
    if limit == 0 {
      return {};
    }
    var first := FirstSeen(conns);
    if |first| <= limit {
      return {};
    }
    var ranked := Rank(first);
    DistinctSize(ranked);
    cut := set ip | ip in ranked[limit..];
    KeptIsPrefix(ranked, limit, first, cut);
    forall k, c | k in Ips(conns) - cut && c in conns && c.ip in cut
      ensures AsOldAs(conns, k, c)
    {
      EarliestIsAge(conns, k, c, first[k], first[c.ip]);
    }
  }

  lemma KeptIsPrefix(ranked: seq<string>, limit: nat, first: map<string, int>, cut: set<string>)
    requires Ranks(ranked, first) && (set ip | ip in ranked) == first.Keys && limit <= |ranked|
    requires cut == set ip | ip in ranked[limit..]
    ensures cut <= first.Keys && |first.Keys - cut| == limit
    ensures forall k, c :: k in first.Keys - cut && c in cut ==> first[k] <= first[c]
  {
    PrefixIsKept(ranked, limit);
    DistinctSize(ranked[..limit]);
    forall k, c | k in first.Keys - cut && c in cut
      ensures first[k] <= first[c]
    {
      OlderComesFirst(ranked, limit, first, k, c);
    }
  }

  lemma OlderComesFirst(ranked: seq<string>, limit: nat, first: map<string, int>, k: string, c: string)
    requires Ranks(ranked, first) && limit <= |ranked| && k in ranked[..limit] && c in ranked[limit..]
    ensures k in first && c in first && first[k] <= first[c]
  {
    var i :| 0 <= i < limit && ranked[..limit][i] == k;
    var j :| 0 <= j < |ranked| - limit && ranked[limit..][j] == c;
    assert ranked[i] == k && ranked[limit + j] == c;
  }

  lemma PrefixIsKept(ranked: seq<string>, limit: nat)
    requires limit <= |ranked| && forall i, j :: 0 <= i < j < |ranked| ==> ranked[i] != ranked[j]
    ensures (set ip | ip in ranked) - (set ip | ip in ranked[limit..]) == set ip | ip in ranked[..limit]
    ensures (set ip | ip in ranked[limit..]) <= set ip | ip in ranked
  {
    assert ranked == ranked[..limit] + ranked[limit..];
    forall i, j | 0 <= i < limit && 0 <= j < |ranked| - limit
      ensures ranked[..limit][i] != ranked[limit..][j]
    {
      assert ranked[..limit][i] == ranked[i] && ranked[limit..][j] == ranked[limit + j];
    }
  }

  // --------------------------------------------------------------------- closing

  // The ids to close on one node, in the order of the connections.
  function IdsOn(conns: seq<ConnRef>, cut: set<string>, node: nat): seq<string> {
    if conns == [] then []
    else
      IdsOn(conns[..|conns| - 1], cut, node)
      + (var c := conns[|conns| - 1]; if c.ip in cut && c.node == node then [c.id] else [])
  }

  function Closing(byNode: map<nat, seq<string>>, node: nat): seq<string> {
    if node in byNode then byNode[node] else []
  }

  method GroupByNode(conns: seq<ConnRef>, cut: set<string>) returns (byNode: map<nat, seq<string>>)
    ensures forall n: nat :: Closing(byNode, n) == IdsOn(conns, cut, n)
    ensures forall n :: n in byNode ==> byNode[n] != []
  {
    byNode := map[];
    for i := 0 to |conns|
      invariant forall n: nat :: Closing(byNode, n) == IdsOn(conns[..i], cut, n)
      invariant forall n :: n in byNode ==> byNode[n] != []
    {
      assert conns[..i + 1][..i] == conns[..i];
      var c := conns[i];
      if c.ip in cut {
        byNode := byNode[c.node := Closing(byNode, c.node) + [c.id]];
      }
    }
    assert conns[..|conns|] == conns;
  }

  function Survivors(conns: seq<ConnRef>, cut: set<string>): seq<ConnRef> {
    if conns == [] then []
    else (if conns[0].ip in cut then [] else [conns[0]]) + Survivors(conns[1..], cut)
  }

  // A connection is closed on its own node exactly when its device is cut, and
  // otherwise it survives.
  lemma {:induction false} ClosedOrSurvives(conns: seq<ConnRef>, cut: set<string>, c: ConnRef)
    requires c in conns
    ensures c.ip in cut ==> c.id in IdsOn(conns, cut, c.node)
    ensures c.ip !in cut <==> c in Survivors(conns, cut)
  {
    var init, last := conns[..|conns| - 1], conns[|conns| - 1];
    assert conns == init + [last];
    if c in init {
      ClosedOrSurvives(init, cut, c);
    }
    SurvivorsSplit(init, last, cut);
    SurvivorsAreKept(init, cut);
  }

  lemma {:induction false} SurvivorsSplit(init: seq<ConnRef>, last: ConnRef, cut: set<string>)
    ensures Survivors(init + [last], cut) == Survivors(init, cut) + (if last.ip in cut then [] else [last])
  {
    if init != [] {
      assert (init + [last])[1..] == init[1..] + [last];
      SurvivorsSplit(init[1..], last, cut);
    } else {
      assert init + [last] == [last];
    }
  }

  lemma {:induction false} SurvivorsAreKept(conns: seq<ConnRef>, cut: set<string>)
    ensures forall c :: c in Survivors(conns, cut) ==> c.ip !in cut
  {
    if conns != [] {
      SurvivorsAreKept(conns[1..], cut);
    }
  }

  lemma {:induction false} ClosedAreCut(conns: seq<ConnRef>, cut: set<string>, node: nat, id: string)
    requires id in IdsOn(conns, cut, node)
    ensures exists c :: c in conns && c.node == node && c.id == id && c.ip in cut
  {
    var init, last := conns[..|conns| - 1], conns[|conns| - 1];
    if id in IdsOn(init, cut, node) {
      ClosedAreCut(init, cut, node, id);
    } else {
      assert last in conns && last.id == id;
    }
  }

  // ------------------------------------------------------------------- one scan

  predicate Counts(c: LiveConn, limits: map<string, int>, user: string) {
    c.user == user && c.user != "" && c.ip != "" && user in limits
  }

  function OnNode(node: nat, conns: seq<LiveConn>, limits: map<string, int>, user: string): seq<ConnRef> {
    if conns == [] then []
    else
      OnNode(node, conns[..|conns| - 1], limits, user)
      + (var c := conns[|conns| - 1]; if Counts(c, limits, user) then [ConnRef(node, c.id, c.ip, c.startedAt)] else [])
  }

  lemma OneMore(node: nat, conns: seq<LiveConn>, c: LiveConn, limits: map<string, int>, user: string)
    ensures OnNode(node, conns + [c], limits, user)
         == OnNode(node, conns, limits, user)
            + (if Counts(c, limits, user) then [ConnRef(node, c.id, c.ip, c.startedAt)] else [])
  {
    assert (conns + [c])[..|conns|] == conns;
  }

  // All connections of a limited user, across nodes.
  function Gathered(nodes: seq<Snapshot>, limits: map<string, int>, user: string): seq<ConnRef> {
    if nodes == [] then []
    else
      Gathered(nodes[..|nodes| - 1], limits, user)
      + (var s := nodes[|nodes| - 1]; if s.conns.Some? then OnNode(s.node, s.conns.value, limits, user) else [])
  }

  function Of(perUser: map<string, seq<ConnRef>>, user: string): seq<ConnRef> {
    if user in perUser then perUser[user] else []
  }

  method Gather(nodes: seq<Snapshot>, limits: map<string, int>) returns (perUser: map<string, seq<ConnRef>>)
    ensures forall u :: Of(perUser, u) == Gathered(nodes, limits, u)
    ensures perUser.Keys <= limits.Keys
  {
    perUser := map[];
    for i := 0 to |nodes|
      invariant forall u :: Of(perUser, u) == Gathered(nodes[..i], limits, u)
      invariant perUser.Keys <= limits.Keys
    {
      assert nodes[..i + 1][..i] == nodes[..i];
      if nodes[i].conns.Some? {
        perUser := GatherNode(nodes[i].node, nodes[i].conns.value, limits, perUser);
      }
    }
    assert nodes[..|nodes|] == nodes;
  }

  // One connection is added to its user's list, if the user is limited.
  function WithConn(perUser: map<string, seq<ConnRef>>, node: nat, c: LiveConn, limits: map<string, int>)
    : map<string, seq<ConnRef>>
  {
    if c.user == "" || c.ip == "" || c.user !in limits then perUser
    else perUser[c.user := Of(perUser, c.user) + [ConnRef(node, c.id, c.ip, c.startedAt)]]
  }

  lemma GatherStep(before: map<string, seq<ConnRef>>, sofar: map<string, seq<ConnRef>>,
    node: nat, conns: seq<LiveConn>, c: LiveConn, limits: map<string, int>, u: string)
    requires Of(sofar, u) == Of(before, u) + OnNode(node, conns, limits, u)
    ensures Of(WithConn(sofar, node, c, limits), u) == Of(before, u) + OnNode(node, conns + [c], limits, u)
  {
    var more := if Counts(c, limits, u) then [ConnRef(node, c.id, c.ip, c.startedAt)] else [];
    OneMore(node, conns, c, limits, u);
    assert Of(sofar, u) + more == Of(before, u) + (OnNode(node, conns, limits, u) + more);
  }

  method GatherNode(node: nat, conns: seq<LiveConn>, limits: map<string, int>, before: map<string, seq<ConnRef>>)
    returns (perUser: map<string, seq<ConnRef>>)
    requires before.Keys <= limits.Keys
    ensures forall u :: Of(perUser, u) == Of(before, u) + OnNode(node, conns, limits, u)
    ensures perUser.Keys <= limits.Keys
  {
    perUser := before;
    for i := 0 to |conns|
      invariant forall u :: Of(perUser, u) == Of(before, u) + OnNode(node, conns[..i], limits, u)
      invariant perUser.Keys <= limits.Keys
    {
      var c := conns[i];
      assert conns[..i + 1] == conns[..i] + [c];
      ghost var sofar := perUser;
      perUser := WithConn(perUser, node, c, limits);
      forall u
        ensures Of(perUser, u) == Of(before, u) + OnNode(node, conns[..i + 1], limits, u)
      {
        GatherStep(before, sofar, node, conns[..i], c, limits, u);
      }
    }
    assert conns[..|conns|] == conns;
  }

  // What one scan does for one user.
  ghost predicate Enforced(conns: seq<ConnRef>, limit: int, byNode: map<nat, seq<string>>) {
    && (exists cut :: CutOk(conns, limit, cut) && forall n: nat :: Closing(byNode, n) == IdsOn(conns, cut, n))
    && forall n :: n in byNode ==> byNode[n] != []
  }

  type Closes = map<string, map<nat, seq<string>>>

  // What one scan does for all of them.
  ghost predicate Scanned(nodes: seq<Snapshot>, limits: map<string, int>, closes: Closes) {
    && (forall u :: u in closes <==> Gathered(nodes, limits, u) != [])
    && forall u :: u in closes ==> u in limits && Enforced(Gathered(nodes, limits, u), limits[u], closes[u])
  }

  // The users reported: those over a positive limit, with the number of their devices.
  ghost predicate Reported(nodes: seq<Snapshot>, limits: map<string, int>, alerts: map<string, nat>) {
    && (forall u :: u in alerts <==> u in limits && 0 < limits[u] < |Ips(Gathered(nodes, limits, u))|)
    && forall u :: u in alerts ==> alerts[u] == |Ips(Gathered(nodes, limits, u))|
  }

  ghost predicate ReportedAt(conns: seq<ConnRef>, limit: int, alert: Option<nat>) {
    if 0 < limit < |Ips(conns)| then alert == Some(|Ips(conns)|) else alert.None?
  }

  function Entry<T>(m: map<string, T>, user: string): Option<T> {
    if user in m then Some(m[user]) else None
  }

  ghost predicate UserDone(conns: seq<ConnRef>, limit: int, enforce: bool,
                           byNode: Option<map<nat, seq<string>>>, alert: Option<nat>) {
    && ReportedAt(conns, limit, alert)
    && if enforce && conns != [] then byNode.Some? && Enforced(conns, limit, byNode.value) else byNode.None?
  }

  function Put<T>(m: map<string, T>, user: string, value: Option<T>): map<string, T> {
    if value.Some? then m[user := value.value] else m
  }

  // One user of a scan.
  method ScanUser(conns: seq<ConnRef>, limit: int, enforce: bool)
    returns (byNode: Option<map<nat, seq<string>>>, alert: Option<nat>)
    ensures UserDone(conns, limit, enforce, byNode, alert)
  {
    byNode, alert := None, None;
    if conns == [] {
      return;
    }
    var cut := ChooseCut(conns, limit);
    if enforce {
      var ids := GroupByNode(conns, cut);
      byNode := Some(ids);
    }
    assert Ips(conns) == (Ips(conns) - cut) + cut;
    if cut != {} {
      alert := Some(limit + |cut|);
    }
  }

  // The closes of every user with connections, and the reports. Without enforcement
  // nothing is closed.
  method DeviceTick(nodes: seq<Snapshot>, limits: map<string, int>, enforce: bool)
    returns (closes: Closes, alerts: map<string, nat>)
    ensures !enforce ==> closes == map[]
    ensures enforce ==> Scanned(nodes, limits, closes)
    ensures Reported(nodes, limits, alerts)
  {
    closes, alerts := map[], map[];
    var perUser := Gather(nodes, limits);
    var todo := perUser.Keys;
    while todo != {}
      invariant todo <= perUser.Keys
      invariant forall u :: u in closes || u in alerts ==> u in perUser && u !in todo
      invariant forall u :: u in perUser && u !in todo ==>
                  UserDone(perUser[u], limits[u], enforce, Entry(closes, u), Entry(alerts, u))
      decreases |todo|
    {
      var u :| u in todo;
      todo := todo - {u};
      var byNode, alert := ScanUser(perUser[u], limits[u], enforce);
      closes := Put(closes, u, byNode);
      alerts := Put(alerts, u, alert);
    }
    ScansAdd(nodes, limits, enforce, perUser, closes, alerts);
  }

  lemma ScansAdd(nodes: seq<Snapshot>, limits: map<string, int>, enforce: bool, perUser: map<string, seq<ConnRef>>,
                 closes: Closes, alerts: map<string, nat>)
    requires forall u :: Of(perUser, u) == Gathered(nodes, limits, u)
    requires closes.Keys <= perUser.Keys && alerts.Keys <= perUser.Keys <= limits.Keys
    requires forall u :: u in perUser ==>
               UserDone(perUser[u], limits[u], enforce, Entry(closes, u), Entry(alerts, u))
    ensures !enforce ==> closes == map[]
    ensures enforce ==> Scanned(nodes, limits, closes)
    ensures Reported(nodes, limits, alerts)
  {
    forall u
      ensures u in closes <==> enforce && Gathered(nodes, limits, u) != []
      ensures u in closes ==> Enforced(Gathered(nodes, limits, u), limits[u], closes[u])
      ensures u in alerts <==> u in limits && 0 < limits[u] < |Ips(Gathered(nodes, limits, u))|
      ensures u in alerts ==> alerts[u] == |Ips(Gathered(nodes, limits, u))|
    {
      assert Of(perUser, u) == Gathered(nodes, limits, u);
      if u in perUser {
        assert UserDone(perUser[u], limits[u], enforce, Entry(closes, u), Entry(alerts, u));
      } else {
        assert Ips(Gathered(nodes, limits, u)) == {};
      }
    }
  }

  // --------------------------------------------------------- what a scan amounts to

  // The connection is one of the snapshots, of a limited user and with an address.
  ghost predicate Seen(nodes: seq<Snapshot>, limits: map<string, int>, user: string, c: ConnRef) {
    user in limits && user != "" && c.ip != "" &&
    exists s :: s in nodes && s.node == c.node && s.conns.Some? &&
                LiveConn(c.id, user, c.ip, c.startedAt) in s.conns.value
  }

  lemma {:induction false} OnNodeMeans(node: nat, conns: seq<LiveConn>, limits: map<string, int>, user: string,
                                       c: ConnRef)
    ensures c in OnNode(node, conns, limits, user) <==>
            && user in limits && user != "" && c.ip != "" && c.node == node
            && LiveConn(c.id, user, c.ip, c.startedAt) in conns
  {
    if conns != [] {
      var init, last := conns[..|conns| - 1], conns[|conns| - 1];
      assert conns == init + [last];
      OnNodeMeans(node, init, limits, user, c);
      OneMore(node, init, last, limits, user);
    }
  }

  lemma {:induction false} GatheredMeans(nodes: seq<Snapshot>, limits: map<string, int>, user: string, c: ConnRef)
    ensures c in Gathered(nodes, limits, user) <==> Seen(nodes, limits, user, c)
  {
    if nodes != [] {
      var init, last := nodes[..|nodes| - 1], nodes[|nodes| - 1];
      assert nodes == init + [last];
      GatheredMeans(init, limits, user, c);
      if last.conns.Some? {
        OnNodeMeans(last.node, last.conns.value, limits, user, c);
      }
      assert last in nodes;
    }
  }

  // As many devices are kept as the limit says, the oldest ones.
  ghost predicate KeepsOldest(conns: seq<ConnRef>, limit: int, kept: set<string>) {
    && kept <= Ips(conns)
    && (limit <= 0 || |Ips(conns)| <= limit ==> kept == Ips(conns))
    && (0 < limit < |Ips(conns)| ==> |kept| == limit)
    && forall k, c :: k in kept && c in conns && c.ip !in kept ==> AsOldAs(conns, k, c)
  }

  // The connections of the other devices are closed, and nothing else.
  ghost predicate ClosesOthers(conns: seq<ConnRef>, byNode: map<nat, seq<string>>, kept: set<string>) {
    && (forall c :: c in conns && c.ip !in kept ==> c.id in Closing(byNode, c.node))
    && (forall n: nat, id :: id in Closing(byNode, n) ==> IsCut(conns, kept, n, id))
  }

  lemma EnforcedMeans(conns: seq<ConnRef>, limit: int, byNode: map<nat, seq<string>>) returns (kept: set<string>)
    requires Enforced(conns, limit, byNode)
    ensures KeepsOldest(conns, limit, kept) && ClosesOthers(conns, byNode, kept)
  {
    var cut :| CutOk(conns, limit, cut) && forall n: nat :: Closing(byNode, n) == IdsOn(conns, cut, n);
    kept := Ips(conns) - cut;
    forall c | c in conns && c.ip !in kept
      ensures c.id in Closing(byNode, c.node)
    {
      ClosedOrSurvives(conns, cut, c);
    }
    forall n: nat, id | id in Closing(byNode, n)
      ensures IsCut(conns, kept, n, id)
    {
      ClosedAreCut(conns, cut, n, id);
    }
  }

  // What a scan does for each user with connections.
  lemma ScanMeans(nodes: seq<Snapshot>, limits: map<string, int>, closes: Closes, u: string)
    returns (kept: set<string>)
    requires Scanned(nodes, limits, closes) && u in closes
    ensures var conns := Gathered(nodes, limits, u);
            KeepsOldest(conns, limits[u], kept) && ClosesOthers(conns, closes[u], kept)
  {
    kept := EnforcedMeans(Gathered(nodes, limits, u), limits[u], closes[u]);
  }

  ghost predicate IsCut(conns: seq<ConnRef>, kept: set<string>, node: nat, id: string) {
    exists c :: c in conns && c.node == node && c.id == id && c.ip !in kept
  }

  // ---------------------------------------------------------------- the next scan

  // The connection was closed on the node, for whichever user.
  ghost predicate Closed(closes: Closes, node: nat, id: string) {
    exists u :: u in closes && id in Closing(closes[u], node)
  }

  // The connections that are still there.
  ghost function Left(closes: Closes, node: nat, conns: seq<LiveConn>): seq<LiveConn> {
    if conns == [] then []
    else (if Closed(closes, node, conns[0].id) then [] else [conns[0]]) + Left(closes, node, conns[1..])
  }

  lemma {:induction false} LeftPicks(closes: Closes, node: nat, conns: seq<LiveConn>)
    ensures Picks(conns, (c: LiveConn) => !Closed(closes, node, c.id), (c: LiveConn) => c, Left(closes, node, conns))
  {
    if conns != [] {
      LeftPicks(closes, node, conns[1..]);
      PicksNext(conns, (c: LiveConn) => !Closed(closes, node, c.id), (c: LiveConn) => c,
                Left(closes, node, conns[1..]));
    }
  }

  lemma {:induction false} LeftMeans(closes: Closes, node: nat, conns: seq<LiveConn>, c: LiveConn)
    ensures c in Left(closes, node, conns) <==> c in conns && !Closed(closes, node, c.id)
  {
    if conns != [] {
      LeftMeans(closes, node, conns[1..], c);
    }
  }

  // The nodes once the connections are closed.
  ghost function Remaining(nodes: seq<Snapshot>, closes: Closes): seq<Snapshot> {
    seq(|nodes|, i requires 0 <= i < |nodes| =>
      if nodes[i].conns.None? then nodes[i]
      else nodes[i].(conns := Some(Left(closes, nodes[i].node, nodes[i].conns.value))))
  }

  lemma LeftOnNode(closes: Closes, node: nat, conns: seq<LiveConn>, limits: map<string, int>, u: string, c: ConnRef)
    requires c in OnNode(node, Left(closes, node, conns), limits, u)
    ensures c in OnNode(node, conns, limits, u) && c.node == node && !Closed(closes, node, c.id)
  {
    OnNodeMeans(node, Left(closes, node, conns), limits, u, c);
    OnNodeMeans(node, conns, limits, u, c);
    LeftMeans(closes, node, conns, LiveConn(c.id, u, c.ip, c.startedAt));
  }

  // What the next scan gathers was gathered before and not closed.
  lemma {:induction false} RemainingGathered(nodes: seq<Snapshot>, closes: Closes, limits: map<string, int>,
                                             u: string, c: ConnRef)
    requires c in Gathered(Remaining(nodes, closes), limits, u)
    ensures c in Gathered(nodes, limits, u) && !Closed(closes, c.node, c.id)
  {
    var k := |nodes| - 1;
    var s := nodes[k];
    assert Remaining(nodes, closes)[..k] == Remaining(nodes[..k], closes);
    if c in Gathered(Remaining(nodes[..k], closes), limits, u) {
      RemainingGathered(nodes[..k], closes, limits, u, c);
    } else {
      LeftOnNode(closes, s.node, s.conns.value, limits, u, c);
    }
  }

  // The devices a user has left are not cut ones.
  lemma RemainingIps(nodes: seq<Snapshot>, closes: Closes, limits: map<string, int>, u: string, cut: set<string>)
    requires u in closes
    requires forall n: nat :: Closing(closes[u], n) == IdsOn(Gathered(nodes, limits, u), cut, n)
    ensures Ips(Gathered(Remaining(nodes, closes), limits, u)) <= Ips(Gathered(nodes, limits, u)) - cut
  {
    forall c | c in Gathered(Remaining(nodes, closes), limits, u)
      ensures c.ip in Ips(Gathered(nodes, limits, u)) && c.ip !in cut
    {
      RemainingGathered(nodes, closes, limits, u, c);
      ClosedOrSurvives(Gathered(nodes, limits, u), cut, c);
    }
  }

  lemma {:induction false} NothingCut(conns: seq<ConnRef>, node: nat)
    ensures IdsOn(conns, {}, node) == []
  {
    if conns != [] {
      NothingCut(conns[..|conns| - 1], node);
    }
  }

  // A scan right after a scan closes nothing, on any node and for any user.
  lemma RescanClosesNothing(nodes: seq<Snapshot>, limits: map<string, int>, closes: Closes, again: Closes)
    requires Scanned(nodes, limits, closes) && Scanned(Remaining(nodes, closes), limits, again)
    ensures forall u :: u in again ==> again[u] == map[]
  {
    forall u | u in again
      ensures again[u] == map[]
    {
      RescanUser(nodes, limits, closes, again, u);
    }
  }

  // Devices that are no more than the ones kept are not cut.
  lemma KeptStay(conns: seq<ConnRef>, limit: int, cut: set<string>, left: seq<ConnRef>, cut': set<string>)
    requires CutOk(conns, limit, cut) && CutOk(left, limit, cut') && Ips(left) <= Ips(conns) - cut
    ensures cut' == {}
  {
    SubsetSize(Ips(left), Ips(conns) - cut);
    SubsetSize(Ips(conns) - cut, Ips(conns));
  }

  lemma NothingClosed(byNode: map<nat, seq<string>>, left: seq<ConnRef>)
    requires forall n: nat :: Closing(byNode, n) == IdsOn(left, {}, n)
    requires forall n :: n in byNode ==> byNode[n] != []
    ensures byNode == map[]
  {
    forall n: nat
      ensures n !in byNode
    {
      NothingCut(left, n);
      assert Closing(byNode, n) == [];
    }
  }

  lemma RescanUser(nodes: seq<Snapshot>, limits: map<string, int>, closes: Closes, again: Closes, u: string)
    requires Scanned(nodes, limits, closes) && Scanned(Remaining(nodes, closes), limits, again) && u in again
    ensures again[u] == map[]
  {
    var conns, left := Gathered(nodes, limits, u), Gathered(Remaining(nodes, closes), limits, u);
    RemainingGathered(nodes, closes, limits, u, left[0]);
    assert u in closes;
    var limit := limits[u];
    var cut :| CutOk(conns, limit, cut) && forall n: nat :: Closing(closes[u], n) == IdsOn(conns, cut, n);
    var cut' :| CutOk(left, limit, cut') && forall n: nat :: Closing(again[u], n) == IdsOn(left, cut', n);
    RemainingIps(nodes, closes, limits, u, cut);
    KeptStay(conns, limit, cut, left, cut');
    NothingClosed(again[u], left);
  }
}
