/**
 WireGuard address pools (master/src/wg.rs): the bit masks of a CIDR pool, the
 server's own address, and the search for the lowest free one. Addresses are
 unsigned 32-bit numbers.
 */
module WgPool {
  import opened Arithmetic
  import opened Sets
  import opened Wrappers

  datatype PoolError = BadPrefix | TooSmall | Exhausted

  datatype Allocation = Allocated(address: nat) | Refused(error: PoolError) | Panicked

  const TWO_32: nat := 0x1_0000_0000
  const U32_MAX: nat := 0xFFFF_FFFF

  // ------------------------------------------------------------------------ bits

  function And(a: nat, b: nat): nat {
    if a == 0 || b == 0 then 0 else 2 * And(a / 2, b / 2) + (if a % 2 == 1 && b % 2 == 1 then 1 else 0)
  }

  function Or(a: nat, b: nat): nat {
    if a == 0 then b
    else if b == 0 then a
    else 2 * Or(a / 2, b / 2) + (if a % 2 == 1 || b % 2 == 1 then 1 else 0)
  }

  function Complement(a: nat): nat
    requires a <= U32_MAX
  {
    U32_MAX - a
  }

  function Pow2(n: nat): nat
    ensures Pow2(n) >= 1
  {
    if n == 0 then 1 else 2 * Pow2(n - 1)
  }

  // A left shift drops the bits beyond the 32nd.
  function Shl(a: nat, n: nat): nat
    requires n < 32
  {
    a * Pow2(n) % TWO_32
  }

  lemma {:induction false} Pow2Grows(a: nat, b: nat)
    requires a <= b
    ensures Pow2(a) <= Pow2(b)
  {
    if a < b {
      Pow2Grows(a, b - 1);
    }
  }

  lemma Pow2Of32()
    ensures Pow2(32) == TWO_32
  {
    assert Pow2(4) == 16;
    assert Pow2(8) == 256;
    assert Pow2(12) == 4096;
    assert Pow2(16) == 65536;
    assert Pow2(20) == 1048576;
    assert Pow2(24) == 16777216;
    assert Pow2(28) == 268435456;
  }

  // The number of host bits of a prefix.
  function HostBits(prefix: nat): nat
    requires prefix <= 32
  {
    32 - prefix
  }

  function Mask(prefix: nat): nat
    requires 1 <= prefix <= 32
  {
    Shl(U32_MAX, HostBits(prefix))
  }

  lemma ShiftedOnes(p: nat)
    requires 1 <= p <= TWO_32
    ensures U32_MAX * p % TWO_32 == TWO_32 - p
  {
    assert U32_MAX * p == (p - 1) * TWO_32 + (TWO_32 - p);
  }

  lemma MaskValue(prefix: nat)
    requires 1 <= prefix <= 32
    ensures Pow2(HostBits(prefix)) <= TWO_32
    ensures Mask(prefix) == TWO_32 - Pow2(HostBits(prefix))
  {
    Pow2Of32();
    Pow2Grows(HostBits(prefix), 32);
    ShiftedOnes(Pow2(HostBits(prefix)));
  }

  lemma {:induction false} AndOnes(x: nat, n: nat)
    requires x < Pow2(n)
    ensures And(x, Pow2(n) - 1) == x
  {
    if x != 0 {
      assert n > 0;
      AndOnes(x / 2, n - 1);
      assert (Pow2(n) - 1) / 2 == Pow2(n - 1) - 1;
    }
  }

  // The low h bits.
  function Low(x: nat, h: nat): (r: nat)
    ensures r < Pow2(h) && r <= x
  {
    if h == 0 then 0 else 2 * Low(x / 2, h - 1) + x % 2
  }

  lemma {:induction false} HighBits(x: nat, h: nat) returns (q: nat)
    ensures x == q * Pow2(h) + Low(x, h)
  {
    if h == 0 {
      q := x;
    } else {
      q := HighBits(x / 2, h - 1);
      assert 2 * (q * Pow2(h - 1)) == q * Pow2(h);
    }
  }

  lemma LowIsRemainder(x: nat, h: nat)
    ensures Low(x, h) == x % Pow2(h)
  {
    var q := HighBits(x, h);
    DivisionIs(x, q, Pow2(h), Low(x, h));
  }

  lemma {:induction false} LowCleared(x: nat, h: nat)
    ensures Low(x - Low(x, h), h) == 0
  {
    if h > 0 {
      LowCleared(x / 2, h - 1);
      assert (x - Low(x, h)) / 2 == x / 2 - Low(x / 2, h - 1);
    }
  }

  // A mask of high ones clears the low bits.
  lemma {:induction false} AndMask(x: nat, n: nat, h: nat)
    requires h <= n && x < Pow2(n)
    ensures Pow2(h) <= Pow2(n) && And(x, Pow2(n) - Pow2(h)) == x - Low(x, h)
    decreases h
  {
    Pow2Grows(h, n);
    if h == 0 {
      AndOnes(x, n);
    } else {
      AndMask(x / 2, n - 1, h - 1);
      assert (Pow2(n) - Pow2(h)) / 2 == Pow2(n - 1) - Pow2(h - 1);
    }
  }

  // Low ones fill cleared bits.
  lemma {:induction false} OrLow(y: nat, h: nat)
    requires Low(y, h) == 0
    ensures Or(y, Pow2(h) - 1) == y + Pow2(h) - 1
  {
    if h > 0 && y > 0 {
      OrLow(y / 2, h - 1);
      assert (Pow2(h) - 1) / 2 == Pow2(h - 1) - 1;
    }
  }

  lemma {:induction false} NetworkFits(base: nat, n: nat, h: nat)
    requires h <= n && base < Pow2(n)
    ensures base - Low(base, h) + Pow2(h) <= Pow2(n)
    decreases h
  {
    if h > 0 {
      NetworkFits(base / 2, n - 1, h - 1);
    }
  }

  // ------------------------------------------------------------------------ the pool

  // The pool's first address: the base without its host bits.
  function Network(base: nat, prefix: nat): nat
    requires prefix <= 32
  {
    base - Low(base, HostBits(prefix))
  }

  lemma NetworkInArithmetic(base: nat, prefix: nat)
    requires prefix <= 32
    ensures Network(base, prefix) == base - base % Pow2(HostBits(prefix))
  {
    LowIsRemainder(base, HostBits(prefix));
  }

  function Broadcast(base: nat, prefix: nat): nat
    requires prefix <= 32
  {
    Network(base, prefix) + Pow2(HostBits(prefix)) - 1
  }

  lemma MaskedBase(base: nat, prefix: nat)
    requires base < TWO_32 && 1 <= prefix <= 32
    ensures And(base, Mask(prefix)) == Network(base, prefix)
  {
    MaskValue(prefix);
    Pow2Of32();
    AndMask(base, 32, HostBits(prefix));
  }

  lemma FilledNetwork(base: nat, prefix: nat)
    requires base < TWO_32 && 1 <= prefix <= 32
    ensures Mask(prefix) <= U32_MAX
    ensures Or(Network(base, prefix), Complement(Mask(prefix))) == Broadcast(base, prefix)
  {
    MaskValue(prefix);
    LowCleared(base, HostBits(prefix));
    OrLow(Network(base, prefix), HostBits(prefix));
  }

  // The source's masks compute the pool's ends, inside 32 bits.
  lemma MasksGivePool(base: nat, prefix: nat)
    requires base < TWO_32 && 1 <= prefix <= 32
    ensures Mask(prefix) <= U32_MAX
    ensures And(base, Mask(prefix)) == Network(base, prefix)
    ensures Or(Network(base, prefix), Complement(Mask(prefix))) == Broadcast(base, prefix) <= U32_MAX
  {
    MaskedBase(base, prefix);
    FilledNetwork(base, prefix);
    Pow2Of32();
    NetworkFits(base, 32, HostBits(prefix));
  }

  lemma WholeSpace(base: nat)
    requires base < TWO_32
    ensures Network(base, 0) == And(base, 0)
  {
    Pow2Of32();
    LowOfSmall(base, 32);
  }

  lemma {:induction false} LowOfSmall(x: nat, h: nat)
    requires x < Pow2(h)
    ensures Low(x, h) == x
  {
    if h > 0 {
      LowOfSmall(x / 2, h - 1);
    }
  }

  method ServerAddress(base: nat, prefix: nat) returns (r: Option<nat>)
    requires base < TWO_32
    ensures prefix > 32 ==> r == None
    ensures prefix <= 32 ==> r == Some((Network(base, prefix) + 1) % TWO_32)
  {
    if prefix > 32 {
      return None;
    }
    var mask := 0;
    if prefix != 0 {
      mask := Shl(U32_MAX, 32 - prefix);
      MasksGivePool(base, prefix);
    } else {
      WholeSpace(base);
    }
    var net := And(base, mask);
    r := Some((net + 1) % TWO_32);
  }

  // The server's address overflows 32 bits for one pool only.
  lemma ServerAddressFits(base: nat, prefix: nat)
    requires base < TWO_32 && prefix <= 32
    ensures Network(base, prefix) + 1 < TWO_32 <==> !(prefix == 32 && base == U32_MAX)
    ensures prefix <= 31 ==> Network(base, prefix) < Network(base, prefix) + 1 <= Broadcast(base, prefix) <= U32_MAX
  {
    Pow2Of32();
    NetworkFits(base, 32, HostBits(prefix));
    if prefix <= 31 {
      Pow2Grows(1, HostBits(prefix));
    }
  }

  // An address a peer could have: above the server's, below the broadcast, not taken.
  predicate Free(base: nat, prefix: nat, taken: set<nat>, x: nat)
    requires prefix <= 32
  {
    Network(base, prefix) + 1 < x < Broadcast(base, prefix) && x !in taken
  }

  ghost predicate LeastFree(base: nat, prefix: nat, taken: set<nat>, x: nat)
    requires prefix <= 32
  {
    Free(base, prefix, taken, x) && forall y :: Free(base, prefix, taken, y) ==> x <= y
  }

  function Members(taken: seq<nat>): set<nat> {
    set a | a in taken
  }

  // The result of a search for the lowest address of lo..hi-1 that is not taken.
  ghost predicate IsFirst(lo: nat, hi: nat, taken: set<nat>, r: Allocation) {
    match r
    case Allocated(a) => lo <= a < hi && a !in taken && forall x :: lo <= x < a ==> x in taken
    case Refused(e) => e == Exhausted && forall x :: lo <= x < hi ==> x in taken
    case Panicked => false
  }

  lemma FirstIsLeast(base: nat, prefix: nat, taken: set<nat>, r: Allocation)
    requires prefix <= 30 && IsFirst(Network(base, prefix) + 2, Broadcast(base, prefix), taken, r)
    ensures r.Allocated? ==> LeastFree(base, prefix, taken, r.address)
    ensures !r.Allocated? ==> r == Refused(Exhausted) && forall x :: !Free(base, prefix, taken, x)
  {
  }

  // Shifts take the distance modulo 32.
  function MaskPrefix(prefix: nat): nat {
    if prefix == 0 then 32 else prefix
  }

  // Unsigned addition.
  function Plus(a: nat, b: nat): nat {
    if a + b < TWO_32 then a + b else a + b - TWO_32
  }

  // Where the search begins and ends.
  lemma SearchedEnds(base: nat, prefix: nat)
    requires base < TWO_32 && prefix <= 30
    ensures var p := MaskPrefix(prefix);
            if prefix == 0 then Network(base, p) == Broadcast(base, p) == base
            else Plus(Network(base, prefix), 2) == Network(base, prefix) + 2
  {
    if prefix > 0 {
      MasksGivePool(base, prefix);
      AtLeastFour(prefix);
    }
  }

  // A prefix of 0 shifts by all 32 bits. With overflow checks in the build that panics;
  // without, the shift is by none, and the pool is taken to end at its own base.
  method AllocateIp(base: nat, prefix: nat, taken: seq<nat>, checked: bool) returns (r: Allocation)
    requires base < TWO_32
    ensures prefix > 32 ==> r == Refused(BadPrefix)
    ensures 31 <= prefix <= 32 ==> r == Refused(TooSmall)
    ensures 1 <= prefix <= 30 && r.Allocated? ==>
              r.address <= U32_MAX && LeastFree(base, prefix, Members(taken), r.address)
    ensures 1 <= prefix <= 30 && !r.Allocated? ==>
              r == Refused(Exhausted) && forall x :: !Free(base, prefix, Members(taken), x)
    ensures prefix == 0 && checked ==> r == Panicked
    ensures prefix == 0 && !checked ==> IsFirst(Plus(base, 2), base, Members(taken), r)
    ensures prefix == 0 && !checked && base + 2 < TWO_32 ==> r == Refused(Exhausted)
  {
    if prefix > 32 {
      return Refused(BadPrefix);
    }
    if prefix >= 31 {
      return Refused(TooSmall);
    }
    if prefix == 0 && checked {
      return Panicked;
    }
    var mask := Mask(MaskPrefix(prefix));
    MasksGivePool(base, MaskPrefix(prefix));
    var net := And(base, mask);
    var broadcast := Or(net, Complement(mask));
    SearchedEnds(base, prefix);
    r := FirstFree(Plus(net, 2), broadcast, Members(taken));
    if prefix > 0 {
      FirstIsLeast(base, prefix, Members(taken), r);
    }
  }

  lemma AtLeastFour(prefix: nat)
    requires prefix <= 30
    ensures Pow2(HostBits(prefix)) >= 4
  {
    Pow2Grows(2, HostBits(prefix));
  }

  method FirstFree(lo: nat, hi: nat, taken: set<nat>) returns (r: Allocation)
    ensures IsFirst(lo, hi, taken, r)
  {
    var host := lo;
    while host < hi
      invariant forall x :: lo <= x < host ==> x in taken
      invariant lo <= host
    {
      if host !in taken {
        return Allocated(host);
      }
      host := host + 1;
    }
    r := Refused(Exhausted);
  }

  // ------------------------------------------------------------------------ runs

  // The address of each user's peer on one interface.
  type Peers = map<nat, nat>

  // A creation in flight: it has seen that the user has no peer, and then chosen an
  // address. The row is inserted last, and nothing is held in between.
  datatype Job = Looked(user: nat) | Chosen(user: nat, address: nat)

  datatype World = World(peers: Peers, jobs: seq<Job>)

  const EMPTY := World(map[], [])

  // `Choose` finds the lowest free address, or none.
  datatype Event = Look(user: nat) | Choose(i: nat, address: Option<nat>) | Insert(i: nat) | Remove(user: nat)

  ghost predicate Exhausts(base: nat, prefix: nat, p: Peers)
    requires prefix <= 30
  {
    forall x :: !Free(base, prefix, p.Values, x)
  }

  ghost predicate Can(base: nat, prefix: nat, w: World, e: Event)
    requires prefix <= 30
  {
    match e
    case Look(_) => true
    case Choose(i, address) =>
      && i < |w.jobs| && w.jobs[i].Looked?
      && if address.Some? then LeastFree(base, prefix, w.peers.Values, address.value)
         else Exhausts(base, prefix, w.peers)
    case Insert(i) => i < |w.jobs| && w.jobs[i].Chosen?
    case Remove(_) => true
  }

  // The unique columns of the table refuse the row.
  predicate Clashes(p: Peers, user: nat, address: nat) {
    user in p || address in p.Values
  }

  function Without(jobs: seq<Job>, i: nat): seq<Job>
    requires i < |jobs|
  {
    jobs[..i] + jobs[i + 1..]
  }

  ghost function After(base: nat, prefix: nat, w: World, e: Event): World
    requires prefix <= 30 && Can(base, prefix, w, e)
  {
    match e
    case Look(user) => if user in w.peers then w else w.(jobs := w.jobs + [Looked(user)])
    case Choose(i, address) =>
      w.(jobs := if address.Some? then w.jobs[i := Chosen(w.jobs[i].user, address.value)] else Without(w.jobs, i))
    case Insert(i) =>
      var Chosen(user, address) := w.jobs[i];
      World(if Clashes(w.peers, user, address) then w.peers else w.peers[user := address], Without(w.jobs, i))
    case Remove(user) => w.(peers := w.peers - {user})
  }

  // A run with at most `most` creations in flight.
  ghost predicate IsRun(base: nat, prefix: nat, w: World, events: seq<Event>, most: nat)
    requires prefix <= 30
    decreases |events|
  {
    && |w.jobs| <= most
    && (events == [] ||
        (Can(base, prefix, w, events[0]) && IsRun(base, prefix, After(base, prefix, w, events[0]), events[1..], most)))
  }

  ghost function RunAfter(base: nat, prefix: nat, w: World, events: seq<Event>, most: nat): World
    requires prefix <= 30 && IsRun(base, prefix, w, events, most)
    decreases |events|
  {
    if events == [] then w else RunAfter(base, prefix, After(base, prefix, w, events[0]), events[1..], most)
  }

  predicate InPool(base: nat, prefix: nat, x: nat)
    requires prefix <= 30
  {
    Network(base, prefix) + 1 < x < Broadcast(base, prefix)
  }

  // No two peers share an address, and none has the server's or the broadcast.
  ghost predicate PeersOk(base: nat, prefix: nat, p: Peers)
    requires prefix <= 30
  {
    && (forall u, v :: u in p && v in p && u != v ==> p[u] != p[v])
    && (forall u :: u in p ==> InPool(base, prefix, p[u]))
  }

  ghost predicate Inv(base: nat, prefix: nat, w: World)
    requires prefix <= 30
  {
    && PeersOk(base, prefix, w.peers)
    && (forall i :: 0 <= i < |w.jobs| && w.jobs[i].Chosen? ==> InPool(base, prefix, w.jobs[i].address))
  }

  lemma EventKeepsInv(base: nat, prefix: nat, w: World, e: Event)
    requires prefix <= 30 && Inv(base, prefix, w) && Can(base, prefix, w, e)
    ensures Inv(base, prefix, After(base, prefix, w, e))
  {
    if e.Insert? {
      forall v | v in w.peers ensures w.peers[v] in w.peers.Values {
      }
    }
  }

  // However creations and removals interleave, peers have addresses of their own.
  lemma {:induction false} RunKeepsPeersOk(base: nat, prefix: nat, w: World, events: seq<Event>, most: nat)
    requires prefix <= 30 && Inv(base, prefix, w) && IsRun(base, prefix, w, events, most)
    ensures Inv(base, prefix, RunAfter(base, prefix, w, events, most))
    decreases |events|
  {
    if events != [] {
      EventKeepsInv(base, prefix, w, events[0]);
      RunKeepsPeersOk(base, prefix, After(base, prefix, w, events[0]), events[1..], most);
    }
  }

  // ------------------------------------------------------------------------ capacity

  // The addresses peers can have.
  function Capacity(prefix: nat): nat
    requires prefix <= 30
  {
    AtLeastFour(prefix);
    Pow2(HostBits(prefix)) - 3
  }

  function Range(lo: nat, n: nat): (r: set<nat>)
    ensures forall x :: x in r <==> lo <= x < lo + n
  {
    if n == 0 then {} else Range(lo, n - 1) + {lo + n - 1}
  }

  lemma {:induction false} RangeSize(lo: nat, n: nat)
    ensures |Range(lo, n)| == n
  {
    if n > 0 {
      RangeSize(lo, n - 1);
    }
  }

  lemma {:induction false} InjectiveSize(p: Peers)
    requires forall u, v :: u in p && v in p && u != v ==> p[u] != p[v]
    ensures |p.Values| == |p|
    decreases |p|
  {
    if p != map[] {
      var u :| u in p;
      var rest := p - {u};
      InjectiveSize(rest);
      PutBack(p, u);
      ValuesGrow(rest, u, p[u]);
      assert p[u] !in rest.Values;
    }
  }

  lemma PutBack(p: Peers, u: nat)
    requires u in p
    ensures p == (p - {u})[u := p[u]] && |p| == |p - {u}| + 1
  {
    assert p.Keys == (p - {u}).Keys + {u};
  }

  lemma ValuesGrow(p: Peers, user: nat, address: nat)
    requires user !in p
    ensures p[user := address].Values == p.Values + {address}
  {
    var q := p[user := address];
    assert q[user] == address;
    forall v | v in p ensures p[v] in q.Values {
      assert q[v] == p[v];
    }
  }

  lemma FullIff(base: nat, prefix: nat, p: Peers)
    requires prefix <= 30 && PeersOk(base, prefix, p)
    ensures |p| <= Capacity(prefix)
    ensures Exhausts(base, prefix, p) <==> |p| == Capacity(prefix)
  {
    var n := Capacity(prefix);
    var all := Range(Network(base, prefix) + 2, n);
    InjectiveSize(p);
    RangeSize(Network(base, prefix) + 2, n);
    SubsetSize(p.Values, all);
    if p.Values != all {
      var x :| x in all && x !in p.Values;
      assert Free(base, prefix, p.Values, x);
    }
  }

  // In every run an allocation is refused exactly when the pool is full, however
  // creations and removals interleave.
  lemma RefusedExactlyWhenFull(base: nat, prefix: nat, events: seq<Event>, most: nat)
    requires prefix <= 30 && IsRun(base, prefix, EMPTY, events, most)
    ensures var p := RunAfter(base, prefix, EMPTY, events, most).peers;
            |p| <= Capacity(prefix) && (Exhausts(base, prefix, p) <==> |p| == Capacity(prefix))
  {
    RunKeepsPeersOk(base, prefix, EMPTY, events, most);
    FullIff(base, prefix, RunAfter(base, prefix, EMPTY, events, most).peers);
  }

  // ------------------------------------------------------------------------ clashes

  // With one creation in flight what it saw stays true.
  ghost predicate Fresh(w: World) {
    forall i :: 0 <= i < |w.jobs| ==>
      w.jobs[i].user !in w.peers && (w.jobs[i].Chosen? ==> w.jobs[i].address !in w.peers.Values)
  }

  lemma EventKeepsFresh(base: nat, prefix: nat, w: World, e: Event)
    requires prefix <= 30 && Fresh(w) && |w.jobs| <= 1 && Can(base, prefix, w, e)
    requires |After(base, prefix, w, e).jobs| <= 1
    ensures Fresh(After(base, prefix, w, e))
  {
  }

  lemma {:induction false} RunKeepsFresh(base: nat, prefix: nat, w: World, events: seq<Event>, most: nat)
    requires prefix <= 30 && most <= 1 && Fresh(w) && IsRun(base, prefix, w, events, most)
    ensures Fresh(RunAfter(base, prefix, w, events, most))
    decreases |events|
  {
    if events != [] {
      var w' := After(base, prefix, w, events[0]);
      assert IsRun(base, prefix, w', events[1..], most);
      EventKeepsFresh(base, prefix, w, events[0]);
      RunKeepsFresh(base, prefix, w', events[1..], most);
    }
  }

  // The insert of job i would fail although the pool has a free address.
  ghost predicate FailsInVain(base: nat, prefix: nat, w: World, i: nat)
    requires prefix <= 30
  {
    && i < |w.jobs| && w.jobs[i].Chosen? && Clashes(w.peers, w.jobs[i].user, w.jobs[i].address)
    && |w.peers| < Capacity(prefix)
  }

  ghost predicate NeverInVain(base: nat, prefix: nat, most: nat)
    requires prefix <= 30
  {
    forall events, i :: IsRun(base, prefix, EMPTY, events, most) ==>
      !FailsInVain(base, prefix, RunAfter(base, prefix, EMPTY, events, most), i)
  }

  lemma OneStep(base: nat, prefix: nat, w: World, e: Event, w': World, rest: seq<Event>, most: nat)
    requires prefix <= 30 && |w.jobs| <= most && Can(base, prefix, w, e) && After(base, prefix, w, e) == w'
    requires IsRun(base, prefix, w', rest, most)
    ensures IsRun(base, prefix, w, [e] + rest, most)
    ensures RunAfter(base, prefix, w, [e] + rest, most) == RunAfter(base, prefix, w', rest, most)
  {
    assert ([e] + rest)[1..] == rest;
  }

  // Two users choose the same address, and one of them gets it.
  function Collision(address: nat): seq<Event> {
    [Look(0)] + ([Look(1)] + ([Choose(0, Some(address))] + ([Choose(1, Some(address))] + ([Insert(0)] + []))))
  }

  lemma CollisionHappens(base: nat, prefix: nat, most: nat)
    requires prefix <= 30 && most >= 2 && Capacity(prefix) >= 2
    ensures var a := Network(base, prefix) + 2;
            && IsRun(base, prefix, EMPTY, Collision(a), most)
            && FailsInVain(base, prefix, RunAfter(base, prefix, EMPTY, Collision(a), most), 0)
  {
    var a := Network(base, prefix) + 2;
    var none: Peers := map[];
    assert Free(base, prefix, none.Values, a);
    var w1, w2 := World(none, [Looked(0)]), World(none, [Looked(0), Looked(1)]);
    var w3, w4 := World(none, [Chosen(0, a), Looked(1)]), World(none, [Chosen(0, a), Chosen(1, a)]);
    var w5 := World(map[0 := a], [Chosen(1, a)]);
    assert none[0 := a] == map[0 := a] && w5.peers[0] == a;
    var e4: seq<Event> := [Insert(0)] + [];
    var e3 := [Choose(1, Some(a))] + e4;
    var e2 := [Choose(0, Some(a))] + e3;
    OneStep(base, prefix, w4, Insert(0), w5, [], most);
    OneStep(base, prefix, w3, Choose(1, Some(a)), w4, e4, most);
    OneStep(base, prefix, w2, Choose(0, Some(a)), w3, e3, most);
    OneStep(base, prefix, w1, Look(1), w2, e2, most);
    OneStep(base, prefix, EMPTY, Look(0), w1, [Look(1)] + e2, most);
  }

  // No insert fails while an address is free exactly when creations come one at a time
  // or the pool has one address to give.
  lemma NeverInVainExactly(base: nat, prefix: nat, most: nat)
    requires prefix <= 30
    ensures NeverInVain(base, prefix, most) <==> most <= 1 || Capacity(prefix) == 1
  {
    if most <= 1 {
      forall events | IsRun(base, prefix, EMPTY, events, most)
        ensures Fresh(RunAfter(base, prefix, EMPTY, events, most))
      {
        RunKeepsFresh(base, prefix, EMPTY, events, most);
      }
    } else if Capacity(prefix) == 1 {
      forall w: World, i: nat ensures !FailsInVain(base, prefix, w, i) {
        assert |w.peers| == 0 ==> w.peers == map[];
      }
    } else {
      CollisionHappens(base, prefix, most);
    }
  }

  // ------------------------------------------------------------------------ in turn

  // The table after a user's creation with no other in between.
  ghost predicate Created(base: nat, prefix: nat, p: Peers, user: nat, q: Peers)
    requires prefix <= 30
  {
    if user in p || Exhausts(base, prefix, p) then q == p
    else user in q && q == p[user := q[user]] && LeastFree(base, prefix, p.Values, q[user])
  }

  // It is the three steps of a creation from a table that nobody else works on.
  lemma CreatedInTurn(base: nat, prefix: nat, p: Peers, user: nat, q: Peers)
    requires prefix <= 30 && user !in p && !Exhausts(base, prefix, p) && Created(base, prefix, p, user, q)
    ensures var events := [Look(user), Choose(0, Some(q[user])), Insert(0)];
            && IsRun(base, prefix, World(p, []), events, 1)
            && RunAfter(base, prefix, World(p, []), events, 1) == World(q, [])
  {
    var e := [Look(user), Choose(0, Some(q[user])), Insert(0)];
    var w0, w1, w2, w3 := World(p, []), World(p, [Looked(user)]), World(p, [Chosen(user, q[user])]), World(q, []);
    assert After(base, prefix, w0, e[0]) == w1 && After(base, prefix, w1, e[1]) == w2;
    assert After(base, prefix, w2, e[2]) == w3;
    assert e[1..][1..] == e[2..] && e[2..][1..] == [];
    assert IsRun(base, prefix, w3, [], 1) && RunAfter(base, prefix, w3, [], 1) == w3;
    assert IsRun(base, prefix, w2, e[2..], 1) && RunAfter(base, prefix, w2, e[2..], 1) == w3;
    assert IsRun(base, prefix, w1, e[1..], 1) && RunAfter(base, prefix, w1, e[1..], 1) == w3;
  }

  // Users who come one after the other get consecutive addresses from the first
  // one after the server's, until all 2^(32 - prefix) - 3 are given out.
  lemma {:induction false} ConsecutiveAddresses(base: nat, prefix: nat, users: seq<nat>, tables: seq<Peers>, k: nat)
    requires prefix <= 30 && k < |tables| == |users| + 1 && tables[0] == map[]
    requires forall i :: 0 <= i < |users| ==> Created(base, prefix, tables[i], users[i], tables[i + 1])
    requires forall i, j :: 0 <= i < j < |users| ==> users[i] != users[j]
    ensures forall u :: u in tables[k] ==> u in users[..k]
    ensures tables[k].Values == Range(Network(base, prefix) + 2, if k <= Capacity(prefix) then k else Capacity(prefix))
    ensures 0 < k <= Capacity(prefix) ==>
              users[k - 1] in tables[k] && tables[k][users[k - 1]] == Network(base, prefix) + 1 + k
    ensures k > Capacity(prefix) ==> users[k - 1] !in tables[k]
    decreases k
  {
    if k > 0 {
      var i := k - 1;
      ConsecutiveAddresses(base, prefix, users, tables, i);
      assert Created(base, prefix, tables[i], users[i], tables[k]);
      assert users[i] !in tables[i];
      NextAddress(base, prefix, tables[i], users[i], tables[k], i);
    }
  }

  lemma NextAddress(base: nat, prefix: nat, p: Peers, user: nat, q: Peers, i: nat)
    requires prefix <= 30 && user !in p && Created(base, prefix, p, user, q)
    requires p.Values == Range(Network(base, prefix) + 2, if i <= Capacity(prefix) then i else Capacity(prefix))
    ensures i >= Capacity(prefix) ==> q == p
    ensures i < Capacity(prefix) ==> q == p[user := Network(base, prefix) + 2 + i]
    ensures i < Capacity(prefix) ==> q.Values == Range(Network(base, prefix) + 2, i + 1)
  {
    var next := Network(base, prefix) + 2 + i;
    if i < Capacity(prefix) {
      assert Free(base, prefix, p.Values, next);
      assert q[user] == next;
      ValuesGrow(p, user, next);
    }
  }

  // A removed peer's address is free again: in a full pool it is the one that the next
  // creation gets.
  lemma FreedIsReused(base: nat, prefix: nat, p: Peers, gone: nat, user: nat)
    requires prefix <= 30 && PeersOk(base, prefix, p) && Exhausts(base, prefix, p)
    requires gone in p && (user !in p || user == gone)
    ensures var events := [Remove(gone), Look(user), Choose(0, Some(p[gone])), Insert(0)];
            && IsRun(base, prefix, World(p, []), events, 1)
            && RunAfter(base, prefix, World(p, []), events, 1) == World((p - {gone})[user := p[gone]], [])
  {
    var a, q := p[gone], p - {gone};
    var rest := [Look(user), Choose(0, Some(a)), Insert(0)];
    forall x
      ensures Free(base, prefix, q.Values, x) <==> x == a
    {
      assert !Free(base, prefix, p.Values, x);
      if x in p.Values && x != a {
        var u :| u in p && p[u] == x;
        assert q[u] == x;
      }
    }
    assert LeastFree(base, prefix, q.Values, a);
    assert q[user := a][user] == a;
    CreatedInTurn(base, prefix, q, user, q[user := a]);
    OneStep(base, prefix, World(p, []), Remove(gone), World(q, []), rest, 1);
    assert [Remove(gone)] + rest == [Remove(gone), Look(user), Choose(0, Some(a)), Insert(0)];
  }
}
