/**
 The per-client limiter of the subscription endpoint (master/src/ratelimit.rs):
 a counter per key and window, and a block once the counter passes the limit.
 Times are integers; SECOND of them make a second.
 */
module SubscriptionLimit {
  import opened Wrappers

  const U32_MAX := 0xFFFF_FFFF
  const SECOND := 1_000_000_000

  datatype Config = Config(enabled: bool, maxRequests: nat, window: nat, block: nat)

  datatype Entry = Entry(requests: nat, windowStart: int, blockedUntil: Option<int>)

  datatype Decision = Allow | Block(retryAfter: nat)

  predicate BlockedAt(e: Entry, now: int) {
    e.blockedUntil.Some? && e.blockedUntil.value > now
  }

  // What `retain` keeps.
  predicate Live(e: Entry, c: Config, now: int) {
    BlockedAt(e, now) || now - e.windowStart <= c.window
  }

  function Retained(entries: map<string, Entry>, c: Config, now: int): map<string, Entry> {
    map k | k in entries && Live(entries[k], c, now) :: entries[k]
  }

  function SaturatingInc(n: nat): nat {
    if n >= U32_MAX then U32_MAX else n + 1
  }

  function RetryAfter(until: int, now: int): nat {
    if until <= now then 1 else (until - now) / SECOND + 1
  }

  // One request of a key, given the key's entry if it is still kept.
  function Step(e: Option<Entry>, c: Config, now: int): (Entry, Decision) {
    var entry := if e.Some? && Live(e.value, c, now) then e.value else Entry(0, now, None);
    if BlockedAt(entry, now) then (entry, Block(RetryAfter(entry.blockedUntil.value, now)))
    else
      var current := if now - entry.windowStart > c.window then Entry(0, now, None) else entry;
      var counted := current.(requests := SaturatingInc(current.requests));
      if counted.requests > c.maxRequests
      then (counted.(blockedUntil := Some(now + c.block)), Block(RetryAfter(now + c.block, now)))
      else (counted, Allow)
  }

  function Lookup(entries: map<string, Entry>, key: string): Option<Entry> {
    if key in entries then Some(entries[key]) else None
  }

  class SubscriptionLimiter {
    var entries: map<string, Entry>
    var allowedTotal: nat
    var blockedTotal: nat

    constructor ()
      ensures entries == map[] && allowedTotal == blockedTotal == 0
    {
      entries, allowedTotal, blockedTotal := map[], 0, 0;
    }

    method Check(key: string, c: Config, now: int) returns (d: Decision)
      modifies this
      ensures !c.enabled ==> d.Allow? && entries == old(entries)
      ensures c.enabled ==> (entries, d) == CheckAll(old(entries), c, key, now)
      ensures allowedTotal + blockedTotal == old(allowedTotal) + old(blockedTotal) + 1
      ensures allowedTotal == old(allowedTotal) + if d.Allow? then 1 else 0
    {
      if !c.enabled {
        allowedTotal := allowedTotal + 1;
        return Allow;
      }
      entries := Retained(entries, c, now);
      var blank := Entry(0, now, None);
      if key !in entries {
        entries := entries[key := blank];
      }
      var entry := entries[key];
      if BlockedAt(entry, now) {
        assert entries == Retained(old(entries), c, now)[key := entry];
        blockedTotal := blockedTotal + 1;
        return Block(RetryAfter(entry.blockedUntil.value, now));
      }
      if now - entry.windowStart > c.window {
        entry := blank;
      }
      entry := entry.(requests := SaturatingInc(entry.requests));
      if entry.requests > c.maxRequests {
        var until := now + c.block;
        entries := entries[key := entry.(blockedUntil := Some(until))];
        assert entries == Retained(old(entries), c, now)[key := entries[key]];
        blockedTotal := blockedTotal + 1;
        return Block(RetryAfter(until, now));
      }
      entries := entries[key := entry];
      assert entries == Retained(old(entries), c, now)[key := entries[key]];
      allowedTotal := allowedTotal + 1;
      d := Allow;
    }
  }

  // One request against the whole table.
  function CheckAll(entries: map<string, Entry>, c: Config, key: string, now: int): (map<string, Entry>, Decision) {
    var (entry, d) := Step(Lookup(entries, key), c, now);
    (Retained(entries, c, now)[key := entry], d)
  }

  // ---------------------------------------------------------------------- runs

  // Requests in the order in which they get the lock. The stamp is read before.
  datatype Request = Request(key: string, now: int)

  // No request overtakes one that was stamped more than `d` earlier.
  predicate Skewed(reqs: seq<Request>, d: nat) {
    forall i, j :: 0 <= i < j < |reqs| ==> reqs[i].now <= reqs[j].now + d
  }

  predicate InOrder(reqs: seq<Request>) {
    Skewed(reqs, 0)
  }

  predicate Since(reqs: seq<Request>, t: int) {
    forall i :: 0 <= i < |reqs| ==> t <= reqs[i].now
  }

  type Table = map<string, Entry>

  function TableAfter(entries: Table, c: Config, reqs: seq<Request>): Table
    decreases |reqs|
  {
    if reqs == [] then entries else TableAfter(CheckAll(entries, c, reqs[0].key, reqs[0].now).0, c, reqs[1..])
  }

  // The decisions for the requests of one key in a run over all keys.
  function Decisions(entries: Table, c: Config, reqs: seq<Request>, key: string): seq<Decision>
    decreases |reqs|
  {
    if reqs == [] then []
    else
      var (entries', d) := CheckAll(entries, c, reqs[0].key, reqs[0].now);
      (if reqs[0].key == key then [d] else []) + Decisions(entries', c, reqs[1..], key)
  }

  // How many of them admit a request stamped inside [lo, hi].
  function Admitted(entries: Table, c: Config, reqs: seq<Request>, key: string, lo: int, hi: int): nat
    decreases |reqs|
  {
    if reqs == [] then 0
    else
      var (entries', d) := CheckAll(entries, c, reqs[0].key, reqs[0].now);
      (if reqs[0].key == key && d.Allow? && lo <= reqs[0].now <= hi then 1 else 0)
      + Admitted(entries', c, reqs[1..], key, lo, hi)
  }

  // ---------------------------------------------------------------- one key's view

  // The key's entry after a request: its own next one, or what is retained.
  function Next(e: Option<Entry>, c: Config, r: Request, key: string): Option<Entry> {
    if r.key == key then Some(Step(e, c, r.now).0)
    else if e.Some? && !Live(e.value, c, r.now) then None
    else e
  }

  function EntryAfter(e: Option<Entry>, c: Config, reqs: seq<Request>, key: string): Option<Entry>
    decreases |reqs|
  {
    if reqs == [] then e else EntryAfter(Next(e, c, reqs[0], key), c, reqs[1..], key)
  }

  function Seen(e: Option<Entry>, c: Config, reqs: seq<Request>, key: string): seq<Decision>
    decreases |reqs|
  {
    if reqs == [] then []
    else
      (if reqs[0].key == key then [Step(e, c, reqs[0].now).1] else [])
      + Seen(Next(e, c, reqs[0], key), c, reqs[1..], key)
  }

  predicate Admits(e: Option<Entry>, c: Config, r: Request, key: string, lo: int, hi: int) {
    r.key == key && Step(e, c, r.now).1.Allow? && lo <= r.now <= hi
  }

  function Count(e: Option<Entry>, c: Config, reqs: seq<Request>, key: string, lo: int, hi: int): nat
    decreases |reqs|
  {
    if reqs == [] then 0
    else
      (if Admits(e, c, reqs[0], key, lo, hi) then 1 else 0)
      + Count(Next(e, c, reqs[0], key), c, reqs[1..], key, lo, hi)
  }

  // The table holds what each key sees.
  lemma {:induction false} TableIsSeen(entries: Table, c: Config, reqs: seq<Request>, key: string, lo: int, hi: int)
    ensures Lookup(TableAfter(entries, c, reqs), key) == EntryAfter(Lookup(entries, key), c, reqs, key)
    ensures Decisions(entries, c, reqs, key) == Seen(Lookup(entries, key), c, reqs, key)
    ensures Admitted(entries, c, reqs, key, lo, hi) == Count(Lookup(entries, key), c, reqs, key, lo, hi)
    decreases |reqs|
  {
    if reqs != [] {
      var r := reqs[0];
      var entries' := CheckAll(entries, c, r.key, r.now).0;
      assert Lookup(entries', key) == Next(Lookup(entries, key), c, r, key);
      TableIsSeen(entries', c, reqs[1..], key, lo, hi);
    }
  }

  // ------------------------------------------------------------------- isolation

  function Own(reqs: seq<Request>, key: string): seq<Request> {
    if reqs == [] then []
    else (if reqs[0].key == key then [reqs[0]] else []) + Own(reqs[1..], key)
  }

  lemma {:induction false} OwnSince(reqs: seq<Request>, key: string, t: int)
    requires Since(reqs, t)
    ensures Since(Own(reqs, key), t) && forall i :: 0 <= i < |Own(reqs, key)| ==> Own(reqs, key)[i].key == key
  {
    if reqs != [] {
      OwnSince(reqs[1..], key, t);
    }
  }

  // A dropped entry decides like no entry, now and later.
  lemma {:induction false} DeadIsAbsent(e: Entry, c: Config, reqs: seq<Request>, key: string, since: int)
    requires !Live(e, c, since) && Since(reqs, since)
    ensures Seen(Some(e), c, reqs, key) == Seen(None, c, reqs, key)
    decreases |reqs|
  {
    if reqs != [] && reqs[0].key != key {
      DeadIsAbsent(e, c, reqs[1..], key, since);
    }
  }

  // While stamps come in lock order keys do not affect each other: the decisions
  // for a key are those it would get alone.
  lemma {:induction false} KeysAreIsolated(e: Option<Entry>, c: Config, reqs: seq<Request>, key: string)
    requires InOrder(reqs)
    ensures Seen(e, c, reqs, key) == Seen(e, c, Own(reqs, key), key)
    decreases |reqs|
  {
    if reqs != [] {
      var r, rest := reqs[0], reqs[1..];
      KeysAreIsolated(Next(e, c, r, key), c, rest, key);
      OwnSince(rest, key, r.now);
      OneRequest(e, c, r, Own(rest, key), key);
    }
  }

  lemma OneRequest(e: Option<Entry>, c: Config, r: Request, own: seq<Request>, key: string)
    requires Since(own, r.now)
    ensures (if r.key == key then [Step(e, c, r.now).1] else []) + Seen(Next(e, c, r, key), c, own, key)
         == Seen(e, c, (if r.key == key then [r] else []) + own, key)
  {
    if r.key == key {
      assert ([r] + own)[1..] == own;
    } else {
      assert [] + own == own;
      if e.Some? && !Live(e.value, c, r.now) {
        DeadIsAbsent(e.value, c, own, key, r.now);
      }
    }
  }

  // --------------------------------------------------------------------- bound

  function Left(e: Option<Entry>, c: Config): nat {
    if e.None? || e.value.requests >= c.maxRequests then 0 else c.maxRequests - e.value.requests
  }

  lemma {:induction false} NoneAfter(e: Option<Entry>, c: Config, reqs: seq<Request>, key: string, lo: int, hi: int)
    requires Since(reqs, hi + 1)
    ensures Count(e, c, reqs, key, lo, hi) == 0
    decreases |reqs|
  {
    if reqs != [] {
      NoneAfter(Next(e, c, reqs[0], key), c, reqs[1..], key, lo, hi);
    }
  }

  // Within one window the key gets what is left of the limit.
  lemma {:induction false} WithinWindow(e: Entry, c: Config, reqs: seq<Request>, key: string, lo: int, hi: int)
    requires c.maxRequests < U32_MAX && InOrder(reqs) && hi <= e.windowStart + c.window
    ensures Count(Some(e), c, reqs, key, lo, hi) <= Left(Some(e), c)
    decreases |reqs|
  {
    if reqs != [] {
      if reqs[0].now > hi {
        NoneAfter(Some(e), c, reqs, key, lo, hi);
      } else {
        WithinWindow(Next(Some(e), c, reqs[0], key).value, c, reqs[1..], key, lo, hi);
      }
    }
  }

  // From the start of the interval on, a running window can hand over to one
  // fresh window, not to two.
  lemma {:induction false} TwoWindows(e: Option<Entry>, c: Config, reqs: seq<Request>, key: string, lo: int, hi: int)
    requires c.maxRequests < U32_MAX && InOrder(reqs) && Since(reqs, lo) && hi <= lo + c.window
    ensures Count(e, c, reqs, key, lo, hi) <= Left(e, c) + c.maxRequests
    decreases |reqs|
  {
    if reqs != [] {
      var e' := Next(e, c, reqs[0], key);
      if e'.Some? && e'.value.windowStart == reqs[0].now && (e.None? || e.value.windowStart != reqs[0].now) {
        WithinWindow(e'.value, c, reqs[1..], key, lo, hi);
      } else {
        TwoWindows(e', c, reqs[1..], key, lo, hi);
      }
    }
  }

  lemma {:induction false} KeyBound(e: Option<Entry>, c: Config, reqs: seq<Request>, key: string, lo: int, hi: int)
    requires 0 < c.maxRequests < U32_MAX && InOrder(reqs) && hi <= lo + c.window
    requires e.Some? ==> e.value.requests >= 1
    ensures Count(e, c, reqs, key, lo, hi) <= 2 * c.maxRequests - 1
    decreases |reqs|
  {
    if reqs != [] {
      if reqs[0].now < lo {
        KeyBound(Next(e, c, reqs[0], key), c, reqs[1..], key, lo, hi);
      } else {
        TwoWindows(e, c, reqs, key, lo, hi);
      }
    }
  }

  lemma {:induction false} NothingAllowed(e: Option<Entry>, c: Config, reqs: seq<Request>, key: string,
                                          lo: int, hi: int)
    requires c.maxRequests == 0
    ensures Count(e, c, reqs, key, lo, hi) == 0
    decreases |reqs|
  {
    if reqs != [] {
      NothingAllowed(Next(e, c, reqs[0], key), c, reqs[1..], key, lo, hi);
    }
  }

  // A window without length: an instant has one window of its own.
  lemma {:induction false} InstantBound(e: Option<Entry>, c: Config, reqs: seq<Request>, key: string, lo: int, hi: int)
    requires c.maxRequests < U32_MAX && c.window == 0 && InOrder(reqs) && hi <= lo
    requires e.Some? ==> e.value.windowStart < lo && Since(reqs, e.value.windowStart)
    ensures Count(e, c, reqs, key, lo, hi) <= c.maxRequests
    decreases |reqs|
  {
    if reqs != [] {
      var e' := Next(e, c, reqs[0], key);
      if reqs[0].now > hi && reqs[0].now >= lo {
        NoneAfter(e, c, reqs, key, lo, hi);
      } else if e'.Some? && e'.value.windowStart >= lo {
        WithinWindow(e'.value, c, reqs[1..], key, lo, hi);
      } else {
        InstantBound(e', c, reqs[1..], key, lo, hi);
      }
    }
  }

  // The most requests of a key that a closed interval as long as the window admits.
  function MostAllowed(c: Config): nat {
    if c.maxRequests == 0 then 0
    else if c.window == 0 then c.maxRequests
    else 2 * c.maxRequests - 1
  }

  // The bound over all keys and all runs with stamps in lock order.
  lemma LimiterBound(c: Config, reqs: seq<Request>, key: string, lo: int, hi: int)
    requires c.maxRequests < U32_MAX && InOrder(reqs) && hi <= lo + c.window
    ensures Admitted(map[], c, reqs, key, lo, hi) <= MostAllowed(c)
  {
    TableIsSeen(map[], c, reqs, key, lo, hi);
    if c.maxRequests == 0 {
      NothingAllowed(None, c, reqs, key, lo, hi);
    } else if c.window == 0 {
      InstantBound(None, c, reqs, key, lo, hi);
    } else {
      KeyBound(None, c, reqs, key, lo, hi);
    }
  }

  // ------------------------------------------------------------- blocked windows

  // In every run a blocked entry has counted past the limit.
  predicate BlockInv(e: Option<Entry>, c: Config) {
    e.Some? && e.value.blockedUntil.Some? ==> e.value.requests > c.maxRequests
  }

  lemma {:induction false} RunKeepsBlockInv(e: Option<Entry>, c: Config, reqs: seq<Request>, key: string)
    requires c.maxRequests < U32_MAX && BlockInv(e, c)
    ensures BlockInv(EntryAfter(e, c, reqs, key), c)
    decreases |reqs|
  {
    if reqs != [] {
      RunKeepsBlockInv(Next(e, c, reqs[0], key), c, reqs[1..], key);
    }
  }

  predicate Until(reqs: seq<Request>, t: int) {
    forall i :: 0 <= i < |reqs| ==> reqs[i].now <= t
  }

  predicate AllBlock(ds: seq<Decision>) {
    forall i :: 0 <= i < |ds| ==> ds[i].Block?
  }

  // Inside a window that is used up every request is blocked, and the block is
  // renewed whenever it has run out, whatever the order of the stamps.
  lemma {:induction false} UsedUp(e: Entry, c: Config, reqs: seq<Request>, key: string)
    requires c.maxRequests < U32_MAX && e.requests > c.maxRequests && Until(reqs, e.windowStart + c.window)
    ensures AllBlock(Seen(Some(e), c, reqs, key))
    ensures var after := EntryAfter(Some(e), c, reqs, key);
            && after.Some? && after.value.requests > c.maxRequests && after.value.windowStart == e.windowStart
            && (reqs != [] && reqs[|reqs| - 1].key == key ==>
                  var now := reqs[|reqs| - 1].now;
                  BlockedAt(after.value, now) || after.value.blockedUntil == Some(now + c.block))
    decreases |reqs|
  {
    if reqs != [] {
      var e' := Next(Some(e), c, reqs[0], key).value;
      UsedUp(e', c, reqs[1..], key);
    }
  }

  lemma {:induction false} EntryConcat(e: Option<Entry>, c: Config, a: seq<Request>, r: Request, key: string)
    ensures EntryAfter(e, c, a + [r], key) == Next(EntryAfter(e, c, a, key), c, r, key)
    decreases |a|
  {
    if a == [] {
      assert a + [r] == [r];
    } else {
      assert (a + [r])[1..] == a[1..] + [r];
      EntryConcat(Next(e, c, a[0], key), c, a[1..], r, key);
    }
  }

  // In every run, whatever the order of the stamps: once a key is blocked, all its
  // requests are blocked until someone comes with a stamp past the end of the window
  // it was blocked in, however short the block.
  lemma BlockedUntilWindowEnds(c: Config, before: seq<Request>, r: Request, after: seq<Request>)
    requires c.maxRequests < U32_MAX
    requires CheckAll(TableAfter(map[], c, before), c, r.key, r.now).1.Block?
    requires var entries := TableAfter(map[], c, before + [r]);
             r.key in entries && Until(after, entries[r.key].windowStart + c.window)
    ensures AllBlock(Decisions(TableAfter(map[], c, before + [r]), c, after, r.key))
  {
    TableIsSeen(map[], c, before, r.key, 0, 0);
    TableIsSeen(map[], c, before + [r], r.key, 0, 0);
    RunKeepsBlockInv(None, c, before, r.key);
    EntryConcat(None, c, before, r, r.key);
    var entries := TableAfter(map[], c, before + [r]);
    TableIsSeen(entries, c, after, r.key, 0, 0);
    UsedUp(entries[r.key], c, after, r.key);
  }

  // ------------------------------------------------------------------ tightness

  function Times<T>(x: T, n: nat): seq<T> {
    seq(n, _ => x)
  }

  lemma OneOfTimes<T>(x: T, n: nat, rest: seq<T>)
    requires n > 0
    ensures Times(x, n) + rest == [x] + (Times(x, n - 1) + rest)
  {
  }

  // n requests at one instant inside a window with room for them.
  lemma {:induction false} RoomForAll(e: Entry, c: Config, r: Request, n: nat, rest: seq<Request>, lo: int, hi: int)
    requires lo <= r.now <= hi && r.now - e.windowStart <= c.window && e.blockedUntil.None?
    requires e.requests + n <= c.maxRequests <= U32_MAX
    ensures Count(Some(e), c, Times(r, n) + rest, r.key, lo, hi)
         == n + Count(Some(e.(requests := e.requests + n)), c, rest, r.key, lo, hi)
    decreases n
  {
    if n == 0 {
      assert Times(r, n) + rest == rest;
    } else {
      var more, later := e.(requests := e.requests + 1), Times(r, n - 1) + rest;
      OneOfTimes(r, n, rest);
      RoomForAll(more, c, r, n - 1, rest, lo, hi);
      CountAllowed(Some(e), c, r, later, more, lo, hi);
    }
  }

  lemma SeenAllowed(e: Option<Entry>, c: Config, r: Request, rest: seq<Request>, e': Entry)
    requires Step(e, c, r.now) == (e', Allow)
    ensures Seen(e, c, [r] + rest, r.key) == [Allow] + Seen(Some(e'), c, rest, r.key)
  {
    assert ([r] + rest)[1..] == rest;
  }

  lemma CountAllowed(e: Option<Entry>, c: Config, r: Request, rest: seq<Request>, e': Entry, lo: int, hi: int)
    requires Step(e, c, r.now) == (e', Allow) && lo <= r.now <= hi
    ensures Count(e, c, [r] + rest, r.key, lo, hi) == 1 + Count(Some(e'), c, rest, r.key, lo, hi)
  {
    assert ([r] + rest)[1..] == rest;
  }

  lemma {:induction false} RoomSeen(e: Entry, c: Config, r: Request, n: nat, rest: seq<Request>)
    requires r.now - e.windowStart <= c.window && e.blockedUntil.None?
    requires e.requests + n <= c.maxRequests <= U32_MAX
    ensures Seen(Some(e), c, Times(r, n) + rest, r.key)
         == Times(Allow, n) + Seen(Some(e.(requests := e.requests + n)), c, rest, r.key)
    decreases n
  {
    if n == 0 {
      assert Times(r, n) + rest == rest;
    } else {
      var more, later := e.(requests := e.requests + 1), Times(r, n - 1) + rest;
      OneOfTimes(r, n, rest);
      RoomSeen(more, c, r, n - 1, rest);
      SeenAllowed(Some(e), c, r, later, more);
      OneOfTimes(Allow, n, Seen(Some(e.(requests := e.requests + n)), c, rest, r.key));
    }
  }

  // A full limit at one instant that starts a window.
  lemma FreshWindow(e: Option<Entry>, c: Config, r: Request, rest: seq<Request>, lo: int, hi: int)
    requires 0 < c.maxRequests <= U32_MAX && lo <= r.now <= hi
    requires Step(e, c, r.now) == (Entry(1, r.now, None), Allow)
    ensures Count(e, c, Times(r, c.maxRequests) + rest, r.key, lo, hi)
         == c.maxRequests + Count(Some(Entry(c.maxRequests, r.now, None)), c, rest, r.key, lo, hi)
  {
    var later := Times(r, c.maxRequests - 1) + rest;
    OneOfTimes(r, c.maxRequests, rest);
    RoomForAll(Entry(1, r.now, None), c, r, c.maxRequests - 1, rest, lo, hi);
    CountAllowed(e, c, r, later, Entry(1, r.now, None), lo, hi);
  }

  lemma FreshSeen(e: Option<Entry>, c: Config, r: Request, rest: seq<Request>)
    requires 0 < c.maxRequests <= U32_MAX && Step(e, c, r.now) == (Entry(1, r.now, None), Allow)
    ensures Seen(e, c, Times(r, c.maxRequests) + rest, r.key)
         == Times(Allow, c.maxRequests) + Seen(Some(Entry(c.maxRequests, r.now, None)), c, rest, r.key)
  {
    var m := c.maxRequests;
    var later := Times(r, m - 1) + rest;
    OneOfTimes(r, m, rest);
    RoomSeen(Entry(1, r.now, None), c, r, m - 1, rest);
    SeenAllowed(e, c, r, later, Entry(1, r.now, None));
    OneOfTimes(Allow, m, Seen(Some(Entry(m, r.now, None)), c, rest, r.key));
  }

  // The requests of the busiest interval: one opens a window, the rest of its limit
  // comes at its end, and a full limit just after.
  function Busiest(c: Config): seq<Request> {
    if c.maxRequests == 0 || c.window == 0 then Times(Request("a", 0), c.maxRequests)
    else
      [Request("a", 0)]
      + (Times(Request("a", c.window), c.maxRequests - 1) + Times(Request("a", c.window + 1), c.maxRequests))
  }

  // The bound is attained for every config.
  lemma BoundIsTight(c: Config)
    requires c.maxRequests < U32_MAX
    ensures InOrder(Busiest(c))
    ensures Admitted(map[], c, Busiest(c), "a", c.window, 2 * c.window) == MostAllowed(c)
  {
    TableIsSeen(map[], c, Busiest(c), "a", c.window, 2 * c.window);
    if c.maxRequests > 0 && c.window == 0 {
      TightInstant(c);
    } else if c.maxRequests > 0 {
      TightWindows(c);
    }
  }

  lemma TightInstant(c: Config)
    requires 0 < c.maxRequests < U32_MAX && c.window == 0
    ensures Count(None, c, Busiest(c), "a", 0, 0) == c.maxRequests
  {
    FreshWindow(None, c, Request("a", 0), [], 0, 0);
    assert Busiest(c) == Busiest(c) + [];
  }

  lemma TightWindows(c: Config)
    requires 0 < c.maxRequests < U32_MAX && c.window > 0
    ensures Count(None, c, Busiest(c), "a", c.window, 2 * c.window) == 2 * c.maxRequests - 1
  {
    var w, m := c.window, c.maxRequests;
    var mid, late := Times(Request("a", w), m - 1), Times(Request("a", w + 1), m);
    assert Busiest(c)[1..] == mid + late;
    RoomForAll(Entry(1, 0, None), c, Request("a", w), m - 1, late, w, 2 * w);
    FreshWindow(Some(Entry(m, 0, None)), c, Request("a", w + 1), [], w, 2 * w);
    assert late + [] == late;
  }

  // --------------------------------------------------------- stamps out of order

  // A full limit of one key, a request of another with a later stamp that drops the
  // entry, and a full limit again with stamps that the entry would have counted.
  function Overtaken(c: Config): seq<Request> {
    Times(Request("a", 0), c.maxRequests)
    + ([Request("b", c.window + 1)] + Times(Request("a", c.window), c.maxRequests))
  }

  lemma OvertakenSkew(c: Config, d: nat)
    requires d > 0
    ensures Skewed(Overtaken(c), d)
  {
  }

  lemma OvertakenAdmitted(c: Config)
    requires 0 < c.maxRequests <= U32_MAX
    ensures Count(None, c, Overtaken(c), "a", 0, c.window) == 2 * c.maxRequests
  {
    var w, m := c.window, c.maxRequests;
    var late := Times(Request("a", w), m);
    var rest := [Request("b", w + 1)] + late;
    FreshWindow(None, c, Request("a", 0), rest, 0, w);
    assert rest[1..] == late;
    assert Next(Some(Entry(m, 0, None)), c, Request("b", w + 1), "a") == None;
    FreshWindow(None, c, Request("a", w), [], 0, w);
    assert late + [] == late;
  }

  lemma OvertakenSeen(c: Config)
    requires 0 < c.maxRequests <= U32_MAX
    ensures Seen(None, c, Overtaken(c), "a") == Times(Allow, 2 * c.maxRequests)
  {
    var w, m := c.window, c.maxRequests;
    var late := Times(Request("a", w), m);
    var rest := [Request("b", w + 1)] + late;
    FreshSeen(None, c, Request("a", 0), rest);
    assert rest[1..] == late;
    assert Next(Some(Entry(m, 0, None)), c, Request("b", w + 1), "a") == None;
    FreshSeen(None, c, Request("a", w), []);
    assert late + [] == late;
    assert [] + Seen(None, c, late, "a") == Times(Allow, m);
    assert Times(Allow, 2 * m) == Times(Allow, m) + Times(Allow, m);
  }

  lemma OvertakenOwn(c: Config)
    ensures Own(Overtaken(c), "a")
         == Times(Request("a", 0), c.maxRequests) + Times(Request("a", c.window), c.maxRequests)
  {
    var w, m := c.window, c.maxRequests;
    var late := Times(Request("a", w), m);
    var rest := [Request("b", w + 1)] + late;
    OwnTimes(Request("a", 0), m, rest);
    OwnTimes(Request("a", w), m, []);
    assert late + [] == late && rest[1..] == late;
    assert Own(rest, "a") == [] + Own(late, "a");
  }

  // On its own the key would be blocked after the first half.
  lemma OvertakenAlone(c: Config)
    requires 0 < c.maxRequests < U32_MAX
    ensures var alone := Seen(None, c, Own(Overtaken(c), "a"), "a");
            c.maxRequests < |alone| && alone[c.maxRequests].Block?
  {
    var late := Times(Request("a", c.window), c.maxRequests);
    OvertakenOwn(c);
    FreshSeen(None, c, Request("a", 0), late);
    assert Step(Some(Entry(c.maxRequests, 0, None)), c, c.window).1.Block?;
  }

  lemma {:induction false} OwnTimes(r: Request, n: nat, rest: seq<Request>)
    ensures Own(Times(r, n) + rest, r.key) == Times(r, n) + Own(rest, r.key)
    decreases n
  {
    if n == 0 {
      assert Times(r, n) + rest == rest;
    } else {
      assert (Times(r, n) + rest)[1..] == Times(r, n - 1) + rest;
      OwnTimes(r, n - 1, rest);
      assert Times(r, n) == [r] + Times(r, n - 1);
    }
  }

  predicate Alike(a: seq<Decision>, b: seq<Decision>) {
    |a| == |b| && forall i :: 0 <= i < |a| ==> (a[i].Allow? <==> b[i].Allow?)
  }

  // In all runs with such a skew, a key's requests are admitted as if it were alone.
  ghost predicate Isolates(c: Config, d: nat) {
    forall reqs, key :: Skewed(reqs, d) ==>
      Alike(Decisions(map[], c, reqs, key), Seen(None, c, Own(reqs, key), key))
  }

  // With the limit at zero or at the counter's maximum every decision is the same.
  lemma {:induction false} AlwaysTheSame(e: Option<Entry>, c: Config, reqs: seq<Request>, key: string)
    requires c.maxRequests == 0 || c.maxRequests == U32_MAX
    requires c.maxRequests == U32_MAX && e.Some? ==> e.value.blockedUntil.None?
    ensures |Seen(e, c, reqs, key)| == |Own(reqs, key)|
    ensures forall d :: d in Seen(e, c, reqs, key) ==> (d.Allow? <==> c.maxRequests == U32_MAX)
    decreases |reqs|
  {
    if reqs != [] {
      AlwaysTheSame(Next(e, c, reqs[0], key), c, reqs[1..], key);
    }
  }

  lemma {:induction false} OwnTwice(reqs: seq<Request>, key: string)
    ensures Own(Own(reqs, key), key) == Own(reqs, key)
  {
    if reqs != [] {
      OwnTwice(reqs[1..], key);
      if reqs[0].key == key {
        assert ([reqs[0]] + Own(reqs[1..], key))[1..] == Own(reqs[1..], key);
      } else {
        assert [] + Own(reqs[1..], key) == Own(reqs[1..], key);
      }
    }
  }

  // Keys are isolated exactly when no stamp is overtaken, or when the limit never
  // decides.
  lemma IsolatesExactly(c: Config, d: nat)
    requires c.maxRequests <= U32_MAX
    ensures Isolates(c, d) <==> d == 0 || c.maxRequests == 0 || c.maxRequests == U32_MAX
  {
    if d > 0 && 0 < c.maxRequests < U32_MAX {
      OvertakenSkew(c, d);
      OvertakenSeen(c);
      OvertakenAlone(c);
      TableIsSeen(map[], c, Overtaken(c), "a", 0, 0);
    } else {
      forall reqs, key | Skewed(reqs, d)
        ensures Alike(Decisions(map[], c, reqs, key), Seen(None, c, Own(reqs, key), key))
      {
        TableIsSeen(map[], c, reqs, key, 0, 0);
        if d == 0 {
          KeysAreIsolated(None, c, reqs, key);
        } else {
          AlwaysTheSame(None, c, reqs, key);
          AlwaysTheSame(None, c, Own(reqs, key), key);
          OwnTwice(reqs, key);
        }
      }
    }
  }

  // All runs with such a skew keep the bound.
  ghost predicate Limits(c: Config, d: nat, bound: nat) {
    forall reqs, key, lo, hi :: Skewed(reqs, d) && hi <= lo + c.window ==>
      Admitted(map[], c, reqs, key, lo, hi) <= bound
  }

  lemma {:induction false} SaturatedAdmits(e: Option<Entry>, c: Config, n: nat)
    requires c.maxRequests == U32_MAX && (e.Some? ==> e.value.blockedUntil.None?)
    ensures Count(e, c, Times(Request("a", 0), n), "a", 0, 0) == n
    decreases n
  {
    if n > 0 {
      var reqs := Times(Request("a", 0), n);
      assert reqs[1..] == Times(Request("a", 0), n - 1);
      SaturatedAdmits(Next(e, c, reqs[0], "a"), c, n - 1);
    }
  }

  // With the limit at the counter's maximum the counter saturates below it.
  lemma NoBoundAtSaturation(c: Config, d: nat, bound: nat)
    requires c.maxRequests == U32_MAX
    ensures !Limits(c, d, bound)
  {
    var reqs := Times(Request("a", 0), bound + 1);
    SaturatedAdmits(None, c, bound + 1);
    TableIsSeen(map[], c, reqs, "a", 0, 0);
    assert Skewed(reqs, d);
  }

  // The bound holds exactly when no stamp is overtaken and the limit is below the
  // counter's maximum, or when nothing is admitted at all.
  lemma LimitsExactly(c: Config, d: nat)
    requires c.maxRequests <= U32_MAX
    ensures Limits(c, d, MostAllowed(c)) <==> c.maxRequests == 0 || (d == 0 && c.maxRequests < U32_MAX)
  {
    if c.maxRequests == U32_MAX {
      NoBoundAtSaturation(c, d, MostAllowed(c));
    } else if d > 0 && c.maxRequests > 0 {
      OvertakenSkew(c, d);
      OvertakenAdmitted(c);
      TableIsSeen(map[], c, Overtaken(c), "a", 0, c.window);
    } else {
      forall reqs, key, lo, hi | Skewed(reqs, d) && hi <= lo + c.window
        ensures Admitted(map[], c, reqs, key, lo, hi) <= MostAllowed(c)
      {
        TableIsSeen(map[], c, reqs, key, lo, hi);
        if c.maxRequests == 0 {
          NothingAllowed(None, c, reqs, key, lo, hi);
        } else {
          LimiterBound(c, reqs, key, lo, hi);
        }
      }
    }
  }

  // ------------------------------------------------------------- any bound at all

  // The window starts that can still hold a stamp of the interval, from `from` on.
  function Slots(from: int, hi: int, d: nat): nat {
    if from > hi + d then 0 else hi + d - from + 1
  }

  function Max(a: int, b: int): int {
    if a > b then a else b
  }

  // The next fresh window starts here or later, once all stamps do.
  function Earliest(e: Option<Entry>, since: int): int {
    if e.Some? then Max(e.value.windowStart + 1, since) else since
  }

  function Room(e: Option<Entry>, c: Config, since: int, hi: int, d: nat): nat {
    Left(e, c) + c.maxRequests * Slots(Earliest(e, since), hi, d)
  }

  lemma MoreSlots(a: int, b: int, hi: int, d: nat, m: nat)
    requires a <= b
    ensures m * Slots(b, hi, d) <= m * Slots(a, hi, d)
    ensures a < b && a <= hi + d ==> m + m * Slots(b, hi, d) <= m * Slots(a, hi, d)
  {
    var n := Slots(a, hi, d) - Slots(b, hi, d);
    assert m * Slots(a, hi, d) == m * Slots(b, hi, d) + m * n;
    if n >= 1 {
      assert m * n >= m;
    }
  }

  // While stamps lag by no more than a window, windows move forward, and each start
  // has one limit.
  lemma {:induction false} LagBound(e: Option<Entry>, c: Config, reqs: seq<Request>, key: string, since: int, d: nat,
                                    lo: int, hi: int)
    requires c.maxRequests < U32_MAX && d <= c.window && Skewed(reqs, d) && Since(reqs, since)
    ensures Count(e, c, reqs, key, lo, hi) <= Room(e, c, since, hi, d)
    decreases |reqs|
  {
    if reqs != [] {
      var r, rest, e' := reqs[0], reqs[1..], Next(e, c, reqs[0], key);
      var since' := Max(since, r.now - d);
      assert Since(rest, since');
      if r.now > hi + d {
        NoneAfter(e, c, reqs, key, lo, hi);
      } else {
        LagBound(e', c, rest, key, since', d, lo, hi);
        RoomStep(e, c, r, key, since, d, lo, hi);
      }
    }
  }

  lemma RoomStep(e: Option<Entry>, c: Config, r: Request, key: string, since: int, d: nat, lo: int, hi: int)
    requires c.maxRequests < U32_MAX && d <= c.window && since <= r.now <= hi + d
    ensures (if Admits(e, c, r, key, lo, hi) then 1 else 0) + Room(Next(e, c, r, key), c, Max(since, r.now - d), hi, d)
         <= Room(e, c, since, hi, d)
  {
    var e', m := Next(e, c, r, key), c.maxRequests;
    var a, b := Earliest(e, since), Earliest(e', Max(since, r.now - d));
    assert a <= b;
    MoreSlots(a, b, hi, d, m);
  }

  // The same from the start of a run: nothing counts before the interval.
  lemma {:induction false} LagLimit(e: Option<Entry>, c: Config, reqs: seq<Request>, key: string, d: nat,
                                    lo: int, hi: int)
    requires c.maxRequests < U32_MAX && d <= c.window && Skewed(reqs, d) && hi <= lo + c.window
    ensures Count(e, c, reqs, key, lo, hi) <= c.maxRequests + c.maxRequests * (c.window + 2 * d + 1)
    decreases |reqs|
  {
    if reqs != [] {
      if reqs[0].now < lo {
        LagLimit(Next(e, c, reqs[0], key), c, reqs[1..], key, d, lo, hi);
      } else {
        assert Since(reqs, lo - d);
        LagBound(e, c, reqs, key, lo - d, d, lo, hi);
        LagRoom(e, c, d, lo, hi);
      }
    }
  }

  lemma LagRoom(e: Option<Entry>, c: Config, d: nat, lo: int, hi: int)
    requires hi <= lo + c.window
    ensures Room(e, c, lo - d, hi, d) <= c.maxRequests + c.maxRequests * (c.window + 2 * d + 1)
  {
    MoreSlots(lo - d, Earliest(e, lo - d), hi, d, c.maxRequests);
    SlotsAtMost(lo - d, hi, d, c.window + 2 * d + 1, c.maxRequests);
  }

  lemma SlotsAtMost(from: int, hi: int, d: nat, n: nat, m: nat)
    requires Slots(from, hi, d) <= n
    ensures m * Slots(from, hi, d) <= m * n
  {
    assert m * (n - Slots(from, hi, d)) >= 0;
  }

  // Stamps that lag by more than a window: the same request again and again, with the
  // entry dropped in between.
  function Rounds(c: Config, n: nat): seq<Request> {
    if n == 0 then [] else [Request("a", 0), Request("b", c.window + 1)] + Rounds(c, n - 1)
  }

  lemma {:induction false} RoundsAdmit(c: Config, n: nat)
    requires 0 < c.maxRequests < U32_MAX
    ensures Count(None, c, Rounds(c, n), "a", 0, 0) == n
    ensures forall i :: 0 <= i < |Rounds(c, n)| ==> 0 <= Rounds(c, n)[i].now <= c.window + 1
  {
    if n > 0 {
      var rest := Rounds(c, n - 1);
      assert Rounds(c, n)[1..] == [Request("b", c.window + 1)] + rest;
      assert ([Request("b", c.window + 1)] + rest)[1..] == rest;
      assert Next(Some(Entry(1, 0, None)), c, Request("b", c.window + 1), "a") == None;
      RoundsAdmit(c, n - 1);
      assert Count(Some(Entry(1, 0, None)), c, [Request("b", c.window + 1)] + rest, "a", 0, 0) == n - 1;
    }
  }

  // The limiter limits at all exactly when the limit is below the counter's maximum
  // and no stamp lags by more than a window, or when nothing is admitted.
  lemma LimitsAtAll(c: Config, d: nat)
    requires c.maxRequests <= U32_MAX
    ensures (exists bound :: Limits(c, d, bound)) <==> c.maxRequests == 0 || (c.maxRequests < U32_MAX && d <= c.window)
  {
    if c.maxRequests == 0 {
      LimitsExactly(c, d);
    } else if c.maxRequests == U32_MAX {
      forall bound ensures !Limits(c, d, bound) {
        NoBoundAtSaturation(c, d, bound);
      }
    } else if d <= c.window {
      LagLimits(c, d);
    } else {
      forall bound: nat ensures !Limits(c, d, bound) {
        RoundsAdmit(c, bound + 1);
        TableIsSeen(map[], c, Rounds(c, bound + 1), "a", 0, 0);
        assert Skewed(Rounds(c, bound + 1), d);
      }
    }
  }

  lemma LagLimits(c: Config, d: nat)
    requires c.maxRequests < U32_MAX && d <= c.window
    ensures Limits(c, d, c.maxRequests + c.maxRequests * (c.window + 2 * d + 1))
  {
    forall reqs, key, lo, hi | Skewed(reqs, d) && hi <= lo + c.window
      ensures Admitted(map[], c, reqs, key, lo, hi) <= c.maxRequests + c.maxRequests * (c.window + 2 * d + 1)
    {
      TableIsSeen(map[], c, reqs, key, lo, hi);
      LagLimit(None, c, reqs, key, d, lo, hi);
    }
  }

  // -------------------------------------------------------------- coming back

  // The answer to request i of a run over all keys.
  function Answer(c: Config, reqs: seq<Request>, i: nat): Decision
    requires i < |reqs|
  {
    CheckAll(TableAfter(map[], c, reqs[..i]), c, reqs[i].key, reqs[i].now).1
  }

  // The key's entry when request i comes.
  function EntryAt(c: Config, reqs: seq<Request>, i: nat, key: string): Option<Entry>
    requires i <= |reqs|
  {
    EntryAfter(None, c, reqs[..i], key)
  }

  lemma AnswerIsStep(c: Config, reqs: seq<Request>, i: nat)
    requires i < |reqs|
    ensures Answer(c, reqs, i) == Step(EntryAt(c, reqs, i, reqs[i].key), c, reqs[i].now).1
  {
    TableIsSeen(map[], c, reqs[..i], reqs[i].key, 0, 0);
  }

  lemma EntryNext(c: Config, reqs: seq<Request>, i: nat, key: string)
    requires i < |reqs|
    ensures EntryAt(c, reqs, i + 1, key) == Next(EntryAt(c, reqs, i, key), c, reqs[i], key)
  {
    assert reqs[..i + 1] == reqs[..i] + [reqs[i]];
    EntryConcat(None, c, reqs[..i], reqs[i], key);
  }

  // An entry as it can be at that time.
  predicate EntryOk(e: Option<Entry>, c: Config, now: int) {
    e.Some? ==>
      && e.value.windowStart <= now && e.value.requests <= U32_MAX
      && (e.value.blockedUntil.Some? ==>
            && e.value.requests > c.maxRequests
            && e.value.windowStart + c.block <= e.value.blockedUntil.value <= now + c.block)
  }

  lemma {:induction false} EntryIsOk(c: Config, reqs: seq<Request>, i: nat, key: string)
    requires InOrder(reqs) && i < |reqs| && c.maxRequests <= U32_MAX
    ensures EntryOk(EntryAt(c, reqs, i, key), c, reqs[i].now)
    decreases i
  {
    if i > 0 {
      EntryIsOk(c, reqs, i - 1, key);
      EntryNext(c, reqs, i - 1, key);
      assert reqs[i - 1].now <= reqs[i].now;
    }
  }

  // Request j is the next one of the key of request i.
  predicate NextOfKey(reqs: seq<Request>, i: nat, j: nat) {
    && i < j < |reqs| && reqs[j].key == reqs[i].key
    && forall k :: i < k < j ==> reqs[k].key != reqs[i].key
  }

  lemma {:induction false} EntryStays(c: Config, reqs: seq<Request>, i: nat, k: nat, j: nat)
    requires NextOfKey(reqs, i, j) && i < k <= j
    ensures var e := EntryAt(c, reqs, k, reqs[i].key); e.None? || e == EntryAt(c, reqs, i + 1, reqs[i].key)
    decreases k
  {
    if k > i + 1 {
      EntryStays(c, reqs, i, k - 1, j);
      EntryNext(c, reqs, k - 1, reqs[i].key);
    }
  }

  // A blocked client is told to come back after at least a second and at most the
  // length of a block, rounded up.
  lemma RetryIsBounded(c: Config, reqs: seq<Request>, i: nat)
    requires InOrder(reqs) && i < |reqs| && c.maxRequests <= U32_MAX && Answer(c, reqs, i).Block?
    ensures 1 <= Answer(c, reqs, i).retryAfter <= c.block / SECOND + 1
  {
    AnswerIsStep(c, reqs, i);
    EntryIsOk(c, reqs, i, reqs[i].key);
    EntryNext(c, reqs, i, reqs[i].key);
  }

  // In all runs with stamps in lock order a client that waits as long as it was told
  // is admitted.
  ghost predicate RetryWorks(c: Config) {
    forall reqs, i, j :: InOrder(reqs) && NextOfKey(reqs, i, j) ==> Waited(c, reqs, i, j)
  }

  predicate Waited(c: Config, reqs: seq<Request>, i: nat, j: nat)
    requires i < |reqs| && j < |reqs|
  {
    var d := Answer(c, reqs, i);
    d.Block? && reqs[j].now >= reqs[i].now + d.retryAfter * SECOND ==> Answer(c, reqs, j).Allow?
  }

  // The block lasts as long as the window, or both are over within the second that the
  // wait is rounded up to.
  predicate LongEnough(c: Config) {
    c.window <= c.block || (c.window < SECOND && c.block < SECOND - 1)
  }

  lemma WaitingWorks(c: Config, reqs: seq<Request>, i: nat, j: nat)
    requires 0 < c.maxRequests <= U32_MAX && (c.maxRequests == U32_MAX || LongEnough(c))
    requires InOrder(reqs) && NextOfKey(reqs, i, j)
    ensures Waited(c, reqs, i, j)
  {
    var d, key := Answer(c, reqs, i), reqs[i].key;
    if d.Block? && reqs[j].now >= reqs[i].now + d.retryAfter * SECOND {
      AnswerIsStep(c, reqs, i);
      AnswerIsStep(c, reqs, j);
      EntryIsOk(c, reqs, i, key);
      EntryNext(c, reqs, i, key);
      EntryStays(c, reqs, i, j, j);
      EntryIsOk(c, reqs, j, key);
    }
  }

  // A full limit at one instant.
  lemma {:induction false} Filled(c: Config, n: nat)
    requires n <= c.maxRequests <= U32_MAX
    ensures EntryAfter(None, c, Times(Request("a", 0), n), "a") == if n == 0 then None else Some(Entry(n, 0, None))
    decreases n
  {
    if n > 0 {
      var r := Request("a", 0);
      Filled(c, n - 1);
      assert Times(r, n) == Times(r, n - 1) + [r];
      EntryConcat(None, c, Times(r, n - 1), r, "a");
    }
  }

  // A limit and one more at 0, a request at `t` and one a second after it.
  function Impatient(c: Config, t: nat): seq<Request> {
    Times(Request("a", 0), c.maxRequests) + [Request("a", 0), Request("a", t), Request("a", t + SECOND)]
  }

  lemma ImpatientOrder(c: Config, t: nat)
    ensures var reqs, m := Impatient(c, t), c.maxRequests;
            InOrder(reqs) && NextOfKey(reqs, m, m + 1) && NextOfKey(reqs, m + 1, m + 2)
  {
  }

  lemma ImpatientEntries(c: Config, t: nat)
    requires c.maxRequests < U32_MAX
    ensures var reqs, m := Impatient(c, t), c.maxRequests;
            && EntryAt(c, reqs, m + 1, "a") == Some(Entry(m + 1, 0, Some(c.block)))
            && Answer(c, reqs, m) == Block(RetryAfter(c.block, 0))
  {
    var reqs, m := Impatient(c, t), c.maxRequests;
    assert reqs[m] == Request("a", 0);
    assert EntryAt(c, reqs, m, "a") == if m == 0 then None else Some(Entry(m, 0, None)) by {
      assert reqs[..m] == Times(Request("a", 0), m);
      Filled(c, m);
    }
    EntryNext(c, reqs, m, "a");
    AnswerIsStep(c, reqs, m);
  }

  // The client asks when the block has all but a second to go, and comes a second
  // later, when the block is over and the window is not.
  lemma ShortBlock(c: Config)
    requires 0 < c.maxRequests < U32_MAX && SECOND - 1 <= c.block < c.window
    ensures !RetryWorks(c)
  {
    var m, t := c.maxRequests, c.block - (SECOND - 1);
    var reqs := Impatient(c, t);
    ImpatientOrder(c, t);
    ImpatientEntries(c, t);
    AnswerIsStep(c, reqs, m + 1);
    EntryNext(c, reqs, m + 1, "a");
    AnswerIsStep(c, reqs, m + 2);
    assert !Waited(c, reqs, m + 1, m + 2);
  }

  // With a very short block the client always comes a second later.
  lemma ShortSecond(c: Config)
    requires 0 < c.maxRequests < U32_MAX && c.block < SECOND - 1 && SECOND <= c.window
    ensures !RetryWorks(c)
  {
    var m := c.maxRequests;
    var reqs := Impatient(c, SECOND);
    ImpatientOrder(c, SECOND);
    ImpatientEntries(c, SECOND);
    AnswerIsStep(c, reqs, m + 1);
    assert !Waited(c, reqs, m, m + 1);
  }

  // With a limit of 0 nobody ever gets in.
  lemma NoLimitAtAll(c: Config)
    requires c.maxRequests == 0
    ensures !RetryWorks(c)
  {
    var n := RetryAfter(c.block, 0);
    var reqs := [Request("a", 0), Request("a", n * SECOND)];
    AnswerIsStep(c, reqs, 0);
    EntryNext(c, reqs, 0, "a");
    AnswerIsStep(c, reqs, 1);
    assert NextOfKey(reqs, 0, 1) && !Waited(c, reqs, 0, 1);
  }

  // Waiting as told is enough exactly when the block is long enough and the limit not 0,
  // or nobody is ever blocked.
  lemma RetryWorksExactly(c: Config)
    requires c.maxRequests <= U32_MAX
    ensures RetryWorks(c) <==> c.maxRequests == U32_MAX || (c.maxRequests > 0 && LongEnough(c))
  {
    if c.maxRequests == 0 {
      NoLimitAtAll(c);
    } else if c.maxRequests == U32_MAX || LongEnough(c) {
      forall reqs, i, j | InOrder(reqs) && NextOfKey(reqs, i, j)
        ensures Waited(c, reqs, i, j)
      {
        WaitingWorks(c, reqs, i, j);
      }
    } else if c.block < SECOND - 1 {
      ShortSecond(c);
    } else {
      ShortBlock(c);
    }
  }

  const DEFAULT := Config(true, 120, 60 * SECOND, 300 * SECOND)

  // The shipped settings: at most 239 requests of a client in any minute, and whoever
  // waits as told, for at most 301 seconds, is admitted.
  lemma ShippedSettings(reqs: seq<Request>, key: string, lo: int, i: nat, j: nat)
    requires InOrder(reqs) && NextOfKey(reqs, i, j)
    ensures Admitted(map[], DEFAULT, reqs, key, lo, lo + 60_000_000_000) <= 239
    ensures Waited(DEFAULT, reqs, i, j)
    ensures Answer(DEFAULT, reqs, i).Block? ==> Answer(DEFAULT, reqs, i).retryAfter <= 301
  {
    LimiterBound(DEFAULT, reqs, key, lo, lo + 60_000_000_000);
    WaitingWorks(DEFAULT, reqs, i, j);
    if Answer(DEFAULT, reqs, i).Block? {
      RetryIsBounded(DEFAULT, reqs, i);
    }
  }
}
