/**
 The brute-force guard of the login endpoint (master/src/ratelimit.rs): five
 failures inside a window lock a key out. Times are integers; SECOND of them make
 a second.
 */
module LoginLimit {
  import opened Wrappers

  const SECOND := 1_000_000_000
  const MAX_FAILURES := 5
  const WINDOW := 300 * SECOND
  const LOCKOUT := 900 * SECOND

  datatype Entry = Entry(failures: nat, windowStart: int, lockedUntil: Option<int>)

  type Table = map<string, Entry>

  predicate LockedAt(e: Entry, now: int) {
    e.lockedUntil.Some? && e.lockedUntil.value > now
  }

  // What prune keeps.
  predicate Live(e: Entry, now: int) {
    LockedAt(e, now) || now - e.windowStart <= WINDOW
  }

  function Pruned(entries: Table, now: int): Table {
    map k | k in entries && Live(entries[k], now) :: entries[k]
  }

  function Lookup(entries: Table, key: string): Option<Entry> {
    if key in entries then Some(entries[key]) else None
  }

  // The answer of locked_for: the whole seconds left, and one more.
  function LockedFor(e: Option<Entry>, now: int): Option<nat> {
    if e.Some? && LockedAt(e.value, now) then Some((e.value.lockedUntil.value - now) / SECOND + 1) else None
  }

  // One failure of a key.
  function Failed(e: Option<Entry>, now: int): Entry {
    var entry := e.GetOr(Entry(0, now, None));
    var current :=
      if !LockedAt(entry, now) && now - entry.windowStart > WINDOW then Entry(0, now, None) else entry;
    var counted := current.(failures := current.failures + 1);
    if counted.failures >= MAX_FAILURES then counted.(lockedUntil := Some(now + LOCKOUT)) else counted
  }

  class LoginLimiter {
    var entries: Table

    constructor ()
      ensures entries == map[]
    {
      entries := map[];
    }

    method Locked(key: string, now: int) returns (r: Option<nat>)
      modifies this
      ensures entries == Pruned(old(entries), now)
      ensures r == LockedFor(Lookup(old(entries), key), now)
    {
      entries := Pruned(entries, now);
      if key !in entries {
        return None;
      }
      var until := entries[key].lockedUntil;
      if until.Some? && until.value > now {
        r := Some((until.value - now) / SECOND + 1);
      } else {
        r := None;
      }
    }

    method RecordFailure(key: string, now: int)
      modifies this
      ensures entries == old(entries)[key := Failed(Lookup(old(entries), key), now)]
    {
      var entry := if key in entries then entries[key] else Entry(0, now, None);
      if (entry.lockedUntil.None? || entry.lockedUntil.value <= now) && now - entry.windowStart > WINDOW {
        entry := Entry(0, now, None);
      }
      entry := entry.(failures := entry.failures + 1);
      if entry.failures >= MAX_FAILURES {
        entry := entry.(lockedUntil := Some(now + LOCKOUT));
      }
      entries := entries[key := entry];
    }

    // The key is not locked and its next failure is the first one; other keys keep
    // what they have.
    method RecordSuccess(key: string)
      modifies this
      ensures forall now :: LockedFor(Lookup(entries, key), now).None?
      ensures forall now :: Failed(Lookup(entries, key), now) == Entry(1, now, None)
      ensures forall other :: other != key ==> Lookup(entries, other) == Lookup(old(entries), other)
    {
      entries := entries - {key};
    }
  }

  // ------------------------------------------------------------ pruning is mute

  datatype Op = Query(key: string, now: int) | Failure(key: string, now: int) | Success(key: string, now: int)

  function After(prunes: bool, entries: Table, op: Op): Table {
    match op
    case Query(_, now) => if prunes then Pruned(entries, now) else entries
    case Failure(key, now) => entries[key := Failed(Lookup(entries, key), now)]
    case Success(key, _) => entries - {key}
  }

  // The answers to the queries of a run.
  function Answers(prunes: bool, entries: Table, ops: seq<Op>): seq<Option<nat>>
    decreases |ops|
  {
    if ops == [] then []
    else
      (if ops[0].Query? then [LockedFor(Lookup(entries, ops[0].key), ops[0].now)] else [])
      + Answers(prunes, After(prunes, entries, ops[0]), ops[1..])
  }

  function Max(a: int, b: int): int {
    if a > b then a else b
  }

  // Ops in the order in which they get the lock, after one stamped `clock`. A query
  // reads its stamp under the lock; that of a failure is read before, and may lag.
  predicate Lagging(ops: seq<Op>, clock: int, lag: nat)
    decreases |ops|
  {
    ops == [] ||
    (ops[0].now >= clock - (if ops[0].Failure? then lag else 0) && Lagging(ops[1..], Max(clock, ops[0].now), lag))
  }

  // The tables differ only in entries that are over.
  ghost predicate Alike(pruned: Table, full: Table, now: int) {
    forall k :: Lookup(pruned, k) == Lookup(full, k) || (k !in pruned && !Live(full[k], now))
  }

  lemma AlikeStays(pruned: Table, full: Table, op: Op, before: int)
    requires Alike(pruned, full, before) && before <= op.now
    ensures LockedFor(Lookup(pruned, op.key), op.now) == LockedFor(Lookup(full, op.key), op.now)
    ensures Alike(After(true, pruned, op), After(false, full, op), op.now)
  {
    var pruned', full' := After(true, pruned, op), After(false, full, op);
    forall k
      ensures Lookup(pruned', k) == Lookup(full', k) || (k !in pruned' && !Live(full'[k], op.now))
    {
      assert Lookup(pruned, k) == Lookup(full, k) || (k !in pruned && !Live(full[k], before));
    }
  }

  // Without lag a limiter that prunes answers every query like one that keeps its
  // entries for good.
  lemma {:induction false} PruningIsInvisible(pruned: Table, full: Table, ops: seq<Op>, clock: int)
    requires Alike(pruned, full, clock) && Lagging(ops, clock, 0)
    ensures Answers(true, pruned, ops) == Answers(false, full, ops)
    decreases |ops|
  {
    if ops != [] {
      AlikeStays(pruned, full, ops[0], clock);
      PruningIsInvisible(After(true, pruned, ops[0]), After(false, full, ops[0]), ops[1..], Max(clock, ops[0].now));
    }
  }

  ghost predicate PrunesInvisibly(lag: nat) {
    forall ops, clock :: Lagging(ops, clock, lag) ==> Answers(true, map[], ops) == Answers(false, map[], ops)
  }

  function Times<T>(x: T, n: nat): seq<T> {
    seq(n, _ => x)
  }

  lemma OneFailure(prunes: bool, f: nat, start: int, now: int)
    requires f + 1 < MAX_FAILURES && now - start <= WINDOW
    ensures After(prunes, map["a" := Entry(f, start, None)], Failure("a", now)) == map["a" := Entry(f + 1, start, None)]
  {
  }

  // Failures of one key inside a window, short of a lock.
  lemma {:induction false} FailuresAddUp(prunes: bool, f: nat, start: int, now: int, n: nat, rest: seq<Op>)
    requires f + n < MAX_FAILURES && now - start <= WINDOW
    ensures Answers(prunes, map["a" := Entry(f, start, None)], Times(Failure("a", now), n) + rest)
         == Answers(prunes, map["a" := Entry(f + n, start, None)], rest)
    ensures TableAfter(prunes, map["a" := Entry(f, start, None)], Times(Failure("a", now), n) + rest)
         == TableAfter(prunes, map["a" := Entry(f + n, start, None)], rest)
    decreases n
  {
    var ops := Times(Failure("a", now), n) + rest;
    if n == 0 {
      assert ops == rest;
    } else {
      assert ops[1..] == Times(Failure("a", now), n - 1) + rest;
      OneFailure(prunes, f, start, now);
      FailuresAddUp(prunes, f + 1, start, now, n - 1, rest);
    }
  }

  lemma {:induction false} LaggingTimes(now: int, n: nat, rest: seq<Op>, clock: int, lag: nat)
    requires clock - lag <= now <= clock && Lagging(rest, clock, lag)
    ensures Lagging(Times(Failure("a", now), n) + rest, clock, lag)
    ensures ClockAfter(clock, Times(Failure("a", now), n) + rest) == ClockAfter(clock, rest)
    decreases n
  {
    var ops := Times(Failure("a", now), n) + rest;
    if n == 0 {
      assert ops == rest;
    } else {
      assert ops[1..] == Times(Failure("a", now), n - 1) + rest;
      LaggingTimes(now, n - 1, rest, clock, lag);
    }
  }

  const OVERTAKEN: seq<Op> := [Query("b", WINDOW + 1), Failure("a", WINDOW), Query("a", WINDOW + 1)]

  // A query of another key drops four failures of "a" that a fifth one, stamped
  // before the query, would have joined.
  function LateFifth(): seq<Op> {
    [Failure("a", 0)] + (Times(Failure("a", 0), 3) + OVERTAKEN)
  }

  lemma LateFifthIsLost()
    ensures Answers(true, map[], LateFifth()) != Answers(false, map[], LateFifth())
  {
    assert LateFifth()[1..] == Times(Failure("a", 0), 3) + OVERTAKEN;
    FailuresAddUp(true, 1, 0, 0, 3, OVERTAKEN);
    FailuresAddUp(false, 1, 0, 0, 3, OVERTAKEN);
    OvertakenAnswers();
  }

  lemma OvertakenAnswers()
    ensures Answers(true, map["a" := Entry(4, 0, None)], OVERTAKEN) == [None, None]
    ensures Answers(false, map["a" := Entry(4, 0, None)], OVERTAKEN) == [None, Some(900)]
  {
    var four, one := map["a" := Entry(4, 0, None)], map["a" := Entry(1, WINDOW, None)];
    var five := map["a" := Entry(5, 0, Some(WINDOW + LOCKOUT))];
    var last := [Query("a", WINDOW + 1)];
    assert OVERTAKEN[1..] == [Failure("a", WINDOW)] + last && ([Failure("a", WINDOW)] + last)[1..] == last;
    assert After(true, four, OVERTAKEN[0]) == map[];
    assert After(true, map[], Failure("a", WINDOW)) == one;
    assert After(false, four, Failure("a", WINDOW)) == five;
    assert Answers(true, one, last) == [None] + Answers(true, After(true, one, last[0]), []);
    assert Answers(false, five, last) == [Some(900)] + Answers(false, five, []);
    assert Answers(true, map[], OVERTAKEN[1..]) == [] + Answers(true, one, last);
    assert Answers(false, four, OVERTAKEN[1..]) == [] + Answers(false, five, last);
  }

  lemma LateFifthLags(lag: nat)
    requires lag > 0
    ensures Lagging(LateFifth(), 0, lag)
  {
    var last := [Query("a", WINDOW + 1)];
    var fifth := [Failure("a", WINDOW)] + last;
    assert last[1..] == [] && fifth[1..] == last && OVERTAKEN[1..] == fifth;
    assert Lagging(last, WINDOW + 1, lag);
    assert Lagging(fifth, WINDOW + 1, lag);
    assert Lagging(OVERTAKEN, 0, lag);
    LaggingTimes(0, 3, OVERTAKEN, 0, lag);
    assert LateFifth()[1..] == Times(Failure("a", 0), 3) + OVERTAKEN;
  }

  // Pruning is invisible exactly when no failure's stamp lags.
  lemma InvisibleExactly(lag: nat)
    ensures PrunesInvisibly(lag) <==> lag == 0
  {
    if lag == 0 {
      forall ops, clock | Lagging(ops, clock, 0)
        ensures Answers(true, map[], ops) == Answers(false, map[], ops)
      {
        PruningIsInvisible(map[], map[], ops, clock);
      }
    } else {
      LateFifthIsLost();
      LateFifthLags(lag);
    }
  }

  // ------------------------------------------------------- locks outlive windows

  predicate EntryInv(e: Entry) {
    e.failures >= 1 && (e.failures >= MAX_FAILURES <==> e.lockedUntil.Some?)
  }

  ghost predicate TableInv(entries: Table, clock: int, lag: nat) {
    forall k :: k in entries ==>
      && EntryInv(entries[k]) && entries[k].windowStart <= clock
      && (entries[k].lockedUntil.Some? ==> entries[k].lockedUntil.value >= entries[k].windowStart + LOCKOUT - lag)
  }

  function TableAfter(prunes: bool, entries: Table, ops: seq<Op>): Table
    decreases |ops|
  {
    if ops == [] then entries else TableAfter(prunes, After(prunes, entries, ops[0]), ops[1..])
  }

  function ClockAfter(clock: int, ops: seq<Op>): int
    decreases |ops|
  {
    if ops == [] then clock else ClockAfter(Max(clock, ops[0].now), ops[1..])
  }

  lemma {:induction false} RunKeepsTableInv(prunes: bool, entries: Table, ops: seq<Op>, clock: int, lag: nat)
    requires TableInv(entries, clock, lag) && Lagging(ops, clock, lag)
    ensures TableInv(TableAfter(prunes, entries, ops), ClockAfter(clock, ops), lag)
    decreases |ops|
  {
    if ops != [] {
      RunKeepsTableInv(prunes, After(prunes, entries, ops[0]), ops[1..], Max(clock, ops[0].now), lag);
    }
  }

  // In all runs with such a lag, a lock that has ended has outlived its window, so
  // that the next failure starts a new count.
  ghost predicate LocksOutliveWindows(prunes: bool, lag: nat) {
    forall ops, clock, key, now ::
      var m := TableAfter(prunes, map[], ops);
      Lagging(ops, clock, lag) && ClockAfter(clock, ops) <= now
      && key in m && m[key].lockedUntil.Some? && m[key].lockedUntil.value <= now ==>
        Failed(Some(m[key]), now) == Entry(1, now, None)
  }

  // Four failures stamped as far back as the lag allows lock a window that has not
  // ended when the lock has.
  lemma EarlyUnlock(prunes: bool, lag: nat)
    requires lag >= LOCKOUT - WINDOW
    ensures !LocksOutliveWindows(prunes, lag)
  {
    var t := LOCKOUT - WINDOW;
    var f := Failure("a", 0);
    var ops := [Failure("a", t)] + (Times(f, 3) + [f]);
    assert ops[1..] == Times(f, 3) + [f];
    LaggingTimes(0, 3, [f], t, lag);
    assert Lagging(ops, t, lag) && ClockAfter(t, ops) == t;
    FailuresAddUp(prunes, 1, t, 0, 3, [f]);
    var e := Entry(5, t, Some(LOCKOUT));
    assert After(prunes, map["a" := Entry(4, t, None)], f) == map["a" := e];
    assert TableAfter(prunes, map["a" := Entry(4, t, None)], [f]) == map["a" := e];
    assert TableAfter(prunes, map[], ops) == map["a" := e];
    assert Failed(Some(e), LOCKOUT) != Entry(1, LOCKOUT, None);
  }

  // A lock outlives its window exactly when stamps lag by less than it is longer.
  lemma OutliveExactly(prunes: bool, lag: nat)
    ensures LocksOutliveWindows(prunes, lag) <==> lag < 600_000_000_000
  {
    if lag < LOCKOUT - WINDOW {
      forall ops, clock | Lagging(ops, clock, lag)
        ensures TableInv(TableAfter(prunes, map[], ops), ClockAfter(clock, ops), lag)
      {
        RunKeepsTableInv(prunes, map[], ops, clock, lag);
      }
    } else {
      EarlyUnlock(prunes, lag);
    }
  }

  // ------------------------------------------------------------------- one key

  // The answers to the queries of one key.
  function AnswersTo(entries: Table, ops: seq<Op>, key: string): seq<Option<nat>>
    decreases |ops|
  {
    if ops == [] then []
    else
      (if ops[0].Query? && ops[0].key == key then [LockedFor(Lookup(entries, key), ops[0].now)] else [])
      + AnswersTo(After(true, entries, ops[0]), ops[1..], key)
  }

  lemma {:induction false} OnlyOwnEntry(a: Table, b: Table, ops: seq<Op>, key: string)
    requires Lookup(a, key) == Lookup(b, key)
    ensures AnswersTo(a, ops, key) == AnswersTo(b, ops, key)
    decreases |ops|
  {
    if ops != [] {
      OnlyOwnEntry(After(true, a, ops[0]), After(true, b, ops[0]), ops[1..], key);
    }
  }

  // A success wipes the slate: whatever came before, the key is answered from
  // then on like on a limiter that never heard of it or of anyone.
  lemma SuccessStartsOver(entries: Table, key: string, now: int, ops: seq<Op>)
    ensures AnswersTo(After(true, entries, Success(key, now)), ops, key) == AnswersTo(map[], ops, key)
  {
    OnlyOwnEntry(After(true, entries, Success(key, now)), map[], ops, key);
  }

  // The entry after failures at these times.
  function FailedAll(e: Option<Entry>, times: seq<int>): Option<Entry> {
    if times == [] then e else Some(Failed(FailedAll(e, times[..|times| - 1]), times[|times| - 1]))
  }

  // Failures in order, all of them within five minutes.
  predicate InFiveMinutes(times: seq<int>) {
    && (forall i, j :: 0 <= i < j < |times| ==> times[i] <= times[j])
    && (forall i :: 0 <= i < |times| ==> times[i] <= times[0] + 300_000_000_000)
  }

  lemma {:induction false} FailuresCount(times: seq<int>)
    requires 0 < |times| <= 5 && InFiveMinutes(times)
    ensures FailedAll(None, times) ==
            Some(Entry(|times|, times[0], if |times| < 5 then None else Some(times[4] + LOCKOUT)))
  {
    var init := times[..|times| - 1];
    if init == [] {
      assert FailedAll(None, init) == None;
    } else {
      FailuresCount(init);
    }
  }

  // A new key is locked by its fifth failure within five minutes and by none before it,
  // for a quarter of an hour, and is told the seconds left, rounded up.
  lemma FifthFailureLocks(times: seq<int>, now: int)
    requires 0 < |times| <= 5 && InFiveMinutes(times)
    ensures var told := LockedFor(FailedAll(None, times), now);
            && (told.Some? <==> |times| == 5 && now < times[4] + 900_000_000_000)
            && (told.Some? ==>
                  var left := times[4] + 900_000_000_000 - now;
                  (told.value - 1) * 1_000_000_000 <= left < told.value * 1_000_000_000)
  {
    FailuresCount(times);
  }

  lemma {:induction false} EntryStays(entries: Table, key: string, ops: seq<Op>)
    requires forall i :: 0 <= i < |ops| ==> ops[i].key != key || !ops[i].Failure?
    ensures var e := Lookup(TableAfter(true, entries, ops), key); e.None? || e == Lookup(entries, key)
    decreases |ops|
  {
    if ops != [] {
      EntryStays(After(true, entries, ops[0]), key, ops[1..]);
    }
  }

  // Whoever waits as long as they were told, without failing again, is not locked out.
  lemma WaitIsEnough(entries: Table, key: string, now: int, ops: seq<Op>, later: int)
    requires LockedFor(Lookup(entries, key), now).Some?
    requires later >= now + LockedFor(Lookup(entries, key), now).value * 1_000_000_000
    requires forall i :: 0 <= i < |ops| ==> ops[i].key != key || !ops[i].Failure?
    ensures LockedFor(Lookup(TableAfter(true, entries, ops), key), later).None?
  {
    EntryStays(entries, key, ops);
  }

  // ----------------------------------------------------------- attempts in flight

  // The login handler checks the key first and, after the slow password test,
  // records a failure or a success, or leaves with an error. In between the attempt
  // is in flight, and other attempts go on. `i` is its place among those in flight.
  datatype Event =
    | Check(key: string, now: int)
    | Record(key: string, now: int, i: nat)
    | Succeed(key: string, now: int, i: nat)
    | Leave(key: string, now: int, i: nat)

  // `flying` holds, for each key, when the attempts in flight were checked; `clock`
  // is the latest stamp so far.
  datatype World = World(entries: Table, flying: map<string, seq<int>>, clock: int)

  function Initial(start: int): World {
    World(map[], map[], start)
  }

  function Flying(w: World, key: string): seq<int> {
    if key in w.flying then w.flying[key] else []
  }

  predicate Passes(e: Option<Entry>, now: int) {
    LockedFor(e, now).None?
  }

  // A failure is stamped after its own check and before it gets the lock, so that
  // the stamp may lag behind the clock; all other times are read under the lock.
  predicate Timely(e: Event, flying: seq<int>, clock: int, lag: nat) {
    match e
    case Check(_, now) => now >= clock
    case Record(_, now, i) => i < |flying| && now >= flying[i] && now >= clock - lag
    case Succeed(_, now, i) => i < |flying| && now >= clock
    case Leave(_, now, i) => i < |flying| && now >= clock
  }

  function Removed(s: seq<int>, i: nat): seq<int>
    requires i < |s|
  {
    s[..i] + s[i + 1..]
  }

  function Next(w: World, e: Event): World
    requires !e.Check? ==> e.i < |Flying(w, e.key)|
  {
    var flying, clock := Flying(w, e.key), Max(w.clock, e.now);
    match e
    case Check(key, now) =>
      World(After(true, w.entries, Query(key, now)),
            if Passes(Lookup(w.entries, key), now) then w.flying[key := flying + [now]] else w.flying, clock)
    case Record(key, now, i) =>
      World(After(true, w.entries, Failure(key, now)), w.flying[key := Removed(flying, i)], clock)
    case Succeed(key, now, i) =>
      World(After(true, w.entries, Success(key, now)), w.flying[key := Removed(flying, i)], clock)
    case Leave(key, _, i) => World(w.entries, w.flying[key := Removed(flying, i)], clock)
  }

  // A run in which at most `most` attempts of the key are in flight at any time.
  predicate IsRun(w: World, events: seq<Event>, key: string, most: nat, lag: nat)
    decreases |events|
  {
    && |Flying(w, key)| <= most
    && (events == [] ||
        (&& Timely(events[0], Flying(w, events[0].key), w.clock, lag)
         && IsRun(Next(w, events[0]), events[1..], key, most, lag)))
  }

  predicate NoSuccess(events: seq<Event>, key: string) {
    forall i :: 0 <= i < |events| && events[i].key == key ==> !events[i].Succeed?
  }

  predicate Counts(e: Event, key: string, lo: int, hi: int) {
    e.Record? && e.key == key && lo <= e.now <= hi
  }

  // The failures of the key stamped inside [lo, hi].
  function Failures(events: seq<Event>, key: string, lo: int, hi: int): nat {
    if events == [] then 0 else (if Counts(events[0], key, lo, hi) then 1 else 0) + Failures(events[1..], key, lo, hi)
  }

  // --------------------------------------------------------------- one key's view

  datatype View = View(entry: Option<Entry>, flying: seq<int>, clock: int)

  function ViewOf(w: World, key: string): View {
    View(Lookup(w.entries, key), Flying(w, key), w.clock)
  }

  function Kept(e: Option<Entry>, now: int): Option<Entry> {
    if e.Some? && !Live(e.value, now) then None else e
  }

  // An event of another key matters only by its time and, as a check, by pruning.
  predicate Fits(v: View, e: Event, key: string, lag: nat) {
    if e.key == key then Timely(e, v.flying, v.clock, lag) else e.now >= v.clock - (if e.Record? then lag else 0)
  }

  function Onward(v: View, e: Event, key: string): View
    requires e.key == key && !e.Check? ==> e.i < |v.flying|
  {
    var clock := Max(v.clock, e.now);
    if e.key != key then View(if e.Check? then Kept(v.entry, e.now) else v.entry, v.flying, clock)
    else
      match e
      case Check(_, now) =>
        View(Kept(v.entry, now), if Passes(v.entry, now) then v.flying + [now] else v.flying, clock)
      case Record(_, now, i) => View(Some(Failed(v.entry, now)), Removed(v.flying, i), clock)
      case Succeed(_, _, i) => View(None, Removed(v.flying, i), clock)
      case Leave(_, _, i) => View(v.entry, Removed(v.flying, i), clock)
  }

  predicate OwnRun(v: View, events: seq<Event>, key: string, most: nat, lag: nat)
    decreases |events|
  {
    && |v.flying| <= most
    && (events == [] ||
        (Fits(v, events[0], key, lag) && OwnRun(Onward(v, events[0], key), events[1..], key, most, lag)))
  }

  lemma ViewNext(w: World, e: Event, key: string)
    requires !e.Check? ==> e.i < |Flying(w, e.key)|
    ensures ViewOf(Next(w, e), key) == Onward(ViewOf(w, key), e, key)
  {
  }

  // In a run over all keys each key has a run of its own.
  lemma {:induction false} KeyIsAlone(w: World, events: seq<Event>, key: string, most: nat, lag: nat)
    requires IsRun(w, events, key, most, lag)
    ensures OwnRun(ViewOf(w, key), events, key, most, lag)
    decreases |events|
  {
    if events != [] {
      ViewNext(w, events[0], key);
      KeyIsAlone(Next(w, events[0]), events[1..], key, most, lag);
    }
  }

  // And such a run is a run, if the other keys only check.
  lemma {:induction false} OwnRunIsRun(w: World, events: seq<Event>, key: string, most: nat, lag: nat)
    requires OwnRun(ViewOf(w, key), events, key, most, lag)
    requires forall i :: 0 <= i < |events| ==> events[i].key == key || events[i].Check?
    ensures IsRun(w, events, key, most, lag)
    decreases |events|
  {
    if events != [] {
      ViewNext(w, events[0], key);
      OwnRunIsRun(Next(w, events[0]), events[1..], key, most, lag);
    }
  }

  // ---------------------------------------------------------------------- bound

  // The attempts in flight that can still fail by `hi`.
  function Early(flying: seq<int>, hi: int): (n: nat)
    ensures n <= |flying|
  {
    if flying == [] then 0
    else (if flying[|flying| - 1] <= hi then 1 else 0) + Early(flying[..|flying| - 1], hi)
  }

  lemma {:induction false} EarlyConcat(a: seq<int>, b: seq<int>, hi: int)
    ensures Early(a + b, hi) == Early(a, hi) + Early(b, hi)
  {
    if b == [] {
      assert a + b == a;
    } else {
      assert (a + b)[..|a + b| - 1] == a + b[..|b| - 1];
      EarlyConcat(a, b[..|b| - 1], hi);
    }
  }

  lemma EarlyRemoved(s: seq<int>, i: nat, hi: int)
    requires i < |s|
    ensures Early(s, hi) == Early(Removed(s, i), hi) + if s[i] <= hi then 1 else 0
  {
    assert s == s[..i] + ([s[i]] + s[i + 1..]);
    EarlyConcat(s[..i], [s[i]] + s[i + 1..], hi);
    EarlyConcat([s[i]], s[i + 1..], hi);
    EarlyConcat(s[..i], s[i + 1..], hi);
    assert Early([s[i]], hi) == if s[i] <= hi then 1 else 0;
  }

  // How many more failures can be stamped in the interval once one was: those in
  // flight when no check can pass any more, and else what the windows have room for.
  function Room(v: View, most: nat, lo: int, hi: int): int {
    if v.clock > hi || (v.entry.Some? && LockedAt(v.entry.value, hi)) then Early(v.flying, hi)
    else if v.entry.None? || v.entry.value.failures >= MAX_FAILURES then MAX_FAILURES - 1 + most
    else
      (if v.entry.value.windowStart >= lo then MAX_FAILURES - 1 else 2 * MAX_FAILURES - 2)
      - v.entry.value.failures + most
  }

  // From now on no failure stamped before the interval can start a window: all
  // attempts in flight were checked inside it, or stamps lag too little for that.
  predicate Inside(v: View, lo: int, lag: nat) {
    && v.clock >= lo
    && ((forall i :: 0 <= i < |v.flying| ==> v.flying[i] >= lo)
        || (lag <= 1 && (v.clock > lo || (v.entry.Some? && Live(v.entry.value, lo)))))
  }

  predicate ViewOk(v: View, most: nat) {
    |v.flying| <= most && (v.entry.Some? ==> EntryInv(v.entry.value))
  }

  lemma InsideStays(v: View, e: Event, key: string, lo: int, lag: nat)
    requires Inside(v, lo, lag) && Fits(v, e, key, lag) && (v.entry.Some? ==> EntryInv(v.entry.value))
    requires !(e.key == key && e.Succeed?)
    ensures Inside(Onward(v, e, key), lo, lag)
  {
  }

  lemma RoomForRecord(v: View, e: Event, key: string, most: nat, lag: nat, lo: int, hi: int)
    requires Inside(v, lo, lag) && ViewOk(v, most) && hi <= lo + WINDOW
    requires e.Record? && e.key == key && Fits(v, e, key, lag)
    ensures (if Counts(e, key, lo, hi) then 1 else 0) + Room(Onward(v, e, key), most, lo, hi) <= Room(v, most, lo, hi)
  {
    EarlyRemoved(v.flying, e.i, hi);
  }

  lemma RoomForOther(v: View, e: Event, key: string, most: nat, lag: nat, lo: int, hi: int)
    requires Inside(v, lo, lag) && ViewOk(v, most) && hi <= lo + WINDOW
    requires Fits(v, e, key, lag) && !(e.key == key && (e.Record? || e.Succeed?)) && ViewOk(Onward(v, e, key), most)
    ensures Room(Onward(v, e, key), most, lo, hi) <= Room(v, most, lo, hi)
  {
    if e.key == key && e.Leave? {
      EarlyRemoved(v.flying, e.i, hi);
    } else if e.key == key {
      EarlyConcat(v.flying, [e.now], hi);
    }
  }

  lemma {:induction false} RoomIsEnough(v: View, events: seq<Event>, key: string, most: nat, lag: nat, lo: int, hi: int)
    requires Inside(v, lo, lag) && ViewOk(v, most) && hi <= lo + WINDOW
    requires OwnRun(v, events, key, most, lag) && NoSuccess(events, key)
    ensures Failures(events, key, lo, hi) <= Room(v, most, lo, hi)
    decreases |events|
  {
    if events != [] {
      var e, v' := events[0], Onward(v, events[0], key);
      InsideStays(v, e, key, lo, lag);
      assert ViewOk(v', most);
      RoomIsEnough(v', events[1..], key, most, lag, lo, hi);
      if e.Record? && e.key == key {
        RoomForRecord(v, e, key, most, lag, lo, hi);
      } else {
        RoomForOther(v, e, key, most, lag, lo, hi);
      }
    }
  }

  // The most failures of a key in 300 seconds with so many attempts in flight.
  function MostFailures(most: nat): nat {
    if most == 0 then 0 else 2 * MAX_FAILURES - 3 + most
  }

  // After the first one in the interval.
  lemma FirstFailure(v: View, e: Event, key: string, most: nat, lag: nat, lo: int, hi: int)
    requires ViewOk(v, most) && Fits(v, e, key, lag) && Counts(e, key, lo, hi) && hi <= lo + WINDOW
    requires most <= 1 || lag <= 1
    ensures Inside(Onward(v, e, key), lo, lag)
    ensures 1 + Room(Onward(v, e, key), most, lo, hi) <= MostFailures(most)
  {
  }

  lemma {:induction false} FailureBound(v: View, events: seq<Event>, key: string, most: nat, lag: nat, lo: int, hi: int)
    requires ViewOk(v, most) && hi <= lo + WINDOW && (most <= 1 || lag <= 1)
    requires OwnRun(v, events, key, most, lag) && NoSuccess(events, key)
    ensures Failures(events, key, lo, hi) <= MostFailures(most)
    decreases |events|
  {
    if events != [] {
      var e, v' := events[0], Onward(v, events[0], key);
      assert ViewOk(v', most);
      if Counts(e, key, lo, hi) {
        FirstFailure(v, e, key, most, lag, lo, hi);
        RoomIsEnough(v', events[1..], key, most, lag, lo, hi);
      } else {
        FailureBound(v', events[1..], key, most, lag, lo, hi);
      }
    }
  }

  // In every run over all keys: with at most `most` attempts of a key in flight and
  // no success, any 300-second interval holds at most 7 + `most` failures of it. Stamps
  // may lag by any amount if attempts come one at a time, and else by a tick.
  lemma LoginBound(start: int, events: seq<Event>, key: string, most: nat, lag: nat, lo: int, hi: int)
    requires IsRun(Initial(start), events, key, most, lag) && NoSuccess(events, key)
    requires hi <= lo + 300_000_000_000 && (most <= 1 || lag <= 1)
    ensures Failures(events, key, lo, hi) <= if most == 0 then 0 else 7 + most
  {
    KeyIsAlone(Initial(start), events, key, most, lag);
    FailureBound(ViewOf(Initial(start), key), events, key, most, lag, lo, hi);
  }

  // ------------------------------------------------------------------ tightness

  // An attempt of its own, next to `n` others in flight.
  function Alone(key: string, now: int, n: nat): seq<Event> {
    [Check(key, now), Record(key, now, n)]
  }

  function Repeated(events: seq<Event>, n: nat): seq<Event> {
    if n == 0 then [] else events + Repeated(events, n - 1)
  }

  // Attempts that are all checked before the first one fails.
  function Burst(key: string, now: int, n: nat): seq<Event> {
    Times(Check(key, now), n) + Times(Record(key, now, 0), n)
  }

  // Four failures one after the other that start a window, and then a burst.
  function Ending(key: string, now: int, most: nat): seq<Event> {
    Alone(key, now, 0) + (Repeated(Alone(key, now, 0), 3) + Burst(key, now, most))
  }

  // One failure opens a window, three come at its end, and then the ending.
  function Busiest(key: string, most: nat): seq<Event> {
    Alone(key, 0, 0) + (Repeated(Alone(key, WINDOW, 0), 3) + Ending(key, WINDOW + 1, most))
  }

  lemma AloneRun(v: View, key: string, now: int, rest: seq<Event>, most: nat, lag: nat)
    requires |v.flying| < most && v.clock <= now && Passes(v.entry, now)
    requires OwnRun(View(Some(Failed(Kept(v.entry, now), now)), v.flying, now), rest, key, most, lag)
    ensures OwnRun(v, Alone(key, now, |v.flying|) + rest, key, most, lag)
  {
    var n := |v.flying|;
    var v1 := Onward(v, Check(key, now), key);
    assert (Alone(key, now, n) + rest)[1..] == [Record(key, now, n)] + rest;
    assert ([Record(key, now, n)] + rest)[1..] == rest;
    assert Removed(v1.flying, n) == v.flying;
    assert OwnRun(v1, [Record(key, now, n)] + rest, key, most, lag);
  }

  lemma {:induction false} RepeatedRun(f: nat, start: int, flying: seq<int>, clock: int, key: string, now: int, n: nat,
                                       rest: seq<Event>, most: nat, lag: nat)
    requires f + n < MAX_FAILURES && now - start <= WINDOW && clock <= now && |flying| < most && n > 0
    requires OwnRun(View(Some(Entry(f + n, start, None)), flying, now), rest, key, most, lag)
    ensures OwnRun(View(Some(Entry(f, start, None)), flying, clock),
                   Repeated(Alone(key, now, |flying|), n) + rest, key, most, lag)
    decreases n
  {
    var more := Repeated(Alone(key, now, |flying|), n - 1) + rest;
    var e := Some(Entry(f, start, None));
    if n == 1 {
      assert more == rest;
    } else {
      RepeatedRun(f + 1, start, flying, now, key, now, n - 1, rest, most, lag);
    }
    assert Failed(Kept(e, now), now) == Entry(f + 1, start, None);
    RepeatedUnfolds(Alone(key, now, |flying|), n, rest);
    AloneRun(View(e, flying, clock), key, now, more, most, lag);
  }

  lemma RepeatedUnfolds(events: seq<Event>, n: nat, rest: seq<Event>)
    requires n > 0
    ensures Repeated(events, n) + rest == events + (Repeated(events, n - 1) + rest)
  {
  }

  lemma {:induction false} ChecksRun(e: Entry, flying: seq<int>, key: string, now: int, n: nat, rest: seq<Event>,
                                     most: nat, lag: nat)
    requires Passes(Some(e), now) && Live(e, now) && |flying| + n <= most
    requires OwnRun(View(Some(e), flying + Times(now, n), now), rest, key, most, lag)
    ensures OwnRun(View(Some(e), flying, now), Times(Check(key, now), n) + rest, key, most, lag)
    decreases n
  {
    var events := Times(Check(key, now), n) + rest;
    if n == 0 {
      assert events == rest && flying + Times(now, n) == flying;
    } else {
      assert events[1..] == Times(Check(key, now), n - 1) + rest;
      assert flying + [now] + Times(now, n - 1) == flying + Times(now, n);
      ChecksRun(e, flying + [now], key, now, n - 1, rest, most, lag);
    }
  }

  lemma {:induction false} RecordsRun(e: Entry, key: string, now: int, n: nat, most: nat, lag: nat)
    requires n <= most
    ensures OwnRun(View(Some(e), Times(now, n), now), Times(Record(key, now, 0), n), key, most, lag)
    decreases n
  {
    if n > 0 {
      assert Times(Record(key, now, 0), n)[1..] == Times(Record(key, now, 0), n - 1);
      assert Removed(Times(now, n), 0) == Times(now, n - 1);
      RecordsRun(Failed(Some(e), now), key, now, n - 1, most, lag);
    }
  }

  // The ending runs from a window that is over.
  lemma EndingRun(start: int, clock: int, key: string, now: int, most: nat, lag: nat)
    requires most > 0 && clock <= now && now - start > WINDOW
    ensures OwnRun(View(Some(Entry(4, start, None)), [], clock), Ending(key, now, most), key, most, lag)
  {
    RecordsRun(Entry(4, now, None), key, now, most, most, lag);
    assert [] + Times(now, most) == Times(now, most);
    ChecksRun(Entry(4, now, None), [], key, now, most, Times(Record(key, now, 0), most), most, lag);
    RepeatedRun(1, now, [], now, key, now, 3, Burst(key, now, most), most, lag);
    AloneRun(View(Some(Entry(4, start, None)), [], clock), key, now,
             Repeated(Alone(key, now, 0), 3) + Burst(key, now, most), most, lag);
  }

  lemma BusiestRun(key: string, most: nat, lag: nat)
    requires most > 0
    ensures OwnRun(View(None, [], 0), Busiest(key, most), key, most, lag)
  {
    var ending := Ending(key, WINDOW + 1, most);
    EndingRun(0, WINDOW, key, WINDOW + 1, most, lag);
    RepeatedRun(1, 0, [], 0, key, WINDOW, 3, ending, most, lag);
    AloneRun(View(None, [], 0), key, 0, Repeated(Alone(key, WINDOW, 0), 3) + ending, most, lag);
  }

  // ---------------------------------------------------------------- stale windows

  // A failure checked and stamped just before the interval is recorded after another
  // key's check has dropped the window: it starts one more window, which gives room for
  // three more failures.
  function Stale(key: string, other: string, most: nat): seq<Event> {
    Alone(key, 0, 0)
    + ([Check(key, WINDOW - 1)]
       + (Repeated(Alone(key, WINDOW, 1), 3)
          + ([Check(other, WINDOW + 1), Record(key, WINDOW - 1, 0)]
             + (Repeated(Alone(key, WINDOW + 1, 0), 3) + Ending(key, 2 * WINDOW, most)))))
  }

  lemma StaleMiddle(key: string, other: string, rest: seq<Event>, most: nat, lag: nat)
    requires most >= 2 && lag >= 2 && other != key
    requires OwnRun(View(Some(Entry(1, WINDOW - 1, None)), [], WINDOW + 1), rest, key, most, lag)
    ensures OwnRun(View(Some(Entry(4, 0, None)), [WINDOW - 1], WINDOW),
                   [Check(other, WINDOW + 1), Record(key, WINDOW - 1, 0)] + rest, key, most, lag)
  {
    var record := [Record(key, WINDOW - 1, 0)] + rest;
    assert ([Check(other, WINDOW + 1), Record(key, WINDOW - 1, 0)] + rest)[1..] == record;
    assert record[1..] == rest;
    var v := View(None, [WINDOW - 1], WINDOW + 1);
    assert Removed([WINDOW - 1], 0) == [];
    assert OwnRun(v, record, key, most, lag);
  }

  lemma StaleOpens(key: string, rest: seq<Event>, most: nat, lag: nat)
    requires most >= 2
    requires OwnRun(View(Some(Entry(1, 0, None)), [WINDOW - 1], WINDOW - 1), rest, key, most, lag)
    ensures OwnRun(View(Some(Entry(1, 0, None)), [], 0), [Check(key, WINDOW - 1)] + rest, key, most, lag)
  {
    assert ([Check(key, WINDOW - 1)] + rest)[1..] == rest;
    assert [] + [WINDOW - 1] == [WINDOW - 1];
  }

  lemma StaleRun(key: string, other: string, most: nat, lag: nat)
    requires most >= 2 && lag >= 2 && other != key
    ensures OwnRun(View(None, [], 0), Stale(key, other, most), key, most, lag)
  {
    var d := Repeated(Alone(key, WINDOW + 1, 0), 3) + Ending(key, 2 * WINDOW, most);
    var c := [Check(other, WINDOW + 1), Record(key, WINDOW - 1, 0)] + d;
    var b := Repeated(Alone(key, WINDOW, 1), 3) + c;
    EndingRun(WINDOW - 1, WINDOW + 1, key, 2 * WINDOW, most, lag);
    RepeatedRun(1, WINDOW - 1, [], WINDOW + 1, key, WINDOW + 1, 3, Ending(key, 2 * WINDOW, most), most, lag);
    StaleMiddle(key, other, d, most, lag);
    RepeatedRun(1, 0, [WINDOW - 1], WINDOW - 1, key, WINDOW, 3, c, most, lag);
    StaleOpens(key, b, most, lag);
    AloneRun(View(None, [], 0), key, 0, [Check(key, WINDOW - 1)] + b, most, lag);
  }

  // -------------------------------------------------------------------- counting

  lemma {:induction false} FailuresConcat(a: seq<Event>, b: seq<Event>, key: string, lo: int, hi: int)
    ensures Failures(a + b, key, lo, hi) == Failures(a, key, lo, hi) + Failures(b, key, lo, hi)
  {
    if a == [] {
      assert a + b == b;
    } else {
      assert (a + b)[1..] == a[1..] + b;
      FailuresConcat(a[1..], b, key, lo, hi);
    }
  }

  lemma AloneFailures(key: string, now: int, n: nat, lo: int, hi: int)
    ensures Failures(Alone(key, now, n), key, lo, hi) == if lo <= now <= hi then 1 else 0
  {
    assert Alone(key, now, n)[1..] == [Record(key, now, n)];
    assert [Record(key, now, n)][1..] == [];
    assert Failures([Record(key, now, n)], key, lo, hi) == if lo <= now <= hi then 1 else 0;
  }

  lemma {:induction false} RepeatedFailures(key: string, now: int, i: nat, n: nat, lo: int, hi: int)
    ensures Failures(Repeated(Alone(key, now, i), n), key, lo, hi) == if lo <= now <= hi then n else 0
  {
    if n > 0 {
      AloneFailures(key, now, i, lo, hi);
      FailuresConcat(Alone(key, now, i), Repeated(Alone(key, now, i), n - 1), key, lo, hi);
      RepeatedFailures(key, now, i, n - 1, lo, hi);
    }
  }

  lemma {:induction false} TimesFailures(e: Event, n: nat, lo: int, hi: int)
    ensures Failures(Times(e, n), e.key, lo, hi) == if e.Record? && lo <= e.now <= hi then n else 0
  {
    if n > 0 {
      assert Times(e, n)[1..] == Times(e, n - 1);
      TimesFailures(e, n - 1, lo, hi);
    }
  }

  lemma EndingFailures(key: string, now: int, most: nat, lo: int, hi: int)
    requires lo <= now <= hi
    ensures Failures(Ending(key, now, most), key, lo, hi) == 4 + most
  {
    var burst, three := Burst(key, now, most), Repeated(Alone(key, now, 0), 3);
    TimesFailures(Check(key, now), most, lo, hi);
    TimesFailures(Record(key, now, 0), most, lo, hi);
    FailuresConcat(Times(Check(key, now), most), Times(Record(key, now, 0), most), key, lo, hi);
    RepeatedFailures(key, now, 0, 3, lo, hi);
    FailuresConcat(three, burst, key, lo, hi);
    AloneFailures(key, now, 0, lo, hi);
    FailuresConcat(Alone(key, now, 0), three + burst, key, lo, hi);
  }

  lemma BusiestFailures(key: string, most: nat)
    requires most > 0
    ensures Failures(Busiest(key, most), key, WINDOW, 2 * WINDOW) == MostFailures(most)
  {
    var lo, hi := WINDOW, 2 * WINDOW;
    var three, ending := Repeated(Alone(key, WINDOW, 0), 3), Ending(key, WINDOW + 1, most);
    EndingFailures(key, WINDOW + 1, most, lo, hi);
    RepeatedFailures(key, WINDOW, 0, 3, lo, hi);
    FailuresConcat(three, ending, key, lo, hi);
    AloneFailures(key, 0, 0, lo, hi);
    FailuresConcat(Alone(key, 0, 0), three + ending, key, lo, hi);
  }

  lemma StaleFailures(key: string, other: string, most: nat)
    requires other != key
    ensures Failures(Stale(key, other, most), key, WINDOW, 2 * WINDOW) == 10 + most
  {
    var lo, hi := WINDOW, 2 * WINDOW;
    var early, late := Repeated(Alone(key, WINDOW, 1), 3), Repeated(Alone(key, WINDOW + 1, 0), 3);
    var ending, between := Ending(key, 2 * WINDOW, most), [Check(other, WINDOW + 1), Record(key, WINDOW - 1, 0)];
    var open := [Check(key, WINDOW - 1)];
    EndingFailures(key, 2 * WINDOW, most, lo, hi);
    RepeatedFailures(key, WINDOW, 1, 3, lo, hi);
    RepeatedFailures(key, WINDOW + 1, 0, 3, lo, hi);
    AloneFailures(key, 0, 0, lo, hi);
    assert between[1..] == [Record(key, WINDOW - 1, 0)] && [Record(key, WINDOW - 1, 0)][1..] == [] && open[1..] == [];
    assert Failures([Record(key, WINDOW - 1, 0)], key, lo, hi) == 0;
    FailuresConcat(late, ending, key, lo, hi);
    FailuresConcat(between, late + ending, key, lo, hi);
    FailuresConcat(early, between + (late + ending), key, lo, hi);
    FailuresConcat(open, early + (between + (late + ending)), key, lo, hi);
    FailuresConcat(Alone(key, 0, 0), open + (early + (between + (late + ending))), key, lo, hi);
  }

  // Own attempts and foreign checks, and no success.
  predicate Plain(events: seq<Event>, key: string) {
    forall i :: 0 <= i < |events| ==> !events[i].Succeed? && (events[i].key == key || events[i].Check?)
  }

  lemma PlainConcat(a: seq<Event>, b: seq<Event>, key: string)
    requires Plain(a, key) && Plain(b, key)
    ensures Plain(a + b, key)
  {
  }

  lemma {:induction false} RepeatedPlain(key: string, now: int, i: nat, n: nat)
    ensures Plain(Repeated(Alone(key, now, i), n), key)
  {
    if n > 0 {
      RepeatedPlain(key, now, i, n - 1);
      PlainConcat(Alone(key, now, i), Repeated(Alone(key, now, i), n - 1), key);
    }
  }

  lemma EndingPlain(key: string, now: int, most: nat)
    ensures Plain(Ending(key, now, most), key)
  {
    RepeatedPlain(key, now, 0, 3);
    PlainConcat(Times(Check(key, now), most), Times(Record(key, now, 0), most), key);
    PlainConcat(Repeated(Alone(key, now, 0), 3), Burst(key, now, most), key);
    PlainConcat(Alone(key, now, 0), Repeated(Alone(key, now, 0), 3) + Burst(key, now, most), key);
  }

  lemma BusiestPlain(key: string, most: nat)
    ensures Plain(Busiest(key, most), key)
  {
    var three, ending := Repeated(Alone(key, WINDOW, 0), 3), Ending(key, WINDOW + 1, most);
    RepeatedPlain(key, WINDOW, 0, 3);
    EndingPlain(key, WINDOW + 1, most);
    PlainConcat(three, ending, key);
    PlainConcat(Alone(key, 0, 0), three + ending, key);
  }

  lemma StalePlain(key: string, other: string, most: nat)
    ensures Plain(Stale(key, other, most), key)
  {
    var early, late := Repeated(Alone(key, WINDOW, 1), 3), Repeated(Alone(key, WINDOW + 1, 0), 3);
    var ending, between := Ending(key, 2 * WINDOW, most), [Check(other, WINDOW + 1), Record(key, WINDOW - 1, 0)];
    RepeatedPlain(key, WINDOW, 1, 3);
    RepeatedPlain(key, WINDOW + 1, 0, 3);
    EndingPlain(key, 2 * WINDOW, most);
    PlainConcat(late, ending, key);
    PlainConcat(between, late + ending, key);
    PlainConcat(early, between + (late + ending), key);
    PlainConcat([Check(key, WINDOW - 1)], early + (between + (late + ending)), key);
    PlainConcat(Alone(key, 0, 0), [Check(key, WINDOW - 1)] + (early + (between + (late + ending))), key);
  }

  // ------------------------------------------------------------------ exact limits

  // The bound is attained for every number of attempts in flight, without any lag.
  lemma BoundIsAttained(key: string, most: nat, lag: nat)
    requires most > 0
    ensures IsRun(Initial(0), Busiest(key, most), key, most, lag) && NoSuccess(Busiest(key, most), key)
    ensures Failures(Busiest(key, most), key, WINDOW, 2 * WINDOW) == MostFailures(most)
  {
    BusiestRun(key, most, lag);
    BusiestPlain(key, most);
    OwnRunIsRun(Initial(0), Busiest(key, most), key, most, lag);
    BusiestFailures(key, most);
  }

  // With a second attempt in flight and a stamp that lags, it is passed.
  lemma LagAddsFailures(key: string, other: string, most: nat, lag: nat)
    requires most >= 2 && lag >= 2 && other != key
    ensures IsRun(Initial(0), Stale(key, other, most), key, most, lag) && NoSuccess(Stale(key, other, most), key)
    ensures Failures(Stale(key, other, most), key, WINDOW, 2 * WINDOW) == MostFailures(most) + 3
  {
    StaleRun(key, other, most, lag);
    StalePlain(key, other, most);
    OwnRunIsRun(Initial(0), Stale(key, other, most), key, most, lag);
    StaleFailures(key, other, most);
  }

  ghost predicate Limits(most: nat, lag: nat, failures: nat) {
    forall start, events, key, lo, hi ::
      IsRun(Initial(start), events, key, most, lag) && NoSuccess(events, key) && hi <= lo + 300_000_000_000 ==>
        Failures(events, key, lo, hi) <= failures
  }

  lemma LimitsIfInside(most: nat, lag: nat, failures: nat)
    requires (most <= 1 || lag <= 1) && MostFailures(most) <= failures
    ensures Limits(most, lag, failures)
  {
    forall start, events, key, lo, hi |
      IsRun(Initial(start), events, key, most, lag) && NoSuccess(events, key) && hi <= lo + 300_000_000_000
      ensures Failures(events, key, lo, hi) <= failures
    {
      LoginBound(start, events, key, most, lag, lo, hi);
    }
  }

  // The guard keeps a key to 7 failures and those in flight exactly when attempts come
  // one at a time or stamps lag by no more than a tick; it keeps it to fewer never, and
  // to eight exactly when attempts come one at a time, whatever the lag.
  lemma LimitsExactly(most: nat, lag: nat, failures: nat)
    ensures Limits(most, lag, MostFailures(most)) <==> most <= 1 || lag <= 1
    ensures Limits(most, lag, failures) ==> MostFailures(most) <= failures
    ensures Limits(most, lag, 8) <==> most <= 1
  {
    if most > 0 {
      BoundIsAttained("", most, lag);
    }
    if most <= 1 || lag <= 1 {
      LimitsIfInside(most, lag, MostFailures(most));
    } else {
      LagAddsFailures("", "b", most, lag);
    }
    if most <= 1 {
      LimitsIfInside(most, lag, 8);
    }
  }
}
