/**
 Leader election over a database lease (master/src/ha.rs). Any number of
 instances boot, run the election loop and crash. One loop body is: tick, ask the
 database, read the answer, set or clear the leader flag, then housekeeping; the
 database answers at some instant between the tick and the reply. The clock is
 one global integer; a body that starts at a tick ends within `body` ticks of the
 clock.
 */
module Lease {
  import opened Wrappers

  datatype Timing = Timing(ttl: int, renew: int, body: int) {
    // How long after one tick the next one can come: the ticker waits for the
    // period, and for the body if that takes longer.
    function Gap(): int {
      if body > renew then body else renew
    }

    predicate Sane() {
      ttl >= 0 && renew >= 0 && body >= 0
    }
  }

  datatype Phase = Sleeping | Asking | Answered(held: bool) | Trailing

  // `tick` is when the current or last body began; `flag` is the leader flag.
  datatype Instance = Instance(phase: Phase, tick: int, flag: bool)

  datatype Record = Record(holder: nat, expires: int)

  datatype World = World(now: int, lease: Option<Record>, members: map<nat, Instance>)

  const INITIAL := World(0, None, map[])

  // The upsert: take a free lease, renew one's own, or take over one that has
  // expired. The result is the new record and whether `me` now holds it.
  function TryAcquire(lease: Option<Record>, me: nat, ttl: int, now: int): (Option<Record>, bool) {
    if lease.None? || lease.value.holder == me || lease.value.expires < now
    then (Some(Record(me, now + ttl)), true)
    else (lease, false)
  }

  datatype Event =
    | Boot(id: nat)
    | Crash(id: nat)
    | Tick(id: nat)
    | Answer(id: nat)
    | Reply(id: nat)
    | Fail(id: nat)
    | Finish(id: nat)
    | Advance(to: int)

  predicate InTime(t: Timing, m: Instance, to: int) {
    if m.phase.Sleeping? then to <= m.tick + t.renew else to <= m.tick + t.body
  }

  predicate Can(t: Timing, w: World, e: Event) {
    match e
    case Boot(id) => id !in w.members
    case Crash(id) => id in w.members
    case Tick(id) => id in w.members && w.members[id].phase.Sleeping? && w.now >= w.members[id].tick + t.renew
    case Answer(id) => id in w.members && w.members[id].phase.Asking?
    case Reply(id) => id in w.members && w.members[id].phase.Answered?
    case Fail(id) => id in w.members && (w.members[id].phase.Asking? || w.members[id].phase.Answered?)
    case Finish(id) => id in w.members && w.members[id].phase.Trailing?
    case Advance(to) => to >= w.now && forall id :: id in w.members ==> InTime(t, w.members[id], to)
  }

  function After(t: Timing, w: World, e: Event): World
    requires Can(t, w, e)
  {
    match e
    case Boot(id) => w.(members := w.members[id := Instance(Asking, w.now, false)])
    case Crash(id) => w.(members := w.members - {id})
    case Tick(id) => w.(members := w.members[id := w.members[id].(phase := Asking, tick := w.now)])
    case Answer(id) =>
      var (lease, held) := TryAcquire(w.lease, id, t.ttl, w.now);
      w.(lease := lease, members := w.members[id := w.members[id].(phase := Answered(held))])
    case Reply(id) =>
      w.(members := w.members[id := w.members[id].(phase := Trailing, flag := w.members[id].phase.held)])
    case Fail(id) => w.(members := w.members[id := w.members[id].(phase := Trailing, flag := false)])
    case Finish(id) => w.(members := w.members[id := w.members[id].(phase := Sleeping)])
    case Advance(to) => w.(now := to)
  }

  function Run(t: Timing, w: World, events: seq<Event>): Option<World>
    decreases |events|
  {
    if events == [] then Some(w)
    else if !Can(t, w, events[0]) then None
    else Run(t, After(t, w, events[0]), events[1..])
  }

  // ------------------------------------------------------------------- safety

  ghost predicate HoldsUntil(w: World, id: nat, until: int) {
    w.lease.Some? && w.lease.value.holder == id && w.lease.value.expires >= until
  }

  ghost predicate MemberInv(t: Timing, w: World, id: nat, m: Instance) {
    && m.tick <= w.now
    && w.now <= m.tick + (if m.phase.Sleeping? then t.Gap() else t.body)
    && (m.phase == Answered(true) ==> HoldsUntil(w, id, m.tick + t.ttl))
    && (m.phase == Answered(false) ==> !m.flag)
    && (m.flag ==> HoldsUntil(w, id, m.tick + t.ttl - (if m.phase.Asking? then t.Gap() else 0)))
  }

  ghost predicate Inv(t: Timing, w: World) {
    forall id :: id in w.members ==> MemberInv(t, w, id, w.members[id])
  }

  lemma EventKeepsInv(t: Timing, w: World, e: Event)
    requires t.Sane() && t.Gap() + t.body <= t.ttl
    requires Inv(t, w) && Can(t, w, e)
    ensures Inv(t, After(t, w, e))
  {
    var w' := After(t, w, e);
    forall id | id in w'.members
      ensures MemberInv(t, w', id, w'.members[id])
    {
      assert id in w.members ==> MemberInv(t, w, id, w.members[id]);
    }
  }

  lemma {:induction false} RunKeepsInv(t: Timing, w: World, events: seq<Event>)
    requires t.Sane() && t.Gap() + t.body <= t.ttl
    requires Inv(t, w) && Run(t, w, events).Some?
    ensures Inv(t, Run(t, w, events).value)
    decreases |events|
  {
    if events != [] {
      EventKeepsInv(t, w, events[0]);
      RunKeepsInv(t, After(t, w, events[0]), events[1..]);
    }
  }

  ghost predicate Exclusive(w: World) {
    forall i, j :: i in w.members && j in w.members && w.members[i].flag && w.members[j].flag ==> i == j
  }

  // With enough slack a set flag means the instance holds an unexpired lease, so
  // at most one flag is set.
  lemma LeaderHoldsLease(t: Timing, events: seq<Event>)
    requires t.Sane() && t.Gap() + t.body <= t.ttl
    requires Run(t, INITIAL, events).Some?
    ensures var w := Run(t, INITIAL, events).value;
            && Exclusive(w)
            && forall id :: id in w.members && w.members[id].flag ==> HoldsUntil(w, id, w.now)
  {
    RunKeepsInv(t, INITIAL, events);
    var w := Run(t, INITIAL, events).value;
    forall id | id in w.members && w.members[id].flag
      ensures HoldsUntil(w, id, w.now)
    {
      assert MemberInv(t, w, id, w.members[id]);
    }
  }

  // ----------------------------------------------------------------- tightness

  // From a reply to the next tick, as late as it can be.
  function ToNextTick(t: Timing): seq<Event> {
    if t.body >= t.renew then [Advance(t.body), Finish(0), Tick(0)] else [Finish(0), Advance(t.renew), Tick(0)]
  }

  // A run in which two flags are set at once, for any timing without that slack:
  // the first leader's renewal request hangs until its lease has run out.
  function SplitBrain(t: Timing): seq<Event> {
    [Boot(0), Answer(0), Reply(0)]
    + ToNextTick(t)
    + [Advance(if t.Gap() > t.ttl then t.Gap() else t.ttl + 1), Boot(1), Answer(1), Reply(1)]
  }

  lemma {:induction false} RunConcat(t: Timing, w: World, a: seq<Event>, b: seq<Event>)
    requires Run(t, w, a).Some?
    ensures Run(t, w, a + b) == Run(t, Run(t, w, a).value, b)
    decreases |a|
  {
    if a == [] {
      assert a + b == b;
    } else {
      assert (a + b)[1..] == a[1..] + b;
      RunConcat(t, After(t, w, a[0]), a[1..], b);
    }
  }

  lemma SplitBrainHappens(t: Timing)
    requires t.Sane() && t.Gap() + t.body > t.ttl
    ensures Run(t, INITIAL, SplitBrain(t)).Some?
    ensures !Exclusive(Run(t, INITIAL, SplitBrain(t)).value)
  {
    var a := [Boot(0), Answer(0), Reply(0)];
    var b := ToNextTick(t);
    var at := if t.Gap() > t.ttl then t.Gap() else t.ttl + 1;
    var c := [Advance(at), Boot(1), Answer(1), Reply(1)];
    var w1 := World(0, Some(Record(0, t.ttl)), map[0 := Instance(Trailing, 0, true)]);
    var w2 := World(t.Gap(), Some(Record(0, t.ttl)), map[0 := Instance(Asking, t.Gap(), true)]);
    FirstTerm(t);
    NextTick(t);
    Takeover(t, w2, at);
    RunConcat(t, INITIAL, a, b + c);
    RunConcat(t, w1, b, c);
    assert SplitBrain(t) == a + (b + c);
  }

  lemma FirstTerm(t: Timing)
    ensures Run(t, INITIAL, [Boot(0), Answer(0), Reply(0)])
         == Some(World(0, Some(Record(0, t.ttl)), map[0 := Instance(Trailing, 0, true)]))
  {
    var w1 := After(t, INITIAL, Boot(0));
    var w2 := After(t, w1, Answer(0));
    var w3 := After(t, w2, Reply(0));
    assert Run(t, w3, []) == Some(w3);
    assert Run(t, w2, [Reply(0)]) == Some(w3);
    assert Run(t, w1, [Answer(0), Reply(0)]) == Some(w3);
    assert w3.members == map[0 := Instance(Trailing, 0, true)];
  }

  lemma NextTick(t: Timing)
    requires t.Sane()
    ensures Run(t, World(0, Some(Record(0, t.ttl)), map[0 := Instance(Trailing, 0, true)]),
                ToNextTick(t))
         == Some(World(t.Gap(), Some(Record(0, t.ttl)), map[0 := Instance(Asking, t.Gap(), true)]))
  {
    var w := World(0, Some(Record(0, t.ttl)), map[0 := Instance(Trailing, 0, true)]);
    var e := ToNextTick(t);
    assert Can(t, w, e[0]);
    var w1 := After(t, w, e[0]);
    assert Can(t, w1, e[1]);
    var w2 := After(t, w1, e[1]);
    assert Can(t, w2, e[2]);
    var w3 := After(t, w2, e[2]);
    assert Run(t, w3, []) == Some(w3);
    assert e[1..][1..] == [e[2]] && e[1..][1..][1..] == [];
    assert Run(t, w2, e[1..][1..]) == Some(w3);
    assert Run(t, w1, e[1..]) == Some(w3);
    assert w3.members == map[0 := Instance(Asking, t.Gap(), true)];
  }

  lemma Takeover(t: Timing, w: World, at: int)
    requires t.Sane() && t.Gap() + t.body > t.ttl
    requires w == World(t.Gap(), Some(Record(0, t.ttl)), map[0 := Instance(Asking, t.Gap(), true)])
    requires at == if t.Gap() > t.ttl then t.Gap() else t.ttl + 1
    ensures Run(t, w, [Advance(at), Boot(1), Answer(1), Reply(1)]).Some?
    ensures var w' := Run(t, w, [Advance(at), Boot(1), Answer(1), Reply(1)]).value;
            0 in w'.members && 1 in w'.members && w'.members[0].flag && w'.members[1].flag
  {
    var w1 := After(t, w, Advance(at));
    var w2 := After(t, w1, Boot(1));
    var w3 := After(t, w2, Answer(1));
    var w4 := After(t, w3, Reply(1));
    assert Run(t, w4, []) == Some(w4);
    assert Run(t, w3, [Reply(1)]) == Some(w4);
    assert Run(t, w2, [Answer(1), Reply(1)]) == Some(w4);
    assert Run(t, w1, [Boot(1), Answer(1), Reply(1)]) == Some(w4);
  }

  // ------------------------------------------------------------------- progress

  // Only this instance takes part, and every request is answered.
  predicate Undisturbed(e: Event, id: nat) {
    e.Advance? || ((e.Boot? || e.Tick? || e.Answer? || e.Reply? || e.Finish?) && e.id == id)
  }

  ghost predicate Unrivalled(w: World, id: nat) {
    && (w.lease.Some? ==> w.lease.value.holder == id)
    && (forall m :: m in w.members ==> m == id)
    && (id in w.members ==>
          var m := w.members[id];
          (m.phase.Answered? ==> m.phase.held) && (m.phase.Trailing? || m.phase.Sleeping? ==> m.flag))
  }

  lemma {:induction false} StaysUnrivalled(t: Timing, w: World, events: seq<Event>, id: nat)
    requires Unrivalled(w, id) && Run(t, w, events).Some?
    requires forall i :: 0 <= i < |events| ==> Undisturbed(events[i], id)
    ensures Unrivalled(Run(t, w, events).value, id)
    decreases |events|
  {
    if events != [] {
      StaysUnrivalled(t, After(t, w, events[0]), events[1..], id);
    }
  }

  // A single instance wins the election and leads from its first answer on, however
  // slow it is.
  lemma SingleInstanceLeads(t: Timing, events: seq<Event>, id: nat)
    requires Run(t, INITIAL, events).Some? && forall i :: 0 <= i < |events| ==> Undisturbed(events[i], id)
    ensures var w := Run(t, INITIAL, events).value;
            id in w.members && (w.members[id].phase.Trailing? || w.members[id].phase.Sleeping?) ==> w.members[id].flag
  {
    StaysUnrivalled(t, INITIAL, events, id);
  }

  ghost predicate Bounded(t: Timing, w: World) {
    w.lease.Some? ==> w.lease.value.expires <= w.now + t.ttl
  }

  lemma {:induction false} StaysBounded(t: Timing, w: World, events: seq<Event>)
    requires Bounded(t, w) && Run(t, w, events).Some?
    ensures Bounded(t, Run(t, w, events).value)
    decreases |events|
  {
    if events != [] {
      StaysBounded(t, After(t, w, events[0]), events[1..]);
    }
  }

  lemma {:induction false} SilenceKeepsLease(t: Timing, w: World, events: seq<Event>)
    requires Run(t, w, events).Some? && forall i :: 0 <= i < |events| ==> !events[i].Answer?
    ensures Run(t, w, events).value.lease == w.lease
    decreases |events|
  {
    if events != [] {
      SilenceKeepsLease(t, After(t, w, events[0]), events[1..]);
    }
  }

  // The lease lifetime is the longest a failover can take: when no request was answered
  // for that long, the next one that is wins the lease, whoever held it.
  lemma FailoverIsBounded(t: Timing, before: seq<Event>, silence: seq<Event>, id: nat)
    requires Run(t, INITIAL, before).Some? && Run(t, Run(t, INITIAL, before).value, silence).Some?
    requires forall i :: 0 <= i < |silence| ==> !silence[i].Answer?
    requires var w, w' := Run(t, INITIAL, before).value, Run(t, Run(t, INITIAL, before).value, silence).value;
             w'.now > w.now + t.ttl && Can(t, w', Answer(id))
    ensures var w' := Run(t, Run(t, INITIAL, before).value, silence).value;
            var w'' := After(t, w', Answer(id));
            && w''.members[id].phase == Answered(true)
            && w''.lease == Some(Record(id, w'.now + t.ttl))
  {
    StaysBounded(t, INITIAL, before);
    SilenceKeepsLease(t, Run(t, INITIAL, before).value, silence);
  }

  // ---------------------------------------------------------- shipped settings

  // The lease lifetime and the renewal period, in seconds, from the setting.
  function TtlSecs(setting: nat): nat {
    if setting < 3 then 3 else setting
  }

  function RenewSecs(setting: nat): nat {
    if TtlSecs(setting) / 3 < 1 then 1 else TtlSecs(setting) / 3
  }

  function Shipped(setting: nat, second: nat, body: nat): Timing {
    Timing(TtlSecs(setting) * second, RenewSecs(setting) * second, body)
  }

  // With the shipped timing, at most one instance leads in every run exactly
  // when no loop body takes longer than half the lease lifetime.
  lemma ElectionIsExclusive(setting: nat, second: nat, body: nat)
    ensures 2 * body <= (if setting >= 3 then setting else 3) * second <==>
            forall events :: Run(Shipped(setting, second, body), INITIAL, events).Some? ==>
              Exclusive(Run(Shipped(setting, second, body), INITIAL, events).value)
  {
    var t := Shipped(setting, second, body);
    RenewalIsEarly(setting, second);
    if 2 * body <= t.ttl {
      forall events | Run(t, INITIAL, events).Some?
        ensures Exclusive(Run(t, INITIAL, events).value)
      {
        LeaderHoldsLease(t, events);
      }
    } else {
      SplitBrainHappens(t);
    }
  }

  // The holder renews at a third of the lifetime, which is never below three seconds.
  lemma RenewalIsEarly(setting: nat, second: nat)
    ensures var t := Shipped(setting, second, 0);
            && t.ttl == (if setting >= 3 then setting else 3) * second
            && 3 * t.renew <= t.ttl <= 3 * t.renew + 2 * second
  {
    var r, s := RenewSecs(setting), TtlSecs(setting);
    assert 3 * r <= s;
    assert s <= 3 * r + 2;
    MulMonotone(3 * r, s, second);
    MulMonotone(s, 3 * r + 2, second);
    assert (3 * r + 2) * second == 3 * (r * second) + 2 * second;
  }

  lemma MulMonotone(a: nat, b: nat, c: nat)
    requires a <= b
    ensures a * c <= b * c
  {
    assert (b - a) * c >= 0;
  }
}
