/**
 The debounced push table of the master's registry (master/src/registry.rs).
 Deferrals, their sleeping tasks, manual pushes and reconcile pushes interleave
 at the granularity of the table's lock. The log records, in order, the deferrals,
 the removals by a waking task and by a push, the pushes given up because the node
 is offline or auto-push is off, and the starts of spec builds, those of a reconcile
 that only compares apart from those of a push.
 */
module Debounce {
  import opened Counting
  import opened Wrappers

  // What one async task still has to do. `cause` is the log position of the
  // wake that led to a push, if a wake did.
  datatype Actor =
    | Spawning(node: nat, deadline: int)      // inserted, task not spawned yet
    | Sleeping(node: nat, deadline: int)
    | Due(node: nat, cause: Option<nat>)      // took the entry, push not decided
    | Pushing(node: nat, cause: Option<nat>)  // about to clear the entry
    | Cleared(node: nat, cause: Option<nat>)  // about to build the spec
    | Comparing(node: nat)                    // reconcile saw no entry
    | Gone

  datatype Note =
    | Deferred(node: nat, deadline: int)
    | Woke(node: nat, at: int)
    | Superseded(node: nat)
    | Dropped(node: nat, cause: Option<nat>)
    | Built(node: nat, cause: Option<nat>)
    | Compared(node: nat)

  datatype World = World(now: int, pending: map<nat, int>, actors: seq<Actor>, log: seq<Note>)

  const INITIAL := World(0, map[], [], [])

  // take_due_push: the entry goes, and the caller pushes, only if its deadline
  // has passed.
  function TakeDuePush(pending: map<nat, int>, node: nat, now: int): (map<nat, int>, bool) {
    if node in pending && pending[node] <= now then (pending - {node}, true) else (pending, false)
  }

  datatype Event =
    | Defer(node: nat, deadline: int)
    | Spawn(actor: nat)
    | Wake(actor: nat)
    | Decide(actor: nat, go: bool)
    | Push(node: nat)
    | Clear(actor: nat)
    | Build(actor: nat)
    | Reconcile(node: nat)
    | Compare(actor: nat, changed: bool)
    | Advance(to: int)

  predicate Can(w: World, e: Event) {
    match e
    case Defer(_, _) => true
    case Spawn(a) => a < |w.actors| && w.actors[a].Spawning?
    case Wake(a) => a < |w.actors| && w.actors[a].Sleeping? && w.actors[a].deadline <= w.now
    case Decide(a, _) => a < |w.actors| && w.actors[a].Due?
    case Push(_) => true
    case Clear(a) => a < |w.actors| && w.actors[a].Pushing?
    case Build(a) => a < |w.actors| && w.actors[a].Cleared?
    case Reconcile(_) => true
    case Compare(a, _) => a < |w.actors| && w.actors[a].Comparing?
    case Advance(to) => to >= w.now
  }

  function Becomes(w: World, a: nat, actor: Actor): World
    requires a < |w.actors|
  {
    w.(actors := w.actors[a := actor])
  }

  function After(w: World, e: Event): World
    requires Can(w, e)
  {
    match e
    case Defer(node, deadline) =>
      w.(pending := w.pending[node := deadline], actors := w.actors + [Spawning(node, deadline)],
      log := w.log + [Deferred(node, deadline)])
    case Spawn(a) => Becomes(w, a, Sleeping(w.actors[a].node, w.actors[a].deadline))
    case Wake(a) =>
      var node := w.actors[a].node;
      var (pending, due) := TakeDuePush(w.pending, node, w.now);
      if due then Becomes(w, a, Due(node, Some(|w.log|))).(pending := pending, log := w.log + [Woke(node, w.now)])
      else Becomes(w, a, Gone)
    case Decide(a, go) =>
      var Due(node, cause) := w.actors[a];
      if go then Becomes(w, a, Pushing(node, cause))
      else Becomes(w, a, Gone).(log := w.log + [Dropped(node, cause)])
    case Push(node) => w.(actors := w.actors + [Pushing(node, None)])
    case Clear(a) =>
      var Pushing(node, cause) := w.actors[a];
      Becomes(w, a, Cleared(node, cause)).(pending := w.pending - {node}, log := w.log + [Superseded(node)])
    case Build(a) =>
      var Cleared(node, cause) := w.actors[a];
      Becomes(w, a, Gone).(log := w.log + [Built(node, cause)])
    case Reconcile(node) =>
      if node in w.pending then w else w.(actors := w.actors + [Comparing(node)])
    case Compare(a, changed) =>
      var node := w.actors[a].node;
      Becomes(w, a, if changed then Pushing(node, None) else Gone).(log := w.log + [Compared(node)])
    case Advance(to) => w.(now := to)
  }

  function Run(w: World, events: seq<Event>): Option<World>
    decreases |events|
  {
    if events == [] then Some(w)
    else if !Can(w, events[0]) then None
    else Run(After(w, events[0]), events[1..])
  }

  // ---------------------------------------------------------------- invariant

  // The sleeper or spawner that guards a pending entry.
  predicate Guards(actor: Actor, node: nat, deadline: int) {
    actor == Spawning(node, deadline) || actor == Sleeping(node, deadline)
  }

  ghost predicate Guarded(w: World, node: nat, deadline: int) {
    exists a :: 0 <= a < |w.actors| && Guards(w.actors[a], node, deadline)
  }

  // After log position i a push of the node has started to build its spec, or a
  // wake after i was given up.
  predicate Answers(note: Note, j: nat, node: nat, i: nat) {
    || (note.Built? && note.node == node && j > i)
    || (note.Dropped? && note.node == node && note.cause.Some? && note.cause.value > i)
  }

  ghost predicate Answered(w: World, node: nat, i: nat) {
    exists j :: 0 <= j < |w.log| && Answers(w.log[j], j, node, i)
  }

  // A wake that is about to be decided happened after i.
  ghost predicate DueSince(w: World, node: nat, i: nat) {
    exists a :: 0 <= a < |w.actors| && DueAfter(w.actors[a], node, i)
  }

  predicate DueAfter(actor: Actor, node: nat, i: nat) {
    || ((actor.Pushing? || actor.Cleared?) && actor.node == node)
    || (actor.Due? && actor.node == node && actor.cause.Some? && actor.cause.value > i)
  }

  ghost predicate NotLost(w: World, node: nat, i: nat) {
    node in w.pending || DueSince(w, node, i) || Answered(w, node, i)
  }

  predicate Removes(note: Note, node: nat) {
    (note.Woke? || note.Superseded?) && note.node == node
  }

  predicate Touches(note: Note, node: nat) {
    Removes(note, node) || (note.Deferred? && note.node == node)
  }

  // The deadline of the last deferral of the node, with no removal since.
  ghost predicate LastDeadline(log: seq<Note>, node: nat, deadline: int) {
    exists i :: 0 <= i < |log| && log[i] == Deferred(node, deadline) &&
                forall j :: i < j < |log| ==> !Touches(log[j], node)
  }

  ghost predicate Inv(w: World) {
    && (forall n :: n in w.pending ==> Guarded(w, n, w.pending[n]))
    && (forall n :: n in w.pending ==> LastDeadline(w.log, n, w.pending[n]))
    && (forall n, d :: LastDeadline(w.log, n, d) ==> n in w.pending && w.pending[n] == d)
    && (forall i :: 0 <= i < |w.log| && w.log[i].Deferred? ==> NotLost(w, w.log[i].node, i))
  }

  lemma GuardStays(w: World, e: Event, n: nat)
    requires Can(w, e) && n in After(w, e).pending
    requires n in w.pending ==> Guarded(w, n, w.pending[n])
    ensures Guarded(After(w, e), n, After(w, e).pending[n])
  {
    var w' := After(w, e);
    if e.Defer? && e.node == n {
      assert Guards(w'.actors[|w.actors|], n, e.deadline);
    } else {
      var a :| 0 <= a < |w.actors| && Guards(w.actors[a], n, w.pending[n]);
      assert Guards(w'.actors[a], n, w'.pending[n]);
    }
  }

  lemma DeadlineStays(w: World, e: Event, n: nat)
    requires Can(w, e) && n in After(w, e).pending
    requires n in w.pending ==> LastDeadline(w.log, n, w.pending[n])
    ensures LastDeadline(After(w, e).log, n, After(w, e).pending[n])
  {
    var w' := After(w, e);
    if e.Defer? && e.node == n {
      assert w'.log[|w.log|] == Deferred(n, e.deadline);
    } else {
      var i :| 0 <= i < |w.log| && w.log[i] == Deferred(n, w.pending[n]) &&
               forall j :: i < j < |w.log| ==> !Touches(w.log[j], n);
      assert w'.log[i] == Deferred(n, w'.pending[n]);
    }
  }

  lemma EntryStays(w: World, e: Event, n: nat, d: int)
    requires Can(w, e) && LastDeadline(After(w, e).log, n, d)
    requires LastDeadline(w.log, n, d) ==> n in w.pending && w.pending[n] == d
    ensures var w' := After(w, e); n in w'.pending && w'.pending[n] == d
  {
    var w' := After(w, e);
    var i :| 0 <= i < |w'.log| && w'.log[i] == Deferred(n, d) &&
             forall j :: i < j < |w'.log| ==> !Touches(w'.log[j], n);
    if i < |w.log| {
      assert w.log[i] == Deferred(n, d);
      assert LastDeadline(w.log, n, d) by {
        forall j | i < j < |w.log|
          ensures !Touches(w.log[j], n)
        {
          assert !Touches(w'.log[j], n);
        }
      }
      if |w'.log| > |w.log| {
        assert !Touches(w'.log[|w.log|], n);
      }
    }
  }

  lemma DeferralStays(w: World, e: Event, n: nat, i: nat)
    requires Can(w, e) && i < |w.log| && NotLost(w, n, i)
    ensures NotLost(After(w, e), n, i)
  {
    var w' := After(w, e);
    if Answered(w, n, i) {
      var j :| 0 <= j < |w.log| && Answers(w.log[j], j, n, i);
      assert Answers(w'.log[j], j, n, i);
    } else if DueSince(w, n, i) {
      var a :| 0 <= a < |w.actors| && DueAfter(w.actors[a], n, i);
      if (e.Build? && e.actor == a) || (e.Decide? && e.actor == a && !e.go) {
        assert Answers(w'.log[|w.log|], |w.log|, n, i);
      } else {
        assert DueAfter(w'.actors[a], n, i);
      }
    } else if n !in w'.pending {
      assert DueAfter(w'.actors[e.actor], n, i);
    }
  }

  lemma EventKeepsInv(w: World, e: Event)
    requires Inv(w) && Can(w, e)
    ensures Inv(After(w, e))
  {
    var w' := After(w, e);
    forall n | n in w'.pending
      ensures Guarded(w', n, w'.pending[n])
    {
      GuardStays(w, e, n);
    }
    forall n | n in w'.pending
      ensures LastDeadline(w'.log, n, w'.pending[n])
    {
      DeadlineStays(w, e, n);
    }
    forall n, d | LastDeadline(w'.log, n, d)
      ensures n in w'.pending && w'.pending[n] == d
    {
      EntryStays(w, e, n, d);
    }
    forall i | 0 <= i < |w'.log| && w'.log[i].Deferred?
      ensures NotLost(w', w'.log[i].node, i)
    {
      if i < |w.log| {
        DeferralStays(w, e, w.log[i].node, i);
      }
    }
  }

  lemma {:induction false} RunKeepsInv(w: World, events: seq<Event>)
    requires Inv(w) && Run(w, events).Some?
    ensures Inv(Run(w, events).value)
    decreases |events|
  {
    if events != [] {
      EventKeepsInv(w, events[0]);
      RunKeepsInv(After(w, events[0]), events[1..]);
    }
  }

  // -------------------------------------------------------------- main results

  // In every reachable state each pending entry has a task that sleeps until
  // exactly its deadline, or is about to be spawned with it.
  lemma EveryEntryHasItsTask(events: seq<Event>, node: nat)
    requires Run(INITIAL, events).Some?
    requires node in Run(INITIAL, events).value.pending
    ensures var w := Run(INITIAL, events).value; Guarded(w, node, w.pending[node])
  {
    RunKeepsInv(INITIAL, events);
  }

  // The table holds exactly the last deadline of each node that was deferred and has
  // neither woken nor been pushed since.
  lemma TableIsLast(events: seq<Event>, node: nat, deadline: int)
    requires Run(INITIAL, events).Some?
    ensures var w := Run(INITIAL, events).value;
            node in w.pending && w.pending[node] == deadline <==> LastDeadline(w.log, node, deadline)
  {
    RunKeepsInv(INITIAL, events);
  }

  // An entry leaves only by a wake at or after the deadline of the last
  // deferral, or by a push that has yet to build its spec.
  lemma EntryLeaves(events: seq<Event>, e: Event, node: nat)
    requires Run(INITIAL, events).Some?
    requires Can(Run(INITIAL, events).value, e)
    requires var w := Run(INITIAL, events).value; node in w.pending && node !in After(w, e).pending
    ensures var w := Run(INITIAL, events).value;
            || (e.Wake? && exists d :: LastDeadline(w.log, node, d) && d <= w.now)
            || (e.Clear? && After(w, e).actors[e.actor].Cleared? && After(w, e).actors[e.actor].node == node)
  {
    RunKeepsInv(INITIAL, events);
    var w := Run(INITIAL, events).value;
    assert LastDeadline(w.log, node, w.pending[node]);
  }

  // The deferrals of the node that no removal has answered yet.
  predicate Open(log: seq<Note>, node: nat, i: nat)
    requires i < |log|
  {
    log[i].Deferred? && log[i].node == node && forall j :: i < j < |log| ==> !Removes(log[j], node)
  }

  ghost predicate AllBy(log: seq<Note>, node: nat, t: int) {
    forall i :: 0 <= i < |log| && Open(log, node, i) ==> log[i].deadline <= t
  }

  // A waking task waits out every open deferral of its node exactly when the last
  // one entered in the table has the latest deadline of them.
  lemma WaitsOutEveryDeferral(events: seq<Event>, node: nat)
    requires Run(INITIAL, events).Some?
    requires node in Run(INITIAL, events).value.pending
    ensures var w := Run(INITIAL, events).value;
            (forall t :: TakeDuePush(w.pending, node, t).1 ==> AllBy(w.log, node, t))
            <==> (exists d :: LastDeadline(w.log, node, d) && AllBy(w.log, node, d))
  {
    RunKeepsInv(INITIAL, events);
    var w := Run(INITIAL, events).value;
    var d := w.pending[node];
    assert LastDeadline(w.log, node, d);
    assert TakeDuePush(w.pending, node, d).1;
    forall d' | LastDeadline(w.log, node, d')
      ensures d' == d
    {
    }
  }

  // Two deferrals whose insertions overtake each other: the deadline is computed
  // before the lock is taken, so the push can come at 5 although a deferral asked
  // for 10.
  lemma OvertakenDeferral()
    ensures var events := [Defer(0, 10), Defer(0, 5)];
            && Run(INITIAL, events).Some?
            && TakeDuePush(Run(INITIAL, events).value.pending, 0, 5).1
            && !AllBy(Run(INITIAL, events).value.log, 0, 5)
  {
    var events := [Defer(0, 10), Defer(0, 5)];
    var w1 := After(INITIAL, events[0]);
    var w2 := After(w1, events[1]);
    assert Run(w2, []) == Some(w2);
    assert Run(w1, [Defer(0, 5)]) == Some(w2);
    assert Run(INITIAL, events) == Some(w2);
    assert w2.log == [Deferred(0, 10), Deferred(0, 5)];
    assert Open(w2.log, 0, 0);
  }

  predicate Quiet(w: World) {
    forall a :: 0 <= a < |w.actors| ==> w.actors[a].Gone?
  }

  // No deferral is lost: once all tasks are done, each deferral was followed by
  // the start of a spec build for its node, or by a wake that found the node
  // offline or auto-push off.
  lemma NoLostDeferral(events: seq<Event>, i: nat)
    requires Run(INITIAL, events).Some?
    requires var w := Run(INITIAL, events).value; Quiet(w) && i < |w.log| && w.log[i].Deferred?
    ensures var w := Run(INITIAL, events).value; Answered(w, w.log[i].node, i)
  {
    RunKeepsInv(INITIAL, events);
    var w := Run(INITIAL, events).value;
    var n := w.log[i].node;
    if n in w.pending {
      assert false;
    }
  }

  // ------------------------------------------------------------------ progress

  function Rank(actor: Actor): nat {
    match actor
    case Spawning(_, _) => 5
    case Sleeping(_, _) => 4
    case Due(_, _) => 3
    case Comparing(_) => 3
    case Pushing(_, _) => 2
    case Cleared(_, _) => 1
    case Gone => 0
  }

  function Work(actors: seq<Actor>): nat {
    if actors == [] then 0 else Rank(actors[0]) + Work(actors[1..])
  }

  lemma {:induction false} WorkUpdates(actors: seq<Actor>, a: nat, actor: Actor)
    requires a < |actors|
    ensures Work(actors[a := actor]) == Work(actors) - Rank(actors[a]) + Rank(actor)
  {
    if a > 0 {
      assert actors[a := actor][1..] == actors[1..][a - 1 := actor];
      WorkUpdates(actors[1..], a - 1, actor);
    } else {
      assert actors[0 := actor][1..] == actors[1..];
    }
  }

  // What an actor does next, when the clock allows it.
  function NextEvent(actor: Actor, a: nat): Event
    requires !actor.Gone?
  {
    match actor
    case Spawning(_, _) => Spawn(a)
    case Sleeping(_, _) => Wake(a)
    case Due(_, _) => Decide(a, true)
    case Comparing(_) => Compare(a, true)
    case Pushing(_, _) => Clear(a)
    case Cleared(_, _) => Build(a)
  }

  predicate IsRequest(e: Event) {
    e.Defer? || e.Push? || e.Reconcile?
  }

  // The events of a run other than the passing of time.
  function Steps(events: seq<Event>): nat {
    if events == [] then 0 else (if events[0].Advance? then 0 else 1) + Steps(events[1..])
  }

  lemma EventWorks(w: World, e: Event)
    requires Can(w, e) && !IsRequest(e) && !e.Advance?
    ensures Work(After(w, e).actors) < Work(w.actors)
  {
    var w' := After(w, e);
    assert w'.actors == w.actors[e.actor := w'.actors[e.actor]];
    WorkUpdates(w.actors, e.actor, w'.actors[e.actor]);
  }

  // Every run without a new request is bounded by the work that is left.
  lemma {:induction false} RunsAreBounded(w: World, events: seq<Event>)
    requires Run(w, events).Some? && forall i :: 0 <= i < |events| ==> !IsRequest(events[i])
    ensures Steps(events) + Work(Run(w, events).value.actors) <= Work(w.actors)
    decreases |events|
  {
    if events != [] {
      if !events[0].Advance? {
        EventWorks(w, events[0]);
      }
      RunsAreBounded(After(w, events[0]), events[1..]);
    }
  }

  // Whatever state is reached, they can all run to completion with no further
  // request, in at most two events per unit of work.
  lemma {:induction false} TasksDrain(w: World) returns (events: seq<Event>)
    ensures Run(w, events).Some? && Quiet(Run(w, events).value)
    ensures |events| <= 2 * Work(w.actors)
    ensures forall e :: e in events ==> !IsRequest(e)
    decreases Work(w.actors)
  {
    if Quiet(w) {
      events := [];
    } else {
      var a :| 0 <= a < |w.actors| && !w.actors[a].Gone?;
      var e := NextEvent(w.actors[a], a);
      var at := if w.actors[a].Sleeping? && w.actors[a].deadline > w.now then w.actors[a].deadline else w.now;
      var w1 := After(w, Advance(at));
      EventWorks(w1, e);
      var rest := TasksDrain(After(w1, e));
      assert ([e] + rest)[1..] == rest;
      assert ([Advance(at)] + ([e] + rest))[1..] == [e] + rest;
      events := [Advance(at)] + ([e] + rest);
    }
  }

  // ------------------------------------------------------- one push for a wake

  function Cause(actor: Actor): Option<nat> {
    if actor.Due? || actor.Pushing? || actor.Cleared? then actor.cause else None
  }

  function CauseOf(note: Note): Option<nat> {
    if note.Dropped? || note.Built? then note.cause else None
  }

  // Everything that answers for the wake at log position i: the actor that
  // carries it on, and the notes that settle it.
  function CarriedBy(actors: seq<Actor>, i: nat): nat {
    Count(actors, (actor: Actor) => Cause(actor) == Some(i))
  }

  function SettledBy(log: seq<Note>, i: nat): nat {
    Count(log, (note: Note) => CauseOf(note) == Some(i))
  }

  predicate Balanced(w: World, i: nat) {
    CarriedBy(w.actors, i) + SettledBy(w.log, i) == if i < |w.log| && w.log[i].Woke? then 1 else 0
  }

  ghost predicate OneEach(w: World) {
    forall i: nat :: Balanced(w, i)
  }

  // What one event does to a count over the actors.
  lemma ActorsDelta(w: World, e: Event, p: Actor -> bool)
    requires Can(w, e)
    ensures var w' := After(w, e);
            Count(w'.actors, p) ==
            if HasActor(e) then Count(w.actors, p) - One(p(w.actors[e.actor])) + One(p(w'.actors[e.actor]))
            else Count(w.actors, p) + One(|w'.actors| > |w.actors| && p(w'.actors[|w.actors|]))
  {
    var w' := After(w, e);
    if HasActor(e) {
      assert w'.actors == w.actors[e.actor := w'.actors[e.actor]];
      CountUpdate(w.actors, e.actor, w'.actors[e.actor], p);
    } else if |w'.actors| > |w.actors| {
      assert w'.actors == w.actors + [w'.actors[|w.actors|]];
      CountAppend(w.actors, w'.actors[|w.actors|], p);
    }
  }

  // And to one over the log.
  lemma LogDelta(w: World, e: Event, q: Note -> bool)
    requires Can(w, e)
    ensures var w' := After(w, e);
            Count(w'.log, q) == Count(w.log, q) + One(|w'.log| > |w.log| && q(w'.log[|w.log|]))
  {
    var w' := After(w, e);
    if |w'.log| > |w.log| {
      assert w'.log == w.log + [w'.log[|w.log|]];
      CountAppend(w.log, w'.log[|w.log|], q);
    }
  }

  predicate HasActor(e: Event) {
    e.Spawn? || e.Wake? || e.Decide? || e.Clear? || e.Build? || e.Compare?
  }

  lemma StaysBalanced(w: World, e: Event, i: nat)
    requires Can(w, e) && Balanced(w, i) && Balanced(w, |w.log|)
    ensures Balanced(After(w, e), i)
  {
    ActorsDelta(w, e, (actor: Actor) => Cause(actor) == Some(i));
    LogDelta(w, e, (note: Note) => CauseOf(note) == Some(i));
  }

  lemma EventKeepsOneEach(w: World, e: Event)
    requires OneEach(w) && Can(w, e)
    ensures OneEach(After(w, e))
  {
    assert Balanced(w, |w.log|);
    forall i: nat
      ensures Balanced(After(w, e), i)
    {
      assert Balanced(w, i);
      StaysBalanced(w, e, i);
    }
  }

  lemma {:induction false} RunKeepsOneEach(w: World, events: seq<Event>)
    requires OneEach(w) && Run(w, events).Some?
    ensures OneEach(Run(w, events).value)
    decreases |events|
  {
    if events != [] {
      EventKeepsOneEach(w, events[0]);
      RunKeepsOneEach(After(w, events[0]), events[1..]);
    }
  }

  // A wake that took an entry leads to exactly one push or one recorded drop,
  // and once all tasks are done to exactly one note in the log.
  lemma OnePushPerWake(events: seq<Event>, i: nat)
    requires Run(INITIAL, events).Some?
    requires var w := Run(INITIAL, events).value; i < |w.log| && w.log[i].Woke?
    ensures var w := Run(INITIAL, events).value;
            && CarriedBy(w.actors, i) + SettledBy(w.log, i) == 1
            && (Quiet(w) ==> SettledBy(w.log, i) == 1)
  {
    RunKeepsOneEach(INITIAL, events);
    var w := Run(INITIAL, events).value;
    assert Balanced(w, i);
    if Quiet(w) {
      CountNone(w.actors, (actor: Actor) => Cause(actor) == Some(i));
    }
  }

  // ------------------------------------------------------------ pushes add up

  // The event decides that the node is pushed: a manual push, a wake that finds the
  // node connected and auto-push on, a comparison that finds the spec changed.
  predicate Starts(w: World, e: Event, node: nat)
    requires Can(w, e)
  {
    match e
    case Push(n) => n == node
    case Decide(a, go) => go && w.actors[a].node == node
    case Compare(a, changed) => changed && w.actors[a].node == node
    case _ => false
  }

  // A wake that took the entry of the node is given up.
  predicate GivesUp(w: World, e: Event, node: nat)
    requires Can(w, e)
  {
    e.Decide? && !e.go && w.actors[e.actor].node == node
  }

  // A reconcile finds no entry of the node.
  predicate Compares(w: World, e: Event, node: nat)
    requires Can(w, e)
  {
    e == Reconcile(node) && node !in w.pending
  }

  datatype Tally = Tally(started: nat, givenUp: nat, compared: nat)

  function Tallied(w: World, events: seq<Event>, node: nat): Tally
    requires Run(w, events).Some?
    decreases |events|
  {
    if events == [] then Tally(0, 0, 0)
    else
      var e := events[0];
      var t := Tallied(After(w, e), events[1..], node);
      Tally(One(Starts(w, e, node)) + t.started, One(GivesUp(w, e, node)) + t.givenUp,
            One(Compares(w, e, node)) + t.compared)
  }

  function Builds(log: seq<Note>, node: nat): nat {
    Count(log, (note: Note) => note.Built? && note.node == node)
  }

  function Drops(log: seq<Note>, node: nat): nat {
    Count(log, (note: Note) => note.Dropped? && note.node == node)
  }

  function Comparisons(log: seq<Note>, node: nat): nat {
    Count(log, (note: Note) => note.Compared? && note.node == node)
  }

  function Supersedings(log: seq<Note>, node: nat): nat {
    Count(log, (note: Note) => note.Superseded? && note.node == node)
  }

  function BuildsLeft(actors: seq<Actor>, node: nat): nat {
    Count(actors, (actor: Actor) => actor.Cleared? && actor.node == node)
  }

  function PushesLeft(actors: seq<Actor>, node: nat): nat {
    Count(actors, (actor: Actor) => (actor.Pushing? || actor.Cleared?) && actor.node == node)
  }

  function ComparisonsLeft(actors: seq<Actor>, node: nat): nat {
    Count(actors, (actor: Actor) => actor.Comparing? && actor.node == node)
  }

  lemma EventPushes(w: World, e: Event, node: nat)
    requires Can(w, e)
    ensures var w' := After(w, e);
            Builds(w'.log, node) + PushesLeft(w'.actors, node) ==
            Builds(w.log, node) + PushesLeft(w.actors, node) + One(Starts(w, e, node))
  {
    ActorsDelta(w, e, (actor: Actor) => (actor.Pushing? || actor.Cleared?) && actor.node == node);
    LogDelta(w, e, (note: Note) => note.Built? && note.node == node);
  }

  lemma EventDrops(w: World, e: Event, node: nat)
    requires Can(w, e)
    ensures Drops(After(w, e).log, node) == Drops(w.log, node) + One(GivesUp(w, e, node))
  {
    LogDelta(w, e, (note: Note) => note.Dropped? && note.node == node);
  }

  lemma EventCompares(w: World, e: Event, node: nat)
    requires Can(w, e)
    ensures var w' := After(w, e);
            Comparisons(w'.log, node) + ComparisonsLeft(w'.actors, node) ==
            Comparisons(w.log, node) + ComparisonsLeft(w.actors, node) + One(Compares(w, e, node))
  {
    ActorsDelta(w, e, (actor: Actor) => actor.Comparing? && actor.node == node);
    LogDelta(w, e, (note: Note) => note.Compared? && note.node == node);
  }

  lemma EventSupersedes(w: World, e: Event, node: nat)
    requires Can(w, e) && Supersedings(w.log, node) == Builds(w.log, node) + BuildsLeft(w.actors, node)
    ensures var w' := After(w, e); Supersedings(w'.log, node) == Builds(w'.log, node) + BuildsLeft(w'.actors, node)
  {
    ActorsDelta(w, e, (actor: Actor) => actor.Cleared? && actor.node == node);
    LogDelta(w, e, (note: Note) => note.Built? && note.node == node);
    LogDelta(w, e, (note: Note) => note.Superseded? && note.node == node);
  }

  // In every run each spec build of a push comes after one removal of the entry.
  lemma {:induction false} EachPushSupersedes(w: World, events: seq<Event>, node: nat)
    requires Supersedings(w.log, node) == Builds(w.log, node) + BuildsLeft(w.actors, node) && Run(w, events).Some?
    ensures var w' := Run(w, events).value;
            Supersedings(w'.log, node) == Builds(w'.log, node) + BuildsLeft(w'.actors, node)
    decreases |events|
  {
    if events != [] {
      EventSupersedes(w, events[0], node);
      EachPushSupersedes(After(w, events[0]), events[1..], node);
    }
  }

  // In every run the pushes of a node that were decided on are those that built their
  // spec and those that are still on their way, each wake given up is recorded once,
  // and each reconcile that found no entry compares once.
  lemma {:induction false} PushesAddUp(w: World, events: seq<Event>, node: nat)
    requires Run(w, events).Some?
    ensures var w' := Run(w, events).value;
            var t := Tallied(w, events, node);
            && Builds(w'.log, node) + PushesLeft(w'.actors, node) ==
               Builds(w.log, node) + PushesLeft(w.actors, node) + t.started
            && Drops(w'.log, node) == Drops(w.log, node) + t.givenUp
            && Comparisons(w'.log, node) + ComparisonsLeft(w'.actors, node) ==
               Comparisons(w.log, node) + ComparisonsLeft(w.actors, node) + t.compared
    decreases |events|
  {
    if events != [] {
      EventPushes(w, events[0], node);
      EventDrops(w, events[0], node);
      EventCompares(w, events[0], node);
      PushesAddUp(After(w, events[0]), events[1..], node);
    }
  }

  lemma {:induction false} LogGrows(w: World, events: seq<Event>)
    requires Run(w, events).Some?
    ensures w.log <= Run(w, events).value.log
    decreases |events|
  {
    if events != [] {
      LogGrows(After(w, events[0]), events[1..]);
    }
  }

  lemma QuietIsDone(w: World, node: nat)
    requires Quiet(w)
    ensures PushesLeft(w.actors, node) == 0 && ComparisonsLeft(w.actors, node) == 0
  {
    CountNone(w.actors, (actor: Actor) => (actor.Pushing? || actor.Cleared?) && actor.node == node);
    CountNone(w.actors, (actor: Actor) => actor.Comparing? && actor.node == node);
  }

  // Once all tasks are done there are exactly as many spec builds for a node as
  // pushes were decided on, so a comparison without a change leads to none.
  lemma BuiltAsDecided(events: seq<Event>, node: nat)
    requires Run(INITIAL, events).Some? && Quiet(Run(INITIAL, events).value)
    ensures var log := Run(INITIAL, events).value.log;
            Tallied(INITIAL, events, node) == Tally(Builds(log, node), Drops(log, node), Comparisons(log, node))
  {
    PushesAddUp(INITIAL, events, node);
    QuietIsDone(Run(INITIAL, events).value, node);
  }

  // And each of them is built after it was decided on.
  lemma DecidedIsBuilt(w: World, e: Event, events: seq<Event>, node: nat) returns (j: nat)
    requires Can(w, e) && Starts(w, e, node) && Run(After(w, e), events).Some? && Quiet(Run(After(w, e), events).value)
    ensures var log := Run(After(w, e), events).value.log;
            |w.log| <= j < |log| && log[j].Built? && log[j].node == node
  {
    var w1, w2 := After(w, e), Run(After(w, e), events).value;
    MoreBuilds(w, e, events, node);
    LogGrows(w1, events);
    assert w.log <= w1.log;
    j := NewBuild(w.log, w2.log, node);
  }

  lemma MoreBuilds(w: World, e: Event, events: seq<Event>, node: nat)
    requires Can(w, e) && Starts(w, e, node) && Run(After(w, e), events).Some? && Quiet(Run(After(w, e), events).value)
    ensures Builds(Run(After(w, e), events).value.log, node) > Builds(w.log, node)
  {
    EventPushes(w, e, node);
    PushesAddUp(After(w, e), events, node);
    QuietIsDone(Run(After(w, e), events).value, node);
  }

  lemma NewBuild(before: seq<Note>, after: seq<Note>, node: nat) returns (j: nat)
    requires before <= after && Builds(after, node) > Builds(before, node)
    ensures |before| <= j < |after| && after[j].Built? && after[j].node == node
  {
    var p, rest := (note: Note) => note.Built? && note.node == node, after[|before|..];
    assert after == before + rest;
    CountConcat(before, rest, p);
    var i := CountedIsThere(rest, p);
    j := |before| + i;
  }

  predicate AlwaysGoes(events: seq<Event>) {
    forall i :: 0 <= i < |events| && events[i].Decide? ==> events[i].go
  }

  lemma {:induction false} NoneGivenUp(w: World, events: seq<Event>, node: nat)
    requires Run(w, events).Some? && AlwaysGoes(events)
    ensures Tallied(w, events, node).givenUp == 0
    decreases |events|
  {
    if events != [] {
      NoneGivenUp(After(w, events[0]), events[1..], node);
    }
  }

  // While nodes stay connected and auto-push stays on, every deferral is followed by
  // a push of its node.
  lemma DeferredIsPushed(events: seq<Event>, i: nat) returns (j: nat)
    requires Run(INITIAL, events).Some? && AlwaysGoes(events)
    requires var w := Run(INITIAL, events).value; Quiet(w) && i < |w.log| && w.log[i].Deferred?
    ensures var log := Run(INITIAL, events).value.log;
            i < j < |log| && log[j].Built? && log[j].node == log[i].node
  {
    var log := Run(INITIAL, events).value.log;
    var node := log[i].node;
    NoLostDeferral(events, i);
    j :| 0 <= j < |log| && Answers(log[j], j, node, i);
    if log[j].Dropped? {
      BuiltAsDecided(events, node);
      NoneGivenUp(INITIAL, events, node);
      ThereIsCounted(log, (note: Note) => note.Dropped? && note.node == node, j);
      assert false;
    }
  }
}
