/**
 The lifecycle of one core process under any interleaving of Start and Stop
 callers, dying children and the reaper goroutines. Each step below is one
 critical section of the process mutex, one child exit, one close of a wait
 channel, or the return of one Stop.
 */
module Lifecycle {
  import opened Wrappers
  import Cores

  // A child that was launched, with the config it was launched on. `asked` records that some Stop captured it while
  // it was the current one; `reaped` that its reaper has had the lock; `closed`
  // that its wait channel is closed.
  datatype Child = Child(cfg: Option<Cores.Bytes>, alive: bool, failed: bool, asked: bool, reaped: bool, closed: bool)

  // A Stop that captured the wait channel of a child.
  datatype Stopper = Waiting(child: nat) | Returned(child: nat)

  // `cmd` and `waitCh` name children by launch order.
  datatype Proc = Proc(
    state: Cores.State,
    cmd: Option<nat>,
    waitCh: nat,
    pid: nat,
    stopping: bool,
    children: seq<Child>,
    stoppers: seq<Stopper>)

  const INITIAL := Proc(Cores.Stopped, None, 0, 0, false, [], [])

  datatype Event =
    | StartNoop
    | StartFail
    | StartOk(pid: nat, cfg: Option<Cores.Bytes>)
    | Die(child: nat, failed: bool)
    | Reap(child: nat)
    | Close(child: nat)
    | StopIdle
    | StopAsk
    | StopReturn(stopper: nat)

  predicate Can(p: Proc, e: Event) {
    match e
    case StartNoop => p.state.Running?
    case StartFail => !p.state.Running?
    case StartOk(pid, _) => !p.state.Running? && pid > 0
    case Die(i, _) => i < |p.children| && p.children[i].alive
    case Reap(i) => i < |p.children| && !p.children[i].alive && !p.children[i].reaped
    case Close(i) => i < |p.children| && p.children[i].reaped && !p.children[i].closed
    case StopIdle => p.cmd.None?
    case StopAsk => p.cmd.Some? && p.cmd.value < |p.children|
    case StopReturn(w) =>
      w < |p.stoppers| && p.stoppers[w].Waiting? && p.stoppers[w].child < |p.children| &&
      p.children[p.stoppers[w].child].closed
  }

  function After(p: Proc, e: Event): Proc
    requires Can(p, e)
  {
    match e
    case StartNoop => p
    case StartFail => p.(state := Cores.Errored)
    case StartOk(pid, cfg) =>
      var n := |p.children|;
      p.(state := Cores.Running, cmd := Some(n), waitCh := n, pid := pid, stopping := false,
      children := p.children + [Child(cfg, true, false, false, false, false)])
    case Die(i, failed) =>
      p.(children := p.children[i := p.children[i].(alive := false, failed := failed)])
    case Reap(i) =>
      var q := p.(children := p.children[i := p.children[i].(reaped := true)]);
      if p.cmd != Some(i) then q
      else
        q.(state := if p.stopping then Cores.Stopped else if p.children[i].failed then Cores.Errored else Cores.Stopped,
        cmd := None, pid := 0)
    case Close(i) =>
      p.(children := p.children[i := p.children[i].(closed := true)])
    case StopIdle => p.(state := Cores.Stopped)
    case StopAsk =>
      var i := p.cmd.value;
      p.(stopping := true, stoppers := p.stoppers + [Waiting(p.waitCh)],
      children := p.children[i := p.children[i].(asked := true)])
    case StopReturn(w) =>
      p.(stoppers := p.stoppers[w := Returned(p.stoppers[w].child)])
  }

  // The process after a sequence of events, or nothing if one of them cannot
  // happen.
  function Run(p: Proc, events: seq<Event>): Option<Proc>
    decreases |events|
  {
    if events == [] then Some(p)
    else if !Can(p, events[0]) then None
    else Run(After(p, events[0]), events[1..])
  }

  ghost predicate Inv(p: Proc) {
    && (p.state.Running? <==> p.cmd.Some?)
    && (p.pid != 0 <==> p.cmd.Some?)
    && (p.cmd.Some? ==>
          && p.cmd.value < |p.children|
          && p.waitCh == p.cmd.value
          && !p.children[p.cmd.value].reaped
          && (p.stopping <==> p.children[p.cmd.value].asked))
    && (forall i :: 0 <= i < |p.children| ==> ChildInv(p, i))
    && (forall w :: 0 <= w < |p.stoppers| ==> StopperInv(p, p.stoppers[w]))
  }

  ghost predicate ChildInv(p: Proc, i: nat)
    requires i < |p.children|
  {
    var c := p.children[i];
    && (!c.reaped ==> p.cmd == Some(i))
    && (c.reaped ==> !c.alive)
    && (c.closed ==> c.reaped)
  }

  ghost predicate StopperInv(p: Proc, s: Stopper) {
    && s.child < |p.children|
    && p.children[s.child].asked
    && (s.Returned? ==> p.children[s.child].closed)
  }

  lemma ChildStays(p: Proc, e: Event, i: nat)
    requires Inv(p) && Can(p, e) && i < |After(p, e).children|
    ensures ChildInv(After(p, e), i)
  {
    assert i < |p.children| ==> ChildInv(p, i);
  }

  lemma StopperStays(p: Proc, e: Event, w: nat)
    requires Inv(p) && Can(p, e) && w < |After(p, e).stoppers|
    ensures StopperInv(After(p, e), After(p, e).stoppers[w])
  {
    assert w < |p.stoppers| ==> StopperInv(p, p.stoppers[w]);
  }

  lemma EventKeepsInv(p: Proc, e: Event)
    requires Inv(p) && Can(p, e)
    ensures Inv(After(p, e))
  {
    var q := After(p, e);
    forall i | 0 <= i < |q.children|
      ensures ChildInv(q, i)
    {
      ChildStays(p, e, i);
    }
    forall w | 0 <= w < |q.stoppers|
      ensures StopperInv(q, q.stoppers[w])
    {
      StopperStays(p, e, w);
    }
  }

  lemma {:induction false} RunKeepsInv(p: Proc, events: seq<Event>)
    requires Inv(p) && Run(p, events).Some?
    ensures Inv(Run(p, events).value)
    decreases |events|
  {
    if events != [] {
      EventKeepsInv(p, events[0]);
      RunKeepsInv(After(p, events[0]), events[1..]);
    }
  }

  // The lifecycle in every reachable state: running means holding a child with a
  // pid, no two children are alive, a live child is the held one, and a Stop has
  // returned only if the child it captured is dead and reaped.
  lemma LifecycleSafety(events: seq<Event>)
    requires Run(INITIAL, events).Some?
    ensures var p := Run(INITIAL, events).value;
            && (p.state.Running? <==> p.cmd.Some?)
            && (p.state.Running? <==> p.pid != 0)
            && (forall i, j ::
                  0 <= i < |p.children| && 0 <= j < |p.children| && p.children[i].alive && p.children[j].alive ==>
                    i == j)
            && (forall i :: 0 <= i < |p.children| && p.children[i].alive ==> p.cmd == Some(i))
            && (forall w :: 0 <= w < |p.stoppers| && p.stoppers[w].Returned? ==>
                  p.stoppers[w].child < |p.children| &&
                  p.children[p.stoppers[w].child].reaped && !p.children[p.stoppers[w].child].alive)
  {
    RunKeepsInv(INITIAL, events);
    var p := Run(INITIAL, events).value;
    forall i | 0 <= i < |p.children| && p.children[i].alive
      ensures p.cmd == Some(i)
    {
      assert ChildInv(p, i);
    }
    forall w | 0 <= w < |p.stoppers| && p.stoppers[w].Returned?
      ensures p.stoppers[w].child < |p.children|
      ensures p.children[p.stoppers[w].child].reaped && !p.children[p.stoppers[w].child].alive
    {
      assert StopperInv(p, p.stoppers[w]);
      assert ChildInv(p, p.stoppers[w].child);
    }
  }

  // The reaper reports a crash exactly when the child failed and nobody had
  // asked that very child to stop; a request for an earlier child never hides it.
  lemma CrashIsReported(events: seq<Event>, i: nat)
    requires Run(INITIAL, events).Some?
    requires Can(Run(INITIAL, events).value, Reap(i))
    ensures var p := Run(INITIAL, events).value;
            After(p, Reap(i)).state.Errored? <==> p.children[i].failed && !p.children[i].asked
  {
    RunKeepsInv(INITIAL, events);
    assert ChildInv(Run(INITIAL, events).value, i);
  }

  // What a Start or a Stop that is done at once leaves behind, in every reachable state:
  // a failed Start an errored process and an idle Stop a stopped one, both without a
  // child, and a successful Start the only live child, on the new config.
  lemma CallsLeave(events: seq<Event>, e: Event)
    requires Run(INITIAL, events).Some? && Can(Run(INITIAL, events).value, e)
    ensures var p, q := Run(INITIAL, events).value, After(Run(INITIAL, events).value, e);
            && (e.StartNoop? ==> p.state.Running? && q == p)
            && (e.StartFail? ==> q.state.Errored? && q.cmd.None? && NoneAlive(q))
            && (e.StopIdle? ==> q.state.Stopped? && q.cmd.None? && NoneAlive(q))
            && (e.StartOk? ==>
                  && q.state.Running? && q.cmd == Some(|p.children|) && q.pid == e.pid
                  && q.children == p.children + [Child(e.cfg, true, false, false, false, false)]
                  && NoneAlive(p) && !q.stopping)
  {
    RunKeepsInv(INITIAL, events);
    var p := Run(INITIAL, events).value;
    forall i | 0 <= i < |p.children| && p.children[i].alive
      ensures p.cmd == Some(i)
    {
      assert ChildInv(p, i);
    }
  }

  predicate NoneAlive(p: Proc) {
    forall i :: 0 <= i < |p.children| ==> !p.children[i].alive
  }

  // ---------------------------------------------------------------- refinement

  // The same state, and the held child runs the same config.
  predicate Matches(p: Proc, c: Cores.Core) {
    && p.state == c.state
    && (p.cmd.Some? ==> p.cmd.value < |p.children| && c.handle == Cores.Handle.Child(p.children[p.cmd.value].cfg))
    && (p.cmd.None? ==> c.handle.NoChild?)
  }

  // Each event is one action of the step system in module Cores or changes
  // nothing there, so reasoning about cores with atomic Start, Stop and reap is
  // sound for the real interleavings.
  lemma RefinesCores(bin: Cores.Binaries, k: nat, p: Proc, e: Event, c: Cores.Core) returns (a: Option<Cores.Action>)
    requires Inv(p) && Can(p, e) && Matches(p, c)
    requires e.StartOk? ==> bin.Accepts(k, c.config) && e.cfg == c.config
    ensures a.Some? ==> Cores.Enabled(bin, k, c, a.value)
    ensures Matches(After(p, e), if a.Some? then Cores.Do(c, a.value) else c)
  {
    a := match e
      case StartFail => Some(Cores.StartFails)
      case StartOk(_, _) => Some(Cores.Launch)
      case StopIdle => Some(Cores.Action.StopIdle)
      case Reap(i) =>
        if p.cmd != Some(i) then None
        else if p.stopping then Some(Cores.StopReap)
        else Some(Cores.Action.Reap(p.children[i].failed))
      case _ => None;
  }
}
