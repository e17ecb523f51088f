/**
 The managed cores of one node as a step system: each core is its config file,
 its recovery marker and the child the agent holds, and the environment may
 kill a child or crash the whole node between any two steps.

 File contents are strings. SHA-256 is a free constructor, that is, it has no
 collisions.
 */
module Cores {
  import opened Wrappers

  type Bytes = string

  datatype Digest = Sha256(of: Bytes)

  datatype State = Stopped | Running | Errored

  // `Child(cfg)` is a held child together with the file contents it was
  // launched on.
  datatype Handle = NoChild | Child(cfg: Option<Bytes>)

  // The marker file beside the config.
  datatype MarkerFile = Missing | Garbage | Marker(version: nat, active: bool, sha: Option<Digest>)

  // The last five fields are history: no operation reads them. `launched`
  // collects every config a child was successfully launched on, `launches`
  // counts the launches and `deaths` the children that died on their own, `ran`
  // is the file at the last launch, and `blessed` is the config read by the last
  // MarkActive.
  datatype Core = Core(
    state: State,
    handle: Handle,
    config: Option<Bytes>,
    marker: MarkerFile,
    launched: set<Bytes>,
    launches: nat,
    deaths: nat,
    ran: Option<Bytes>,
    blessed: Option<Bytes>)

  // The cores of a node in the fixed order in which the agent handles them. A
  // core is named by its position.
  type Node = seq<Core>

  // What the node knows about its core binaries: the kinds that have a check
  // command, and the configs that command accepts.
  datatype Binaries = Binaries(checked: set<nat>, accepts: (nat, Bytes) -> bool) {
    predicate Accepts(kind: nat, cfg: Option<Bytes>) {
      kind in checked ==> cfg.Some? && accepts(kind, cfg.value)
    }
  }

  // ---------------------------------------------------------------- recovery

  // Resume is (true, nil), Wait is (false, nil), Refuse is (false, error).
  datatype Verdict = Resume | Wait | Refuse

  const MARKER_VERSION := 1

  function ShouldRecover(c: Core): Verdict {
    match c.marker
    case Missing => Wait
    case Garbage => Refuse
    case Marker(version, active, sha) =>
      if version != MARKER_VERSION || !active then Wait
      else if c.config.None? then Refuse
      else if sha != Some(Sha256(c.config.value)) then Refuse
      else Resume
  }

  // A core resumes on an explicit active marker of version 1 with the hash of the
  // config that is there, and on nothing else; a marker that is missing, inactive or of
  // another version is no error.
  lemma VerdictsMean(c: Core)
    ensures ShouldRecover(c) == Resume <==> c.config.Some? && c.marker == Marker(1, true, Some(Sha256(c.config.value)))
    ensures ShouldRecover(c) == Wait <==>
            c.marker.Missing? || (c.marker.Marker? && (c.marker.version != 1 || !c.marker.active))
  {
  }

  // ----------------------------------------------------------------- actions

  datatype Action =
    | Reap(failed: bool)   // a child dies on its own and is reaped
    | StopIdle             // Stop finds no child
    | StopReap             // the child a Stop asked to exit is reaped
    | Write(bytes: Bytes)  // the config file now holds these bytes
    | Launch               // the core binary is started on the config file
    | StartFails           // a Start gives up
    | MarkInactive
    | MarkActive

  predicate Enabled(bin: Binaries, kind: nat, c: Core, a: Action) {
    match a
    case Reap(_) => c.handle.Child?
    case StopIdle => c.handle.NoChild?
    case StopReap => c.handle.Child?
    case Write(_) => !c.state.Running?
    case Launch => !c.state.Running? && bin.Accepts(kind, c.config)
    case StartFails => !c.state.Running?
    case MarkInactive => true
    case MarkActive => c.config.Some? && c.config.value in c.launched
  }

  function Do(c: Core, a: Action): Core {
    match a
    case Reap(failed) => c.(state := if failed then Errored else Stopped, handle := NoChild, deaths := c.deaths + 1)
    case StopIdle => c.(state := Stopped)
    case StopReap => c.(state := Stopped, handle := NoChild)
    case Write(bytes) => c.(config := Some(bytes))
    case Launch =>
      c.(state := Running, handle := Child(c.config), launches := c.launches + 1, ran := c.config,
      launched := c.launched + (if c.config.Some? then {c.config.value} else {}))
    case StartFails => c.(state := Errored)
    case MarkInactive => c.(marker := Marker(MARKER_VERSION, false, None))
    case MarkActive =>
      if c.config.None? then c
      else c.(marker := Marker(MARKER_VERSION, true, Some(Sha256(c.config.value))), blessed := c.config)
  }

  // A node reboot: every child is gone, the files stay.
  function Rebooted(n: Node): Node {
    seq(|n|, k requires 0 <= k < |n| => n[k].(state := Stopped, handle := NoChild))
  }

  // -------------------------------------------------------------------- runs

  predicate Fresh(c: Core) {
    c.state.Stopped? && c.handle.NoChild? && c.marker.Missing? && c.launched == {} && c.ran.None? && c.blessed.None?
  }

  ghost predicate Acts(bin: Binaries, n: Node, k: nat, a: Action, n': Node) {
    k < |n| && Enabled(bin, k, n[k], a) && n' == n[k := Do(n[k], a)]
  }

  ghost predicate Next(bin: Binaries, n: Node, n': Node) {
    || (exists k: nat, a :: Acts(bin, n, k, a, n'))
    || n' == Rebooted(n)
  }

  // A run from a fresh installation, its first state first.
  ghost predicate IsRun(bin: Binaries, run: seq<Node>) {
    && |run| > 0
    && if |run| == 1 then FreshNode(run[0])
       else IsRun(bin, run[..|run| - 1]) && Next(bin, run[|run| - 2], run[|run| - 1])
  }

  ghost predicate FreshNode(n: Node) {
    forall k: nat :: k < |n| ==> Fresh(n[k])
  }

  lemma Extend(bin: Binaries, run: seq<Node>, n: Node)
    requires IsRun(bin, run)
    requires Next(bin, run[|run| - 1], n)
    ensures IsRun(bin, run + [n])
  {
    assert (run + [n])[..|run|] == run;
  }

  lemma {:induction false} Prefix(bin: Binaries, run: seq<Node>, i: nat)
    requires IsRun(bin, run)
    requires i < |run|
    ensures IsRun(bin, run[..i + 1])
  {
    var init := run[..|run| - 1];
    if i == |run| - 1 {
      assert run[..i + 1] == run;
    } else {
      Prefix(bin, init, i);
      assert init[..i + 1] == run[..i + 1];
    }
  }

  // -------------------------------------------------------------- invariants

  // The central fact is that a running child runs what is on disk.
  ghost predicate CoreInv(bin: Binaries, k: nat, c: Core) {
    && (c.state.Running? <==> c.handle.Child?)
    && (c.handle.Child? ==> c.config == c.handle.cfg == c.ran && bin.Accepts(k, c.ran))
    && (c.ran.Some? ==> c.ran.value in c.launched)
    && (forall b :: b in c.launched ==> bin.Accepts(k, Some(b)))
    && (c.blessed.Some? ==> c.blessed.value in c.launched)
    && (c.marker.Marker? && c.marker.active ==>
          c.blessed.Some? && c.marker.sha == Some(Sha256(c.blessed.value)))
  }

  ghost predicate NodeInv(bin: Binaries, n: Node) {
    forall k: nat :: k < |n| ==> CoreInv(bin, k, n[k])
  }

  lemma ActionKeepsInvariant(bin: Binaries, k: nat, c: Core, a: Action)
    requires CoreInv(bin, k, c)
    requires Enabled(bin, k, c, a)
    ensures CoreInv(bin, k, Do(c, a))
  {
  }

  lemma StepKeepsInvariant(bin: Binaries, n: Node, n': Node)
    requires NodeInv(bin, n)
    requires Next(bin, n, n')
    ensures NodeInv(bin, n') && |n'| == |n|
  {
    if n' != Rebooted(n) {
      var k: nat, a :| Acts(bin, n, k, a, n');
      ActionKeepsInvariant(bin, k, n[k], a);
    }
  }

  lemma {:induction false} RunKeepsInvariant(bin: Binaries, run: seq<Node>, i: nat)
    requires IsRun(bin, run)
    requires i < |run|
    ensures NodeInv(bin, run[i]) && |run[i]| == |run[0]|
  {
    Prefix(bin, run, i);
    if i > 0 {
      RunKeepsInvariant(bin, run, i - 1);
      StepKeepsInvariant(bin, run[i - 1], run[i]);
    }
  }

  // `launched` really is history: each config in it was under a held child at
  // some earlier point of the run.
  lemma {:induction false} LaunchedHeldAChild(bin: Binaries, run: seq<Node>, k: nat, b: Bytes) returns (j: nat)
    requires IsRun(bin, run)
    requires k < |run[|run| - 1]| && b in run[|run| - 1][k].launched
    ensures j < |run| && k < |run[j]| && run[j][k].handle == Child(Some(b))
  {
    var n := |run| - 1;
    var init := run[..n];
    if n > 0 && k < |run[n - 1]| && b in run[n - 1][k].launched {
      j := LaunchedHeldAChild(bin, init, k, b);
    } else {
      j := n;
      if n > 0 && run[n] != Rebooted(run[n - 1]) {
        var k': nat, a :| Acts(bin, run[n - 1], k', a, run[n]);
      }
    }
  }

  // -------------------------------------------------------------- main result

  // Whenever the node crashes, in whatever step of whatever operation, a reboot
  // resumes a core only on the config of its last MarkActive, and that config
  // was running under this agent before and passes the core's check.
  lemma CrashSafety(bin: Binaries, run: seq<Node>, i: nat, k: nat)
    requires IsRun(bin, run)
    requires i < |run| && k < |run[i]|
    requires ShouldRecover(run[i][k]) == Resume
    ensures run[i][k].config.Some? && run[i][k].config == run[i][k].blessed
    ensures bin.Accepts(k, run[i][k].config)
    ensures exists j: nat :: j <= i && k < |run[j]| && run[j][k].handle == Child(run[i][k].config)
  {
    RunKeepsInvariant(bin, run, i);
    Prefix(bin, run, i);
    var j := LaunchedHeldAChild(bin, run[..i + 1], k, run[i][k].config.value);
  }

  // A crash is possible at every point, and what follows is a run again.
  lemma CrashAnywhere(bin: Binaries, run: seq<Node>, i: nat)
    requires IsRun(bin, run)
    requires i < |run|
    ensures IsRun(bin, run[..i + 1] + [Rebooted(run[i])])
    ensures forall k: nat :: k < |run[i]| ==>
              ShouldRecover(Rebooted(run[i])[k]) == ShouldRecover(run[i][k])
  {
    Prefix(bin, run, i);
    Extend(bin, run[..i + 1], Rebooted(run[i]));
  }
}
