/**
 The agent's operations on its cores: Process.Start, Stop and Apply, the
 recovery marker, and the node-level Apply, Start, Stop and reboot.

 Every change of a core goes through `Act`, so the ghost field `run` holds each
 state the node passed through, in order, and is a run of the step system in
 module Cores. Children may die at each call of `Interfere`. File operations may
 fail; each such failure is counted in the ghost field `faults`. A check command may
 fail for reasons of its own and so may the launch of a core; these are counted in
 `glitches`.
 */
module Agents {
  import opened Counting
  import opened Cores
  import opened Picking
  import opened Wrappers

  // ------------------------------------------------------------------- input

  datatype Inbound = Inbound(core: string, kind: string, tag: string)

  function CoreOf(core: string): string {
    if core == "xray" then "xray"
    else if core == "hysteria" then "hysteria"
    else "singbox"
  }

  function CoreOfInbound(ib: Inbound): string {
    if ib.kind == "hysteria2" && (ib.core == "" || ib.core == "singbox") then "hysteria"
    else CoreOf(ib.core)
  }

  function FilterCore(inbounds: seq<Inbound>, kind: string): seq<Inbound> {
    if inbounds == [] then []
    else (if CoreOfInbound(inbounds[0]) == kind then [inbounds[0]] else []) + FilterCore(inbounds[1..], kind)
  }

  // The three cores, and which inbounds are whose.
  lemma CoreOfInboundMeans(ib: Inbound)
    ensures CoreOfInbound(ib) == "xray" <==> ib.core == "xray"
    ensures CoreOfInbound(ib) == "hysteria" <==>
            ib.core == "hysteria" || (ib.kind == "hysteria2" && (ib.core == "" || ib.core == "singbox"))
    ensures CoreOfInbound(ib) == "singbox" <==>
            && ib.core != "xray" && ib.core != "hysteria"
            && (ib.kind == "hysteria2" ==> ib.core != "" && ib.core != "singbox")
    ensures CoreOfInbound(ib) in {"xray", "hysteria", "singbox"}
  {
  }

  // A core gets its inbounds in the order of the request, and nothing else.
  lemma {:induction false} FilterPicks(inbounds: seq<Inbound>, kind: string)
    ensures Picks(inbounds, (ib: Inbound) => CoreOfInbound(ib) == kind, (ib: Inbound) => ib,
                  FilterCore(inbounds, kind))
  {
    if inbounds != [] {
      FilterPicks(inbounds[1..], kind);
      PicksNext(inbounds, (ib: Inbound) => CoreOfInbound(ib) == kind, (ib: Inbound) => ib,
                FilterCore(inbounds[1..], kind));
    }
  }

  // Repetitions are kept as well.
  lemma {:induction false} FilterKeepsCopies(inbounds: seq<Inbound>, kind: string, ib: Inbound)
    ensures multiset(FilterCore(inbounds, kind))[ib] == if CoreOfInbound(ib) == kind then multiset(inbounds)[ib] else 0
  {
    if inbounds != [] {
      assert inbounds == [inbounds[0]] + inbounds[1..];
      FilterKeepsCopies(inbounds[1..], kind, ib);
    }
  }

  // Every inbound of the request goes to exactly one of the three cores.
  lemma EveryInboundHasACore(inbounds: seq<Inbound>)
    ensures multiset(FilterCore(inbounds, "xray")) + multiset(FilterCore(inbounds, "hysteria"))
            + multiset(FilterCore(inbounds, "singbox")) == multiset(inbounds)
  {
    forall ib: Inbound
      ensures multiset(FilterCore(inbounds, "xray"))[ib] + multiset(FilterCore(inbounds, "hysteria"))[ib]
              + multiset(FilterCore(inbounds, "singbox"))[ib] == multiset(inbounds)[ib]
    {
      FilterKeepsCopies(inbounds, "xray", ib);
      FilterKeepsCopies(inbounds, "hysteria", ib);
      FilterKeepsCopies(inbounds, "singbox", ib);
      CoreOfInboundMeans(ib);
    }
  }

  // The config builder of every core, and the validator of those without a check
  // command.
  datatype Builders = Builders(
    build: (string, seq<Inbound>) -> Option<Bytes>,
    validates: (string, Bytes) -> bool)

  // --------------------------------------------------------------- relations

  // c' is c, or c after its child died.
  predicate Survives(c: Core, c': Core) {
    || c' == c
    || (c.state.Running? && !c'.state.Running? &&
        c' == c.(state := c'.state, handle := NoChild, deaths := c.deaths + 1))
  }

  predicate SurviveBut(n: Node, n': Node, k: nat) {
    |n'| == |n| && forall j :: 0 <= j < |n| && j != k ==> Survives(n[j], n'[j])
  }

  predicate AllSurvive(n: Node, n': Node) {
    |n'| == |n| && forall j :: 0 <= j < |n| ==> Survives(n[j], n'[j])
  }

  // The recovery marker and its history are as they were.
  predicate SameMarker(c: Core, c': Core) {
    c'.marker == c.marker && c'.blessed == c.blessed && c'.launches >= c.launches
  }

  // Between c and c' the core was launched, and what it runs or last ran is
  // what is in its file now.
  predicate Relaunched(c: Core, c': Core) {
    c'.launches > c.launches && c'.ran == c'.config
  }

  // The config a core holds once cfg is applied: an empty cfg means "as is".
  function Installed(current: Option<Bytes>, cfg: Bytes): Option<Bytes> {
    if cfg == "" then current else Some(cfg)
  }

  // c was stopped for good: its config stays and its marker is inactive.
  predicate Settled(c: Core, c': Core) {
    && c' == c.(state := Stopped, handle := NoChild, deaths := c'.deaths, marker := Marker(MARKER_VERSION, false, None))
    && c'.deaths >= c.deaths
  }

  // cfg was installed and launched, and a reboot resumes it.
  predicate Delivered(c: Core, c': Core, cfg: Bytes) {
    c'.config == Installed(c.config, cfg) && Relaunched(c, c') && ShouldRecover(c') == Resume
  }

  // A failed swap put the previous file back, and left the marker alone.
  predicate Reverted(c: Core, c': Core, cfg: Bytes) {
    && SameMarker(c, c')
    && (c.config.Some? ==> c'.config == c.config)
    && (c.config.None? ==> c'.config.None? || c'.config == Some(cfg))
  }

  // An obsolete core after a failed apply: a core that was stopped is started
  // again on its old file or reported lost, and a core that runs may recover.
  predicate Restored(c: Core, c': Core, stopped: bool, lost: bool) {
    && c'.config == c.config
    && (!stopped && !c.state.Running? ==> c' == c)
    && (stopped && !lost ==> Relaunched(c, c'))
    && (lost ==> !c'.state.Running?)
    && (c'.state.Running? && c'.config.Some? ==> ShouldRecover(c') == Resume)
  }

  // A core across a reboot: it comes back only on a matching active marker.
  predicate Resumed(c: Core, c': Core) {
    if ShouldRecover(c) != Resume then c'.handle.NoChild? && c'.launches == c.launches
    else if c'.launches > c.launches then c'.ran == c.config == c.blessed
    else c'.state.Errored?
  }

  // c' is c, possibly with its marker activated while it ran, or after its death.
  predicate MarkedAt(c: Core, c': Core) {
    Survives(c, c') || (c.state.Running? && Survives(Do(c, MarkActive), c'))
  }

  // The same with file and marker unchanged.
  predicate Recovered(c: Core, c': Core) {
    SameMarker(c, c') && c'.config == c.config && Resumed(c, c')
  }

  lemma RecoveredSurvives(c: Core, c': Core, c'': Core)
    requires Recovered(c, c') && Survives(c', c'')
    ensures Recovered(c, c'')
  {
  }

  // The config wanted for a core, if any.
  function PlanFor(kind: string, builders: Builders, inbounds: seq<Inbound>): Option<Bytes> {
    var mine := FilterCore(inbounds, kind);
    if mine == [] then None else builders.build(kind, mine)
  }

  function Plan(kinds: seq<string>, builders: Builders, inbounds: seq<Inbound>): seq<Option<Bytes>> {
    seq(|kinds|, k requires 0 <= k < |kinds| => PlanFor(kinds[k], builders, inbounds))
  }

  lemma PlanIsComplete(kinds: seq<string>, builders: Builders, inbounds: seq<Inbound>, configs: seq<Option<Bytes>>)
    requires |configs| == |kinds|
    requires forall k :: 0 <= k < |kinds| ==> configs[k] == PlanFor(kinds[k], builders, inbounds)
    ensures configs == Plan(kinds, builders, inbounds)
  {
  }

  // What a manager's Validate says: the check command decides where there is one, and
  // an empty config means "as is".
  predicate Validates(bin: Binaries, builders: Builders, kind: string, k: nat, cfg: Bytes) {
    if k in bin.checked then cfg == "" || bin.accepts(k, cfg) else builders.validates(kind, cfg)
  }

  // The core has no inbounds, or a config for them can be built and is valid.
  predicate Sound(bin: Binaries, builders: Builders, kind: string, k: nat, inbounds: seq<Inbound>) {
    var mine := FilterCore(inbounds, kind);
    mine == [] || (builders.build(kind, mine).Some? &&
                   Validates(bin, builders, kind, k, builders.build(kind, mine).value))
  }

  // Outcome of a successful Apply: each wanted core got its config, and each
  // other core is stopped with an inactive marker.
  predicate Converged(configs: seq<Option<Bytes>>, n: Node, n': Node) {
    && |n| == |n'| == |configs|
    && forall k :: 0 <= k < |n| ==>
         if configs[k].Some? then Delivered(n[k], n'[k], configs[k].value) else Settled(n[k], n'[k])
  }

  // Outcome of an Apply that failed at core `at`, when no file operation failed.
  predicate FailureShape(configs: seq<Option<Bytes>>, n: Node, n': Node, at: nat, stopped: set<nat>, lost: set<nat>) {
    && |n| == |n'| == |configs|
    && at < |n| && configs[at].Some?
    && lost <= stopped
    && forall k :: 0 <= k < |n| ==> FailedAt(configs[k], n[k], n'[k], k, at, stopped, lost)
  }

  // One core of it: an obsolete one was brought back, the cores before the failing
  // one have the new config, that one is reverted and those after it are untouched.
  predicate FailedAt(cfg: Option<Bytes>, c: Core, c': Core, k: nat, at: nat, stopped: set<nat>, lost: set<nat>) {
    if cfg.None? then BroughtBack(c, c', k in stopped, k in lost) else WantedAt(cfg.value, c, c', k, at)
  }

  predicate WantedAt(cfg: Bytes, c: Core, c': Core, k: nat, at: nat) {
    if k < at then Delivered(c, c', cfg)
    else if k == at then Reverted(c, c', cfg)
    else Survives(c, c')
  }

  // The same from the point on where the obsolete cores are down.
  predicate UndoneAt(cfg: Option<Bytes>, c: Core, c': Core, k: nat, at: nat, stopped: set<nat>, lost: set<nat>) {
    if cfg.None? then Restored(c, c', k in stopped, k in lost) else WantedAt(cfg.value, c, c', k, at)
  }

  predicate AppliedAt(cfg: Option<Bytes>, c: Core, c': Core) {
    if cfg.Some? then Delivered(c, c', cfg.value) else c' == c
  }

  lemma FailureComposes(cfg: Option<Bytes>, c: Core, halted: Core, c': Core, k: nat, at: nat,
                        stopped: set<nat>, lost: set<nat>)
    requires UndoneAt(cfg, halted, c', k, at, stopped, lost)
    requires if cfg.Some? then Survives(c, halted) else Settled(c, halted)
    requires k in stopped ==> c.state.Running?
    requires cfg.None? && c.state.Running? && k !in stopped ==> halted.deaths > c.deaths
    requires lost <= stopped
    ensures FailedAt(cfg, c, c', k, at, stopped, lost)
  {
  }

  // An obsolete core from before to after a failed Apply. One that ran and is
  // not among the stopped died on its own.
  predicate BroughtBack(c: Core, c': Core, stopped: bool, lost: bool) {
    && c'.config == c.config
    && (stopped ==> c.state.Running?)
    && (c.state.Running? && !stopped ==> c'.deaths > c.deaths)
    && (stopped && !lost ==> Relaunched(c, c'))
    && (lost || !stopped ==> !c'.state.Running?)
    && (c'.state.Running? && c'.config.Some? ==> ShouldRecover(c') == Resume)
  }

  // After a successful Apply a reboot resumes exactly the cores with inbounds,
  // each on the config just applied.
  lemma RecoveryRoundTrip(kinds: seq<string>, builders: Builders, inbounds: seq<Inbound>, n: Node, n': Node, k: nat)
    requires Converged(Plan(kinds, builders, inbounds), n, n') && k < |kinds|
    requires FilterCore(inbounds, kinds[k]) != [] ==> Plan(kinds, builders, inbounds)[k].Some?
    ensures ShouldRecover(n'[k]) == Resume <==> FilterCore(inbounds, kinds[k]) != []
    ensures ShouldRecover(n'[k]) == Resume ==>
              var cfg := builders.build(kinds[k], FilterCore(inbounds, kinds[k])).value;
              n'[k].config == n'[k].ran == Installed(n[k].config, cfg)
    ensures ShouldRecover(n'[k]) != Resume ==> n'[k].handle.NoChild?
  {
    var plan := Plan(kinds, builders, inbounds);
    if plan[k].Some? {
      assert Delivered(n[k], n'[k], plan[k].value);
    } else {
      assert Settled(n[k], n'[k]);
    }
  }

  // A core from before a successful Apply to after a reboot that follows it.
  ghost predicate CameBack(builders: Builders, kind: string, inbounds: seq<Inbound>, c: Core, applied: Core, c': Core) {
    var mine := FilterCore(inbounds, kind);
    if mine == [] then c'.handle.NoChild? && c'.launches == applied.launches && c'.config == c.config
    else
      && builders.build(kind, mine).Some?
      && c'.config == Installed(c.config, builders.build(kind, mine).value)
      && if c'.launches > applied.launches then c'.ran == c'.config else c'.state.Errored?
  }

  // ----------------------------------------------------------------- results

  datatype CoreOutcome =
    | Swapped
    | Untouched        // refused before the process was stopped
    | Failed           // stopped, and the previous process is not back
    | RolledBack       // stopped, and the previous config was started again

  // `stopped` are the obsolete cores that were running when they were stopped,
  // and `lost` are those of them whose restart failed.
  datatype ApplyResult =
    | Applied
    | Rejected
    | MarkFailed
    | ApplyFailed(at: nat, stopped: set<nat>, lost: set<nat>)

  class Agent {
    const bin: Binaries
    const builders: Builders
    const kinds: seq<string>
    var node: Node
    ghost var run: seq<Node>
    ghost var faults: nat
    ghost var glitches: nat

    ghost predicate Valid()
      reads this
    {
      IsRun(bin, run) && run[|run| - 1] == node && |node| == |kinds|
    }

    // The history kept so far stays.
    twostate predicate Continues()
      reads this
    {
      Valid() && old(run) <= run && old(faults) <= faults && old(glitches) <= glitches
    }

    constructor (bin: Binaries, builders: Builders, kinds: seq<string>, files: map<string, Bytes>)
      ensures Valid() && run == [node] && |node| == |kinds|
      ensures forall k :: 0 <= k < |node| ==>
                && node[k].config == (if kinds[k] in files then Some(files[kinds[k]]) else None)
                && node[k].handle.NoChild? && ShouldRecover(node[k]) == Wait
      ensures this.bin == bin && this.builders == builders && this.kinds == kinds
    {
      this.bin, this.builders, this.kinds := bin, builders, kinds;
      var n := seq(|kinds|, k requires 0 <= k < |kinds| =>
        var file := if kinds[k] in files then Some(files[kinds[k]]) else None;
        Core(Stopped, NoChild, file, Missing, {}, 0, 0, None, None));
      this.node := n;
      this.run, this.faults, this.glitches := [n], 0, 0;
    }

    lemma Invariant()
      requires Valid()
      ensures forall k: nat :: k < |node| ==> CoreInv(bin, k, node[k])
    {
      RunKeepsInvariant(bin, run, |run| - 1);
    }

    // ------------------------------------------------------------ primitives

    method Act(k: nat, a: Action)
      requires Valid() && k < |node| && Enabled(bin, k, node[k], a)
      modifies this`node, this`run
      ensures Valid() && run == old(run) + [node]
      ensures node == old(node)[k := Do(old(node)[k], a)]
    {
      ghost var before := node;
      node := node[k := Do(node[k], a)];
      assert Acts(bin, before, k, a, node);
      Extend(bin, run, node);
      run := run + [node];
    }

    // Any children die.
    method Interfere()
      requires Valid()
      modifies this`node, this`run
      ensures Continues()
      ensures AllSurvive(old(node), node)
    {
      for k := 0 to |node|
        invariant Continues() && |node| == |old(node)|
        invariant forall j :: 0 <= j < k ==> Survives(old(node)[j], node[j])
        invariant forall j :: k <= j < |node| ==> old(node)[j] == node[j]
      {
        var dies: bool := *;
        if dies && node[k].handle.Child? {
          Invariant();
          var failed: bool := *;
          Act(k, Reap(failed));
        }
      }
    }

    // os.WriteFile: truncates and then fills the file, so a crash or a failure
    // can leave any bytes behind.
    method WriteInPlace(k: nat, bytes: Bytes) returns (ok: bool)
      requires Valid() && k < |node| && !node[k].state.Running?
      modifies this`node, this`run, this`faults, this`glitches
      ensures Continues()
      ensures node == old(node)[k := old(node)[k].(config := node[k].config)]
      ensures ok ==> node[k].config == Some(bytes)
      ensures !ok ==> faults > old(faults)
    {
      var created: bool := *;
      if !created {
        faults := faults + 1;
        return false;
      }
      var partial: Bytes := *;
      Act(k, Write(partial));
      var written: bool := *;
      if !written {
        faults := faults + 1;
        return false;
      }
      Act(k, Write(bytes));
      ok := true;
    }

    // The check command, which may also fail for reasons of its own. A core
    // without one is not checked.
    method Check(k: nat, cfg: Option<Bytes>) returns (passed: bool)
      modifies this`glitches
      ensures passed ==> bin.Accepts(k, cfg) && glitches == old(glitches)
      ensures !passed && bin.Accepts(k, cfg) ==> k in bin.checked && glitches > old(glitches)
      ensures glitches >= old(glitches)
    {
      var ran: bool := *;
      if k in bin.checked && !ran {
        glitches := glitches + 1;
        return false;
      }
      passed := bin.Accepts(k, cfg);
    }

    // --------------------------------------------------------------- process

    method Stop(k: nat)
      requires Valid() && k < |node|
      modifies this`node, this`run
      ensures Continues()
      ensures SurviveBut(old(node), node, k)
      ensures node[k] == old(node)[k].(state := Stopped, handle := NoChild, deaths := node[k].deaths)
      ensures node[k].deaths >= old(node)[k].deaths
    {
      Interfere();
      Invariant();
      if node[k].handle.NoChild? {
        Act(k, StopIdle);
      } else {
        Act(k, StopReap);
      }
      Interfere();
    }

    // The part of Start that runs when the core is down. The lock is held, and
    // the core has no child to lose.
    method StartDown(k: nat, cfg: Bytes) returns (ok: bool)
      requires Valid() && k < |node| && !node[k].state.Running?
      modifies this`node, this`run, this`faults, this`glitches
      ensures Continues()
      ensures node == old(node)[k := node[k]]
      ensures SameMarker(old(node)[k], node[k])
      ensures cfg == "" ==> node[k].config == old(node)[k].config && faults == old(faults)
      ensures ok ==> node[k].config == Installed(old(node)[k].config, cfg) && Relaunched(old(node)[k], node[k])
      ensures !ok ==> node[k].state.Errored? && node[k].handle == old(node)[k].handle
      ensures !ok ==> node[k].launches == old(node)[k].launches
      ensures !ok && bin.Accepts(k, Installed(old(node)[k].config, cfg)) ==>
                faults > old(faults) || glitches > old(glitches)
    {
      if cfg != "" {
        var written := WriteInPlace(k, cfg);
        if !written {
          Act(k, StartFails);
          return false;
        }
      }
      var passed := Check(k, node[k].config);
      if !passed {
        Act(k, StartFails);
        return false;
      }
      var launched: bool := *;
      if !launched {
        glitches := glitches + 1;
        Act(k, StartFails);
        return false;
      }
      Act(k, Launch);
      ok := true;
    }

    // A core that is already running is left as it is, whatever cfg says.
    method Start(k: nat, cfg: Bytes) returns (ok: bool)
      requires Valid() && k < |node|
      modifies this`node, this`run, this`faults, this`glitches
      ensures Continues()
      ensures SurviveBut(old(node), node, k)
      ensures SameMarker(old(node)[k], node[k])
      ensures cfg == "" ==> node[k].config == old(node)[k].config && faults == old(faults)
      ensures ok ==> node[k].ran == node[k].config
      ensures ok ==> Survives(old(node)[k], node[k]) || node[k].config == Installed(old(node)[k].config, cfg)
      ensures ok && !old(node)[k].state.Running? ==>
                node[k].config == Installed(old(node)[k].config, cfg) && Relaunched(old(node)[k], node[k])
      ensures !ok ==> node[k].state.Errored? && node[k].handle.NoChild? && node[k].launches == old(node)[k].launches
      ensures !ok && bin.Accepts(k, Installed(old(node)[k].config, cfg)) ==>
                faults > old(faults) || glitches > old(glitches)
    {
      Interfere();
      Invariant();
      ok := true;
      if !node[k].state.Running? {
        ok := StartDown(k, cfg);
      }
      if ok {
        Invariant();
        Interfere();
      }
    }

    // The part of Apply that replaces the file: the candidate has passed its
    // check.
    method Swap(k: nat, cfg: Bytes) returns (r: CoreOutcome)
      requires Valid() && k < |node|
      modifies this`node, this`run, this`faults, this`glitches
      ensures Continues()
      ensures SurviveBut(old(node), node, k)
      ensures SameMarker(old(node)[k], node[k])
      ensures !r.Untouched?
      ensures r.Swapped? ==> node[k].config == Some(cfg) && Relaunched(old(node)[k], node[k])
      ensures r.RolledBack? ==> node[k].config == old(node)[k].config && Relaunched(old(node)[k], node[k])
      ensures r.Failed? && faults == old(faults) ==>
                && !node[k].state.Running?
                && node[k].config == (if old(node)[k].config.Some? then old(node)[k].config else Some(cfg))
      ensures !r.Swapped? && bin.Accepts(k, Some(cfg)) ==> faults > old(faults) || glitches > old(glitches)
    {
      var oldConfig := node[k].config;
      Stop(k);
      var renamed: bool := *;
      if !renamed {
        faults := faults + 1;
        var _ := Start(k, "");
        return Failed;
      }
      Act(k, Write(cfg));
      var up := Start(k, "");
      if up {
        return Swapped;
      }
      if oldConfig.None? {
        return Failed;
      }
      r := Restore(k, oldConfig.value);
    }

    // Rollback: put the previous bytes back and start them.
    method Restore(k: nat, oldConfig: Bytes) returns (r: CoreOutcome)
      requires Valid() && k < |node| && !node[k].state.Running? && node[k].handle.NoChild?
      modifies this`node, this`run, this`faults, this`glitches
      ensures Continues()
      ensures SurviveBut(old(node), node, k)
      ensures SameMarker(old(node)[k], node[k])
      ensures r.RolledBack? || r.Failed?
      ensures r.RolledBack? ==> node[k].config == Some(oldConfig) && Relaunched(old(node)[k], node[k])
      ensures r.Failed? && faults == old(faults) ==> !node[k].state.Running? && node[k].config == Some(oldConfig)
    {
      var restored := WriteInPlace(k, oldConfig);
      if !restored {
        return Failed;
      }
      var up := Start(k, "");
      r := if up then RolledBack else Failed;
    }

    // An empty config means: restart on the file as it is.
    method ApplyCore(k: nat, cfg: Bytes) returns (r: CoreOutcome)
      requires Valid() && k < |node|
      modifies this`node, this`run, this`faults, this`glitches
      ensures Continues()
      ensures SurviveBut(old(node), node, k)
      ensures SameMarker(old(node)[k], node[k])
      ensures r.Swapped? ==> node[k].config == Installed(old(node)[k].config, cfg) && Relaunched(old(node)[k], node[k])
      ensures r.Untouched? ==> Survives(old(node)[k], node[k])
      ensures r.RolledBack? ==> node[k].config == old(node)[k].config && Relaunched(old(node)[k], node[k])
      ensures r.Failed? && faults == old(faults) ==>
                && !node[k].state.Running?
                && node[k].config == (if old(node)[k].config.Some? then old(node)[k].config else Installed(None, cfg))
      ensures !r.Swapped? && bin.Accepts(k, Installed(old(node)[k].config, cfg)) ==>
                faults > old(faults) || glitches > old(glitches)
    {
      Interfere();
      var readable: bool := *;
      if cfg != "" && !readable {
        // the candidate cannot be written, or the current config cannot be read
        faults := faults + 1;
        return Untouched;
      }
      var passed := Check(k, if cfg == "" then node[k].config else Some(cfg));
      if !passed {
        return Untouched;
      }
      if cfg != "" {
        r := Swap(k, cfg);
      } else {
        r := Restart(k);
      }
    }

    // Stop and start on the file as it is.
    method Restart(k: nat) returns (r: CoreOutcome)
      requires Valid() && k < |node|
      modifies this`node, this`run, this`faults, this`glitches
      ensures Continues()
      ensures SurviveBut(old(node), node, k)
      ensures SameMarker(old(node)[k], node[k]) && node[k].config == old(node)[k].config
      ensures r.Swapped? || r.Failed?
      ensures r.Swapped? ==> Relaunched(old(node)[k], node[k])
      ensures r.Failed? ==> !node[k].state.Running?
      ensures r.Failed? && bin.Accepts(k, old(node)[k].config) ==> glitches > old(glitches)
    {
      Stop(k);
      var up := Start(k, "");
      r := if up then Swapped else Failed;
    }

    // ---------------------------------------------------------------- marker

    method MarkCoreInactive(k: nat) returns (ok: bool)
      requires Valid() && k < |node|
      modifies this`node, this`run, this`faults, this`glitches
      ensures Continues()
      ensures ok ==> node == old(node)[k := Do(old(node)[k], MarkInactive)] && faults == old(faults)
      ensures !ok ==> node == old(node) && faults > old(faults)
    {
      ok := *;
      if ok {
        Act(k, MarkInactive);
      } else {
        faults := faults + 1;
      }
    }

    // The callers below see to it that the config in the file is what the core
    // was last launched on.
    method MarkCoreActive(k: nat) returns (ok: bool)
      requires Valid() && k < |node| && node[k].ran == node[k].config
      modifies this`node, this`run, this`faults, this`glitches
      ensures Continues()
      ensures ok ==> node == old(node)[k := Do(old(node)[k], MarkActive)] && faults == old(faults)
      ensures ok ==> ShouldRecover(node[k]) == Resume
      ensures !ok ==> node == old(node) && (faults > old(faults) || node[k].config.None?)
    {
      if node[k].config.None? {
        return false;
      }
      Invariant();
      ok := *;
      if ok {
        Act(k, MarkActive);
      } else {
        faults := faults + 1;
      }
    }

    // ------------------------------------------------------------ node level

    // One core of phase one: build its config and have it validated, if it has any
    // inbounds.
    method Candidate(k: nat, inbounds: seq<Inbound>) returns (cfg: Option<Bytes>, ok: bool)
      requires k < |kinds|
      modifies this`glitches
      ensures ok ==> cfg == PlanFor(kinds[k], builders, inbounds)
      ensures ok ==> Sound(bin, builders, kinds[k], k, inbounds) && glitches == old(glitches)
      ensures !ok && Sound(bin, builders, kinds[k], k, inbounds) ==> glitches > old(glitches)
      ensures glitches >= old(glitches)
    {
      var subset := FilterCore(inbounds, kinds[k]);
      cfg, ok := None, true;
      if subset != [] {
        cfg := builders.build(kinds[k], subset);
        if cfg.None? {
          ok := false;
        } else if k in bin.checked && cfg.value != "" {
          ok := Check(k, cfg);
        } else {
          ok := k in bin.checked || builders.validates(kinds[k], cfg.value);
        }
      }
    }

    // Phase one is read-only: build and validate every desired config. It refuses only
    // for a core whose config cannot be built or is not valid, or for a glitch.
    method ValidateCandidate(inbounds: seq<Inbound>) returns (configs: seq<Option<Bytes>>, ok: bool)
      modifies this`glitches
      ensures ok ==> configs == Plan(kinds, builders, inbounds) && glitches == old(glitches)
      ensures ok ==> forall k :: 0 <= k < |kinds| ==> Sound(bin, builders, kinds[k], k, inbounds)
      ensures !ok && (forall k :: 0 <= k < |kinds| ==> Sound(bin, builders, kinds[k], k, inbounds)) ==>
                glitches > old(glitches)
      ensures glitches >= old(glitches)
    {
      configs := [];
      for k := 0 to |kinds|
        invariant |configs| == k && glitches == old(glitches)
        invariant forall j :: 0 <= j < k ==> configs[j] == PlanFor(kinds[j], builders, inbounds)
        invariant forall j :: 0 <= j < k ==> Sound(bin, builders, kinds[j], j, inbounds)
      {
        var cfg, valid := Candidate(k, inbounds);
        if !valid {
          return configs, false;
        }
        configs := configs + [cfg];
      }
      ok := true;
      PlanIsComplete(kinds, builders, inbounds, configs);
    }

    // One round of the loop below: the core's state is read, then its marker
    // goes inactive, then it is stopped. The result is whether it was running.
    method StopOne(k: nat) returns (up: Option<bool>)
      requires Valid() && k < |node|
      modifies this`node, this`run, this`faults, this`glitches
      ensures Continues()
      ensures SurviveBut(old(node), node, k)
      ensures up.Some? ==> Settled(old(node)[k], node[k])
      ensures up.None? ==> Survives(old(node)[k], node[k]) && faults > old(faults)
      ensures up == Some(true) ==> old(node)[k].state.Running? && bin.Accepts(k, node[k].config)
      ensures up == Some(false) && old(node)[k].state.Running? ==> node[k].deaths > old(node)[k].deaths
    {
      Interfere();
      Invariant();
      var state := node[k].state;
      var marked := MarkCoreInactive(k);
      if !marked {
        return None;
      }
      Stop(k);
      up := Some(state.Running?);
    }

    // Take down every core left without inbounds.
    method StopObsolete(configs: seq<Option<Bytes>>) returns (ok: bool, stopped: set<nat>)
      requires Valid() && |configs| == |kinds|
      modifies this`node, this`run, this`faults, this`glitches
      ensures Continues()
      ensures forall k :: 0 <= k < |node| && configs[k].Some? ==> Survives(old(node)[k], node[k])
      ensures ok ==> forall k :: 0 <= k < |node| && configs[k].None? ==> Settled(old(node)[k], node[k])
      ensures !ok ==> faults > old(faults)
      ensures forall k :: k in stopped ==> k < |node| && configs[k].None? && old(node)[k].state.Running?
      ensures forall k :: k in stopped ==> bin.Accepts(k, node[k].config)
      ensures ok ==> forall k :: 0 <= k < |node| && configs[k].None? && old(node)[k].state.Running? && k !in stopped ==>
                         node[k].deaths > old(node)[k].deaths
    {
      ok, stopped := true, {};
      for i := 0 to |kinds|
        invariant Continues()
        invariant forall k :: 0 <= k < |node| && (i <= k || configs[k].Some?) ==> Survives(old(node)[k], node[k])
        invariant forall k :: 0 <= k < i && configs[k].None? ==> Settled(old(node)[k], node[k])
        invariant forall k :: k in stopped ==> k < i && configs[k].None? && old(node)[k].state.Running?
        invariant forall k :: k in stopped ==> bin.Accepts(k, node[k].config)
        invariant forall k :: 0 <= k < i && configs[k].None? && old(node)[k].state.Running? && k !in stopped ==>
                                node[k].deaths > old(node)[k].deaths
      {
        if configs[i].None? {
          var up := StopOne(i);
          if up.None? {
            return false, stopped;
          }
          if up.value {
            stopped := stopped + {i};
          }
        }
      }
    }

    // Bring the stopped obsolete cores back after a failed apply.
    method RestartStopped(stopped: set<nat>) returns (lost: set<nat>)
      requires Valid() && forall k :: k in stopped ==> k < |node| && !node[k].state.Running?
      modifies this`node, this`run, this`faults, this`glitches
      ensures Continues() && faults == old(faults)
      ensures forall k :: 0 <= k < |node| && k !in stopped ==> Survives(old(node)[k], node[k])
      ensures forall k :: k in stopped ==> SameMarker(old(node)[k], node[k]) && node[k].config == old(node)[k].config
      ensures lost <= stopped
      ensures forall k :: k in stopped - lost ==> Relaunched(old(node)[k], node[k])
      ensures forall k :: k in lost ==> !node[k].state.Running?
      ensures forall k :: k in lost && bin.Accepts(k, node[k].config) ==> glitches > old(glitches)
    {
      lost := {};
      for i := 0 to |node|
        invariant Continues() && faults == old(faults) && |node| == |old(node)|
        invariant forall k :: 0 <= k < |node| && (i <= k || k !in stopped) ==> Survives(old(node)[k], node[k])
        invariant forall k :: k in stopped && k < i ==>
                    SameMarker(old(node)[k], node[k]) && node[k].config == old(node)[k].config
        invariant lost <= stopped && forall k :: k in lost ==> k < i && !node[k].state.Running?
        invariant forall k :: k in stopped - lost && k < i ==> Relaunched(old(node)[k], node[k])
        invariant forall k :: k in lost && bin.Accepts(k, node[k].config) ==> glitches > old(glitches)
      {
        if i in stopped {
          var up := Start(i, "");
          if !up {
            lost := lost + {i};
          }
        }
      }
    }

    // Authorize the recovery of one core if it runs. The result says whether that
    // failed.
    method MarkIfRunning(k: nat) returns (ok: bool)
      requires Valid() && k < |node|
      modifies this`node, this`run, this`faults, this`glitches
      ensures Continues()
      ensures SurviveBut(old(node), node, k)
      ensures MarkedAt(old(node)[k], node[k])
      ensures faults == old(faults) && node[k].state.Running? && node[k].config.Some? ==>
                ShouldRecover(node[k]) == Resume
      ensures !ok ==> old(node)[k].state.Running?
    {
      Interfere();
      Invariant();
      ok := true;
      if node[k].state.Running? {
        ok := MarkCoreActive(k);
      }
    }

    // Authorize the recovery of the obsolete cores that run. A failure to do so
    // ends the loop when `strict`, and is ignored otherwise.
    method MarkRunning(configs: seq<Option<Bytes>>, strict: bool) returns (ok: bool)
      requires Valid() && |configs| == |kinds|
      modifies this`node, this`run, this`faults, this`glitches
      ensures Continues()
      ensures forall k :: 0 <= k < |node| && configs[k].Some? ==> Survives(old(node)[k], node[k])
      ensures forall k :: 0 <= k < |node| && configs[k].None? ==> MarkedAt(old(node)[k], node[k])
      ensures !strict && faults == old(faults) ==> forall k :: 0 <= k < |node| && configs[k].None? ==>
                  node[k].state.Running? && node[k].config.Some? ==> ShouldRecover(node[k]) == Resume
      ensures !strict ==> ok
      ensures (forall k :: 0 <= k < |node| && configs[k].None? ==> !old(node)[k].state.Running?) ==> ok
    {
      for i := 0 to |kinds|
        invariant Continues()
        invariant forall k :: 0 <= k < |node| && (i <= k || configs[k].Some?) ==> Survives(old(node)[k], node[k])
        invariant forall k :: 0 <= k < i && configs[k].None? ==> MarkedAt(old(node)[k], node[k])
        invariant faults == old(faults) ==> forall k :: 0 <= k < i && configs[k].None? ==>
                      node[k].state.Running? && node[k].config.Some? ==> ShouldRecover(node[k]) == Resume
      {
        if configs[i].None? {
          var marked := MarkIfRunning(i);
          if strict && !marked {
            return false;
          }
        }
      }
      ok := true;
    }

    // One wanted core: swap its config in and mark it. `marked` is false when only
    // the marker could not be written.
    method DeliverCore(k: nat, cfg: Bytes) returns (delivered: bool, marked: bool)
      requires Valid() && k < |node|
      modifies this`node, this`run, this`faults, this`glitches
      ensures Continues()
      ensures SurviveBut(old(node), node, k)
      ensures delivered ==> marked && Delivered(old(node)[k], node[k], cfg)
      ensures !delivered && marked && faults == old(faults) ==> Reverted(old(node)[k], node[k], cfg)
      ensures !marked && faults == old(faults) ==> cfg == "" && old(node)[k].config.None?
      ensures !delivered && marked && bin.Accepts(k, Installed(old(node)[k].config, cfg)) ==>
                faults > old(faults) || glitches > old(glitches)
    {
      var r := ApplyCore(k, cfg);
      if !r.Swapped? {
        return false, true;
      }
      marked := MarkCoreActive(k);
      delivered := marked;
    }

    // Swap in every wanted config, in order. `at` is where it stopped, and
    // `marked` is false when only the marker of that core could not be written.
    method ApplyWanted(configs: seq<Option<Bytes>>) returns (at: nat, marked: bool)
      requires Valid() && |configs| == |kinds|
      modifies this`node, this`run, this`faults, this`glitches
      ensures Continues() && at <= |node|
      ensures forall k :: 0 <= k < |node| && (configs[k].None? || k > at) ==> Survives(old(node)[k], node[k])
      ensures forall k :: 0 <= k < at && configs[k].Some? ==> Delivered(old(node)[k], node[k], configs[k].value)
      ensures at < |node| ==> configs[at].Some?
      ensures at < |node| && marked && faults == old(faults) ==> Reverted(old(node)[at], node[at], configs[at].value)
      ensures at == |node| ==> marked
      ensures !marked && faults == old(faults) ==> configs[at] == Some("") && old(node)[at].config.None?
      ensures at < |node| && marked && bin.Accepts(at, Installed(old(node)[at].config, configs[at].value)) ==>
                faults > old(faults) || glitches > old(glitches)
    {
      for i := 0 to |kinds|
        invariant Continues()
        invariant forall k :: 0 <= k < |node| && (configs[k].None? || k >= i) ==> Survives(old(node)[k], node[k])
        invariant forall k :: 0 <= k < i && configs[k].Some? ==> Delivered(old(node)[k], node[k], configs[k].value)
      {
        if configs[i].Some? {
          var delivered, written := DeliverCore(i, configs[i].value);
          if !delivered {
            return i, written;
          }
        }
      }
      at, marked := |kinds|, true;
    }

    method Apply(inbounds: seq<Inbound>) returns (r: ApplyResult)
      requires Valid()
      modifies this`node, this`run, this`faults, this`glitches
      ensures Continues()
      ensures r.Rejected? ==> AllSurvive(old(node), node) && faults == old(faults)
      ensures !r.Rejected? ==> forall k :: 0 <= k < |kinds| ==> Sound(bin, builders, kinds[k], k, inbounds)
      ensures r.Rejected? && (forall k :: 0 <= k < |kinds| ==> Sound(bin, builders, kinds[k], k, inbounds)) ==>
                glitches > old(glitches)
      ensures r.MarkFailed? && faults == old(faults) ==>
                exists k :: 0 <= k < |node| && Plan(kinds, builders, inbounds)[k] == Some("")
                            && old(node)[k].config.None?
      ensures r.Applied? ==> Converged(Plan(kinds, builders, inbounds), old(node), node)
      ensures r.ApplyFailed? && faults == old(faults) ==>
                FailureShape(Plan(kinds, builders, inbounds), old(node), node, r.at, r.stopped, r.lost)
      ensures r.ApplyFailed? && faults == old(faults) && glitches == old(glitches) ==>
                && Plan(kinds, builders, inbounds)[r.at] == Some("")
                && !bin.Accepts(r.at, old(node)[r.at].config)
                && r.lost == {}
    {
      var configs, valid := ValidateCandidate(inbounds);
      if valid {
        r := Execute(configs);
        assert r.ApplyFailed? ==> Sound(bin, builders, kinds[r.at], r.at, inbounds);
      } else {
        Interfere();
        r := Rejected;
      }
    }

    // Phase two of Apply: every config has been validated.
    method Execute(configs: seq<Option<Bytes>>) returns (r: ApplyResult)
      requires Valid() && |configs| == |kinds|
      modifies this`node, this`run, this`faults, this`glitches
      ensures Continues() && !r.Rejected?
      ensures r.MarkFailed? && faults == old(faults) ==>
                exists k :: 0 <= k < |configs| && configs[k] == Some("") && old(node)[k].config.None?
      ensures r.Applied? ==> Converged(configs, old(node), node)
      ensures r.ApplyFailed? ==> r.at < |configs| && configs[r.at].Some?
      ensures r.ApplyFailed? && faults == old(faults) ==>
                FailureShape(configs, old(node), node, r.at, r.stopped, r.lost)
      ensures r.ApplyFailed? && faults == old(faults) && glitches == old(glitches) ==>
                !bin.Accepts(r.at, Installed(old(node)[r.at].config, configs[r.at].value)) && r.lost == {}
    {
      var ok, stopped := StopObsolete(configs);
      if !ok {
        return MarkFailed;
      }
      ghost var halted := node;
      r := ApplyOrUndo(configs, stopped);
      if r.Applied? {
        forall k | 0 <= k < |node|
          ensures if configs[k].Some? then Delivered(old(node)[k], node[k], configs[k].value)
                  else Settled(old(node)[k], node[k])
        {
          assert AppliedAt(configs[k], halted[k], node[k]);
        }
      } else if r.ApplyFailed? && faults == old(faults) {
        forall k | 0 <= k < |node|
          ensures FailedAt(configs[k], old(node)[k], node[k], k, r.at, r.stopped, r.lost)
        {
          FailureComposes(configs[k], old(node)[k], halted[k], node[k], k, r.at, r.stopped, r.lost);
        }
      }
    }

    // The swaps, once the obsolete cores are down.
    method ApplyOrUndo(configs: seq<Option<Bytes>>, stopped: set<nat>) returns (r: ApplyResult)
      requires Valid() && |configs| == |kinds|
      requires forall k :: 0 <= k < |node| && configs[k].None? ==> !node[k].state.Running?
      requires forall k :: k in stopped ==> k < |node| && configs[k].None? && bin.Accepts(k, node[k].config)
      modifies this`node, this`run, this`faults, this`glitches
      ensures Continues() && !r.Rejected?
      ensures r.MarkFailed? && faults == old(faults) ==>
                exists k :: 0 <= k < |configs| && configs[k] == Some("") && old(node)[k].config.None?
      ensures r.Applied? ==> forall k :: 0 <= k < |node| ==> AppliedAt(configs[k], old(node)[k], node[k])
      ensures r.ApplyFailed? ==> r.at < |node| && configs[r.at].Some? && r.stopped == stopped && r.lost <= stopped
      ensures r.ApplyFailed? && faults == old(faults) ==> forall k :: 0 <= k < |node| ==>
                  UndoneAt(configs[k], old(node)[k], node[k], k, r.at, r.stopped, r.lost)
      ensures r.ApplyFailed? && faults == old(faults) && glitches == old(glitches) ==>
                !bin.Accepts(r.at, Installed(old(node)[r.at].config, configs[r.at].value)) && r.lost == {}
    {
      var at, marked := ApplyWanted(configs);
      if at < |kinds| {
        if !marked {
          return MarkFailed;
        }
        r := UndoStops(configs, at, stopped);
      } else {
        var done := MarkRunning(configs, true);
        r := if done then Applied else MarkFailed;
      }
    }

    // The failure path of Apply.
    method UndoStops(configs: seq<Option<Bytes>>, at: nat, stopped: set<nat>) returns (r: ApplyResult)
      requires Valid() && |configs| == |kinds|
      requires forall k :: k in stopped ==> k < |node| && configs[k].None? && !node[k].state.Running?
      requires forall k :: k in stopped ==> bin.Accepts(k, node[k].config)
      modifies this`node, this`run, this`faults, this`glitches
      ensures Continues()
      ensures r.ApplyFailed? && r.at == at && r.stopped == stopped
      ensures forall k :: 0 <= k < |node| && configs[k].Some? ==> Survives(old(node)[k], node[k])
      ensures faults == old(faults) ==> forall k :: 0 <= k < |node| && configs[k].None? ==>
                  Restored(old(node)[k], node[k], k in stopped, k in r.lost)
      ensures r.lost <= stopped && (r.lost != {} ==> glitches > old(glitches))
    {
      var lost := RestartStopped(stopped);
      var _ := MarkRunning(configs, false);
      r := ApplyFailed(at, stopped, lost);
    }

    // The Start call: one core, from the inbounds for it.
    method ServerStart(k: nat, inbounds: seq<Inbound>) returns (ok: bool)
      requires Valid() && k < |node|
      modifies this`node, this`run, this`faults, this`glitches
      ensures Continues()
      ensures SurviveBut(old(node), node, k)
      ensures ok ==> ShouldRecover(node[k]) == Resume && node[k].ran == node[k].config
      ensures ok && !old(node)[k].state.Running? ==>
                var cfg := builders.build(kinds[k], FilterCore(inbounds, kinds[k]));
                cfg.Some? && Delivered(old(node)[k], node[k], cfg.value)
      ensures !ok ==> SameMarker(old(node)[k], node[k])
      ensures !ok && faults == old(faults) && glitches == old(glitches) ==>
                var cfg := builders.build(kinds[k], FilterCore(inbounds, kinds[k]));
                cfg.None? || node[k].config.None? || !bin.Accepts(k, Installed(old(node)[k].config, cfg.value))
    {
      var cfg := builders.build(kinds[k], FilterCore(inbounds, kinds[k]));
      if cfg.None? {
        Interfere();
        return false;
      }
      ok := Start(k, cfg.value);
      if ok {
        ok := MarkCoreActive(k);
      }
    }

    // The Stop call: the marker goes inactive before the core goes down.
    method ServerStop(k: nat) returns (ok: bool)
      requires Valid() && k < |node|
      modifies this`node, this`run, this`faults, this`glitches
      ensures Continues()
      ensures SurviveBut(old(node), node, k)
      ensures ok ==> Settled(old(node)[k], node[k]) && ShouldRecover(node[k]) == Wait
      ensures !ok ==> Survives(old(node)[k], node[k]) && faults > old(faults)
    {
      var up := StopOne(k);
      ok := up.Some?;
    }

    method RecoverCore(k: nat)
      requires Valid() && k < |node| && node[k].state.Stopped? && node[k].handle.NoChild?
      modifies this`node, this`run, this`faults, this`glitches
      ensures Continues()
      ensures SurviveBut(old(node), node, k)
      ensures Recovered(old(node)[k], node[k])
      ensures ShouldRecover(old(node)[k]) == Resume && glitches == old(glitches) ==>
                node[k].launches > old(node)[k].launches
    {
      Invariant();
      if ShouldRecover(node[k]) == Resume {
        var _ := Start(k, "");
      }
    }

    // Every child is gone; the files stay.
    method LoseChildren()
      requires Valid()
      modifies this`node, this`run
      ensures Continues() && node == Rebooted(old(node))
    {
      node := Rebooted(node);
      Extend(bin, run, node);
      run := run + [node];
    }

    // A reboot of the node: every child is gone, then each core resumes if its
    // marker and its config allow it.
    method Reboot()
      requires Valid()
      modifies this`node, this`run, this`faults, this`glitches
      ensures Continues()
      ensures forall k :: 0 <= k < |node| ==> Recovered(old(node)[k], node[k])
      ensures glitches == old(glitches) ==> forall k :: 0 <= k < |node| && ShouldRecover(old(node)[k]) == Resume ==>
                  node[k].launches > old(node)[k].launches
    {
      Invariant();
      LoseChildren();
      for i := 0 to |node|
        invariant Continues() && |node| == |old(node)|
        invariant forall k :: i <= k < |node| ==> node[k] == old(node)[k].(state := Stopped, handle := NoChild)
        invariant forall k :: 0 <= k < i ==> Recovered(old(node)[k], node[k])
        invariant glitches == old(glitches) ==> forall k :: 0 <= k < i && ShouldRecover(old(node)[k]) == Resume ==>
                      node[k].launches > old(node)[k].launches
      {
        ghost var before := node;
        RecoverCore(i);
        forall k | 0 <= k < i
          ensures Recovered(old(node)[k], node[k])
        {
          RecoveredSurvives(old(node)[k], before[k], node[k]);
        }
      }
    }

    // An Apply followed by a reboot, with the state in between: exactly the cores
    // with inbounds come back, on the config just applied.
    method ApplyThenReboot(inbounds: seq<Inbound>) returns (r: ApplyResult, ghost applied: Node)
      requires Valid()
      modifies this`node, this`run, this`faults, this`glitches
      ensures Continues() && |applied| == |node| == |kinds|
      ensures r.Applied? ==> forall k :: 0 <= k < |node| ==>
                  CameBack(builders, kinds[k], inbounds, old(node)[k], applied[k], node[k])
      ensures r.Applied? && glitches == old(glitches) ==> forall k :: 0 <= k < |node| ==>
                  (FilterCore(inbounds, kinds[k]) != [] <==> node[k].launches > applied[k].launches)
    {
      r := Apply(inbounds);
      applied := node;
      Invariant();
      Reboot();
      if r.Applied? {
        forall k | 0 <= k < |node|
          ensures CameBack(builders, kinds[k], inbounds, old(node)[k], applied[k], node[k])
        {
          RecoveryRoundTrip(kinds, builders, inbounds, old(node), applied, k);
        }
      }
    }
  }
}
