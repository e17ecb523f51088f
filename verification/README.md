# Honey in Dafny

A model of the decision logic of Honey, a control plane for proxy nodes: a Rust
master that pushes node specifications and a Go agent that runs the proxy cores.
The modules follow the program's parts.

| module | what it models |
|---|---|
| `Cores`, `Agents`, `Lifecycle` | the agent's core processes: start, stop, reap, transactional apply, recovery marker, reboot |
| `Lease`, `Debounce` | the master's leader election and its debounced push table |
| `Routing`, `Policy`, `Agreement`, `Subscription` | one routing profile compiled to sing-box rules and to Clash rules, and what it asks for |
| `SubscriptionLimit`, `LoginLimit` | the two rate limiters |
| `Devices`, `Quota` | device-limit enforcement and the traffic cutoff from master to agent |
| `AuditChain` | the hash chain over audit entries |
| `Traffic`, `MergeStats` | accumulation and merging of traffic counters |
| `WgPool` | WireGuard address pools |
| `Preview` | the diff shown before a push |
| `Wrappers`, `Arithmetic`, `Sets`, `Counting`, `Picking`, `Ordering` | options; division; set sizes; counting and picking elements of a list; string order, stable sorting, keyed maps |

`dafny verify dfyconfig.toml` checks everything.

## How it is built

The protocols are step systems. An event has a guard and an effect, a run is any
sequence of events from the initial state, and the results hold for every run:
any number of instances, tasks or callers, in any interleaving, with children
dying and the node crashing between any two steps.

The agent's operations are methods of a class. Every change goes through one
method that also appends the new state to a ghost history, and the class
invariant says that this history is a run of the step system in `Cores`. So a
theorem about all runs of that system covers a crash in the middle of any of the
operations. `Lifecycle` refines its atomic start, stop and reap into the real
critical sections.

What the environment decides, a failing file operation, a check command that gives up,
a launch that fails, is a free choice that is counted. So the contracts also say when an
operation must succeed: with nothing counted, a refusal has a reason in its input.

The two rule compilers are given a first-match semantics over packets with a port, an
optional host name, and the site and country lists they are on. `Policy` says without
rules what a profile asks for, and both compiled lists are proved to do that.

## What does not hold as stated

Some properties one would expect are false of the code. Each has a concrete
counterexample and the exact condition under which it holds.

* **Leadership.** At most one instance leads in every run if and only if no
  election-loop body takes longer than half the lease lifetime. A body no longer
  than the renewal period is enough (`Lease.ElectionIsExclusive`,
  `Lease.RenewalIsEarly`, `Lease.SplitBrainHappens`).
* **Debounce.** The deadline is computed before the table is locked, so two
  deferrals can overtake each other and the earlier deadline wins. A wake waits
  for every unanswered deferral if and only if the last insertion has the latest
  deadline of them (`Debounce.WaitsOutEveryDeferral`, `Debounce.OvertakenDeferral`).
  No deferral is lost in either case.
* **Compiler agreement.** With `final_proxy` set and a proxy in both formats the
  formats agree, unless the Clash group is named `DIRECT` or `REJECT` or a direct
  country has the code `private` or `lan`, which Clash takes for private addresses.
  Without `final_proxy`, Clash sends `proxy` rules DIRECT and sing-box proxies them.
  With no proxy rendered, sing-box drops the proxy domains and Clash answers DIRECT
  before it reaches the per-app blocks. `Agreement.CompilersAgree` is an if and only
  if over all these cases, for packets with any possible host name and any contents
  of the site and country lists.
* **Repeated tags.** A rule-set tag is declared twice if and only if a profile names a
  category or a country twice (`Subscription.RuleSetsDistinct`), and an outbound tag if
  and only if two endpoints render to one tag or one renders to a tag the config emits
  anyway (`Subscription.OutboundsDistinct`).
* **Subscription limiter.** A request is stamped before it gets the lock, so stamps can
  be overtaken. Keys are isolated in all runs where stamps are overtaken by at most d if
  and only if d = 0 or the limit never decides, being 0 or the counter's own maximum
  (`SubscriptionLimit.IsolatesExactly`). The bound 2·max − 1 (max for a window without
  length, and attained) holds in all such runs if and only if d = 0 and max is below the
  counter's maximum, or max = 0 (`SubscriptionLimit.LimitsExactly`). There is any bound at
  all if and only if d is no longer than the window and max is below the counter's
  maximum, or max = 0 (`SubscriptionLimit.LimitsAtAll`).
  A client that waits as long as it was told is admitted in all runs with ordered stamps
  if and only if max is positive and the block is no shorter than the window, or both are
  below a second, or nobody is ever blocked (`SubscriptionLimit.RetryWorksExactly`).
* **Login limiter.** The handler checks a key first and records after the slow password
  test, with a stamp read before the lock. Pruning is invisible if and only if no such
  stamp lags (`LoginLimit.InvisibleExactly`). A lock outlives its window if and only if
  stamps lag by less than the 600 seconds it is longer (`LoginLimit.OutliveExactly`). With
  at most k attempts of a key in flight the bound is 7 + k failures per 300 seconds, and it
  is attained for every k ≥ 1; it survives a lag if and only if k ≤ 1 or the lag is at most
  one tick of the clock. So 8 holds if and only if attempts of a key come one at a time,
  whatever the lag (`LoginLimit.LimitsExactly`).
* **Audit chain.** Whether an entry has a predecessor is part of the serialization
  unless the last 24 bytes of the hash before it and the 8 bytes of its id are UTF-8
  text without NUL; ids below 2^56 always contain one
  (`AuditChain.ConfusableWithFirst`, `AuditChain.SmallIdHasNul`).
* **Merged traffic.** The merge result is right, but it is built on the storage of
  the cached sample. While every native user is also a sing-box user, the k-th tick
  between two polls reports the native bytes k times (`MergeStats.TicksCountAgain`).
  The cached sample survives a merge if and only if it is empty or the native side
  adds nothing (`MergeStats.CacheSurvives`). The comment at
  agent/internal/singbox/manager.go:105-108 promises that nothing is counted twice.
* **Addresses.** The server's address leaves 32 bits for 255.255.255.255/32 and for no
  other pool (`WgPool.ServerAddressFits`). The allocation serves every pool it accepts
  except one with prefix 0, for which its shift is out of range: it panics in a build
  with overflow checks, and in one without it finds no address in any pool whose base is
  below 255.255.255.254 (`WgPool.AllocateIp`).
* **Peer creation.** Nothing is held between the lookup, the choice of an address and the
  insert. Addresses stay distinct, but an insert can fail on the table's unique columns
  although the pool has a free address; that never happens if and only if creations come
  one at a time or the pool has a single address to give (`WgPool.NeverInVainExactly`).
* **Preview.** The lists of a preview are empty if and only if the summaries are the
  same per tag, and summaries only count users, so a push that replaces users has
  empty lists; `changed`, which compares hashes, can still be true
  (`Preview.ShowsNothingIff`, `Preview.ReplacedUsersShowNothing`). The core a preview
  names is the one that runs the inbound on the agent if and only if it is one of the
  agent's and the inbound is not Hysteria2 left to the default core
  (`Preview.ShownCoreRuns`).

## Model

| member | source | states |
|---|---|---|
| Cores.CrashSafety | agent/internal/core/recovery.go:25-62 | in every state of every run, a core that a reboot would resume has on disk exactly the config of its last MarkActive; that config passes the core's check and was under a held child earlier in the run |
| Cores.CrashAnywhere | agent/cmd/agent/main.go:167-186 | a crash can follow any state of any run, the result is again a run, and the recovery verdicts are the ones of the crashed state |
| Cores.RunKeepsInvariant | agent/internal/core/process.go:50-87 | running means a held child, the held child runs what is on disk, everything launched passed its check, and an active marker carries the hash of the config last marked |
| Cores.LaunchedHeldAChild | agent/internal/core/process.go:50-87 | a config in the launch history was under a held child at some earlier state of the run |
| Cores.VerdictsMean | agent/internal/core/recovery.go:23-48 | a core resumes if and only if its marker is active, of version 1 and has the hash of the config that is there; a missing, inactive or foreign marker is no error |
| Agents.Agent.ApplyThenReboot | agent/cmd/agent/main.go:171-186 | a reboot after a successful Apply launches exactly the cores with inbounds, each on the config just applied; a core is left errored only if its check or launch gave up; no obsolete core is launched |
| Agents.RecoveryRoundTrip | agent/internal/grpcserver/server.go:239-303 | after a successful Apply a reboot resumes a core if and only if it has inbounds, on the config just applied |
| Agents.Agent.Apply | agent/internal/grpcserver/server.go:197-303 | rejected: no core changes except by its own death, and for a core whose config cannot be built or is invalid, or for a check that gave up; applied: every wanted core delivered and every other one stopped with an inactive marker; failed at a core: the failure shape below, absent file errors; with no file error, check or launch giving up it fails only for an empty config on a file the check refuses, and loses no core |
| Agents.Agent.Execute | agent/internal/grpcserver/server.go:239-303 | failure at core K: earlier cores run and would resume the new config, K has its previous file and marker, later cores are untouched, and each stopped obsolete core is relaunched on its old file or reported lost |
| Agents.Agent.ApplyOrUndo | agent/internal/grpcserver/server.go:261-299 | the same from the point on where the obsolete cores are down |
| Agents.Agent.DeliverCore | agent/internal/grpcserver/server.go:266-288 | one wanted core is delivered, or reverted when the swap fails; without a file error the marker fails only for an empty config on a core without a file |
| Agents.Agent.ValidateCandidate | agent/internal/grpcserver/server.go:328-364 | success returns exactly the built configs of the cores with inbounds, all valid; a refusal has such a core without a config or with an invalid one, or a check that gave up; nothing changes |
| Agents.FilterPicks | agent/internal/grpcserver/server.go:819-827 | a core gets its inbounds, in the order of the request, and nothing else |
| Agents.FilterKeepsCopies | agent/internal/grpcserver/server.go:819-827 | an inbound occurs as often for its core as in the request, and never for another |
| Agents.EveryInboundHasACore | agent/internal/grpcserver/server.go:328-334 | the three cores together get exactly the request |
| Agents.CoreOfInboundMeans | agent/internal/grpcserver/server.go:802-817 | which of the three cores an inbound goes to: Hysteria2 left to the default goes to hysteria |
| Agents.Agent.StopObsolete | agent/internal/grpcserver/server.go:239-259 | cores without inbounds end stopped with an inactive marker, the others are untouched, and the recorded set is those that were running and did not die first |
| Agents.Agent.StopOne | agent/internal/grpcserver/server.go:245-258 | the marker goes inactive before the core goes down, and a marker failure leaves the core as it was |
| Agents.Agent.ApplyWanted | agent/internal/grpcserver/server.go:261-289 | the configs are swapped in order up to the first failure; all before it are delivered, the failing one reverted, the rest untouched |
| Agents.Agent.RestartStopped | agent/internal/grpcserver/server.go:267-275 | each stopped core is launched again on its old file or is in the lost set, and one with a valid file is lost only if its check or launch gives up |
| Agents.Agent.MarkRunning | agent/internal/grpcserver/server.go:276-299 | only running cores get an active marker, and absent file errors each running one would resume |
| Agents.Agent.UndoStops | agent/internal/grpcserver/server.go:266-285 | the failure path restores the stopped cores and leaves the wanted ones alone |
| Agents.Agent.ServerStart | agent/internal/grpcserver/server.go:367-395 | success means a reboot resumes the core; a core that was down got the built config, one that was up keeps its own; with nothing giving up it fails only without a config or for one the check refuses |
| Agents.Agent.ServerStop | agent/internal/grpcserver/server.go:398-410 | success leaves the core stopped with a marker that waits; a marker failure leaves it untouched |
| Agents.Agent.ApplyCore | agent/internal/core/process.go:196-270 | swapped: the new config is on disk and was launched; untouched: refused before the stop; rolled back: the previous bytes are back and launched; failed: down with the previous bytes, if there were any; a config the check accepts is swapped unless a file operation, the check or a launch gives up |
| Agents.Agent.Swap | agent/internal/core/process.go:237-269 | the part after the check: outcome and file contents in every case, with the marker kept |
| Agents.Agent.Restore | agent/internal/core/process.go:255-269 | the rollback puts the previous bytes back in place and starts them, or says that it failed |
| Agents.Agent.Start | agent/internal/core/process.go:50-87 | a running core is left alone whatever the config says; a core that is down gets the config and a launch, or ends errored without a child |
| Agents.Agent.StartDown | agent/internal/core/process.go:58-86 | the locked part: write, check, launch, each failure ending errored |
| Agents.Agent.Stop | agent/internal/core/process.go:169-191 | the core ends stopped with no child; only its own death count, and other cores by their own death, may change |
| Agents.Agent.WriteInPlace | agent/internal/core/process.go:278-286 | the file ends with the bytes, or with anything on failure, and every intermediate content is a state of the run |
| Agents.Agent.MarkCoreActive | agent/internal/core/recovery.go:50-56 | on success the core would resume on what is on disk, which it was last launched on |
| Agents.Agent.MarkCoreInactive | agent/internal/core/recovery.go:58-62 | the marker is replaced as a whole or not at all |
| Agents.Agent.RecoverCore | agent/cmd/agent/main.go:171-186 | a core comes back only on a matching active marker, on the config last marked, with file and marker unchanged |
| Agents.Agent.Reboot | agent/cmd/agent/main.go:92-94 | every child is gone, then each core resumes or not by its marker, with files and markers unchanged; each that should resume is launched unless its check or launch gives up |
| Lifecycle.LifecycleSafety | agent/internal/core/process.go:144-191 | in every interleaving: running if and only if a child is held and the pid is non-zero; at most one live child, and it is the held one; a Stop returns only after the child it captured is dead and reaped |
| Lifecycle.CrashIsReported | agent/internal/core/process.go:144-166 | a reap ends errored if and only if that child failed and no Stop had asked that very child |
| Lifecycle.CallsLeave | agent/internal/core/process.go:50-175 | in every reachable state a failed Start leaves an errored process and an idle Stop a stopped one, both without a child; a Start that works leaves the only live child, on its config; a Start of a running process changes nothing |
| Lifecycle.RunKeepsInv | agent/internal/core/process.go:50-87 | the invariant over all runs that the lifecycle results rest on |
| Lifecycle.RefinesCores | agent/internal/core/process.go:50-191 | each critical section is one enabled action of the core step system or none, with the same state and the same config under the held child |
| Lease.LeaderHoldsLease | master/src/ha.rs:60-96 | for any number of instances and any run, with enough slack a set flag means an unexpired lease of that instance, so at most one flag is set |
| Lease.SplitBrainHappens | master/src/ha.rs:60-96 | for every timing without that slack there is a run with two flags set |
| Lease.ElectionIsExclusive | master/src/ha.rs:60-96 | with the shipped timing, at most one leader in every run if and only if twice the longest body fits the lifetime, which is the setting and at least three seconds |
| Lease.RenewalIsEarly | master/src/ha.rs:60-63 | the lifetime is the setting and at least three seconds, and the period is a third of it in whole seconds |
| Lease.SingleInstanceLeads | master/src/ha.rs:9-14 | a single instance whose requests are answered leads from its first answer on, however slow it is |
| Lease.FailoverIsBounded | master/src/ha.rs:58-59 | when no request was answered for a lease lifetime, the next one that is wins the lease, whoever held it |
| Lease.RunKeepsInv | master/src/db/repo.rs:2650-2671 | the invariant over the lease record and all loop phases |
| Debounce.EveryEntryHasItsTask | master/src/registry.rs:53-67 | in every run each pending entry has a task with exactly its deadline |
| Debounce.TableIsLast | master/src/registry.rs:53-56 | in every run the table holds exactly the last deadline of each node that was deferred and has neither woken nor been pushed since |
| Debounce.EntryLeaves | master/src/registry.rs:315-323 | an entry leaves only by a wake at or after the last deferral's deadline or by a push that has yet to build its spec |
| Debounce.WaitsOutEveryDeferral | master/src/registry.rs:439-447 | a wake comes after all deadlines of its node's unanswered deferrals if and only if the last insertion has the latest of them |
| Debounce.OvertakenDeferral | master/src/registry.rs:53-56 | two deferrals that overtake each other, and the push comes before the later deadline |
| Debounce.NoLostDeferral | master/src/registry.rs:306-323 | once all tasks are done, each deferral was followed by a push that started to build its spec, or by a wake that gave up on an offline node or with auto-push off; a reconcile that only compares does not count |
| Debounce.DeferredIsPushed | master/src/registry.rs:57-66 | while wakes find their node connected and auto-push on, every deferral is followed by a push of its node that builds its spec |
| Debounce.PushesAddUp | master/src/registry.rs:306-411 | in every run and for every node: pushes decided on are those that built their spec and those on their way; wakes given up are recorded once each; a reconcile compares exactly when it finds no entry |
| Debounce.BuiltAsDecided | master/src/registry.rs:394-411 | once all tasks are done there are exactly as many spec builds as manual pushes, wakes that go on and comparisons with a change, so a comparison without a change leads to none |
| Debounce.DecidedIsBuilt | master/src/registry.rs:315-323 | each of them is built after it was decided on |
| Debounce.EachPushSupersedes | master/src/registry.rs:321-323 | each spec build of a push comes after one removal of the node's entry |
| Debounce.TasksDrain | master/src/registry.rs:53-67 | from every state the tasks can run to completion with no further request |
| Debounce.RunsAreBounded | master/src/registry.rs:53-67 | every run without a new request has no more steps than the work that is left |
| Debounce.OnePushPerWake | master/src/registry.rs:57-66 | a wake that took an entry leads to exactly one push or one recorded drop |
| Debounce.RunKeepsInv | master/src/registry.rs:394-411 | the invariant, kept by manual, automatic and reconcile pushes alike |
| Policy.SbKeepsPolicy | master/src/subscription.rs:98-280 | for every profile, proxy situation and packet the sing-box verdict is what the profile asks for: blocked categories and domains, then direct traffic, then proxy domains, then the first app rule, then the rest |
| Policy.ClashKeepsPolicy | master/src/subscription.rs:305-390 | the same for Clash, which has one target for proxy domains, proxy apps and the rest and reads country codes in its own way |
| Policy.FiltersBlock | master/src/subscription.rs:222-239 | each of the three content filters blocks its own category in both formats, whatever else the profile says |
| Policy.DefaultPolicy | master/src/subscription.rs:216-221 | without a profile private addresses go directly and the rest through the proxy if there is one |
| Agreement.CompilersAgree | master/src/subscription.rs:212-390 | for every profile, rendered proxies and group name: the two configs give every packet the same verdict, port 53 under blocked plain DNS aside, if and only if they are compatible |
| Agreement.ProxiedProfilesAgree | master/src/subscription.rs:131-148 | with final_proxy, a proxy in both formats and a group other than DIRECT and REJECT, the verdicts agree on every packet if and only if no country code is one that Clash takes for something else |
| Agreement.ProxyDomainIsLost | master/src/subscription.rs:339-375 | without final_proxy a proxied domain is proxied by sing-box and not by Clash |
| Agreement.CoveredDomainIsHarmless | master/src/subscription.rs:241-263 | the same domain below a blocked one makes no difference |
| Agreement.LanIsNoCountry | master/src/subscription.rs:370-372 | the country code `lan`, which the API accepts, makes the formats disagree |
| Agreement.ReservedCodes | master/src/api/mod.rs:4328-4335 | of the codes the API accepts, exactly `private` and `lan` are taken for something else |
| Agreement.DirectDefaultAgreement | master/src/subscription.rs:339-390 | without final_proxy they agree if and only if no packet gets past the earlier rules to one for the proxy and, with an odd country code, none to a per-app block |
| Agreement.NoProxyAgreement | master/src/subscription.rs:261-278 | without a sing-box proxy they agree if and only if no proxy domain shadows a per-app block and, with an odd country code, no packet gets to a per-app block |
| Agreement.SbMeaning | master/src/subscription.rs:212-280 | the sing-box rules decide every packet like the section-by-section reference |
| Agreement.ClashMeaning | master/src/subscription.rs:339-390 | the Clash rules decide every packet like their reference |
| Agreement.SuffixListIsSuffixes | master/src/subscription.rs:241-263 | one rule with a suffix list is one rule per suffix |
| Agreement.BeyondIffPacket | master/src/subscription.rs:212-280 | a rule list can come to a goal past another one if and only if some packet with a possible host name does; a domain below an earlier one is covered by it |
| Agreement.PortsAndDns | master/src/subscription.rs:139-148 | Clash never looks at the port, and sing-box only under blocked plain DNS, where it blocks 53 whatever else matches |
| Subscription.SingboxConfig | master/src/subscription.rs:98-171 | for every endpoint list and profile, every outbound, rule-set, DNS-server and detour tag used is defined in the config; there is a DNS section if and only if the profile names a resolver, and it is tunnelled |
| Subscription.OutboundsMean | master/src/subscription.rs:110-152 | the outbounds are exactly the automatic group over all proxies, the selector over it and them, the proxies, direct, and block when it is needed |
| Subscription.RenderedPicks | master/src/subscription.rs:104-113 | exactly the endpoints that render are kept, in order |
| Subscription.RouteSetsMean | master/src/subscription.rs:199-280 | the rule sets declared are exactly those the profile names, of the right kind, downloaded through the proxy if there is one |
| Subscription.SingboxRules | master/src/subscription.rs:212-280 | the loops build exactly the reference rules and rule sets, and the block outbound is requested if and only if a rule uses it |
| Subscription.BlockUse | master/src/subscription.rs:212-280 | the block outbound is used if and only if a content filter is on, a domain is blocked or an app rule blocks |
| Subscription.RuleTargets | master/src/subscription.rs:212-280 | all rules of a profile use outbounds and rule sets that the config supplies |
| Subscription.ConfigClosed | master/src/subscription.rs:98-171 | reference closure from the parts |
| Subscription.DnsBlock | master/src/subscription.rs:177-197 | no block without a resolver; else the trimmed resolver is final and reached through the proxy if there is one, its name is looked up directly, address questions go to the fake pool if and only if that is on, and all tags are defined |
| Subscription.Route | master/src/subscription.rs:131-148 | the route rules with and without a profile, and when they block |
| Subscription.RuleSetsDistinct | master/src/subscription.rs:212-280 | the rule-set tags are distinct if and only if the site codes and the countries are |
| Subscription.OutboundsDistinct | master/src/subscription.rs:106-158 | the outbound tags are distinct if and only if the rendered tags are and none is one the config emits |
| Subscription.BuildClashConfig | master/src/subscription.rs:305-400 | every rule target and group member is DIRECT, REJECT, an emitted group or an emitted proxy |
| Subscription.ClashGroupsMean | master/src/subscription.rs:318-338 | the two groups, their names from the user's setting and their members; none without a proxy |
| Subscription.ClashNamesDistinct | master/src/subscription.rs:310-338 | a name is defined twice if and only if two proxies share it or one has a group's name |
| Subscription.BuildClashRules | master/src/subscription.rs:339-390 | the loops build exactly the reference rule list |
| Subscription.ClashTargets | master/src/subscription.rs:339-390 | every target is DIRECT, REJECT or the default target |
| SubscriptionLimit.SubscriptionLimiter.Check | master/src/ratelimit.rs:133-178 | pruning, window, count and block as the reference says; a disabled guard allows and changes no entry; exactly one of the two totals goes up by one |
| SubscriptionLimit.LimiterBound | master/src/ratelimit.rs:133-165 | with max below the counter's maximum, in every run over all keys with stamps in lock order, a closed interval as long as the window admits at most 2·max − 1 requests of a key, and at most max when the window has no length |
| SubscriptionLimit.BoundIsTight | master/src/ratelimit.rs:133-165 | the bound is attained for every limit below the counter's maximum, every window and every block |
| SubscriptionLimit.LimitsExactly | master/src/ratelimit.rs:138-162 | the bound holds in all runs with stamps overtaken by at most d if and only if d is 0 and max below the counter's maximum, or max is 0 |
| SubscriptionLimit.LimitsAtAll | master/src/ratelimit.rs:138-162 | there is some bound in all such runs if and only if d is at most the window and max below the counter's maximum, or max is 0 |
| SubscriptionLimit.KeysAreIsolated | master/src/ratelimit.rs:133-165 | while stamps come in lock order, the decisions for a key, retry times included, are those it would get alone |
| SubscriptionLimit.BlockedUntilWindowEnds | master/src/ratelimit.rs:149-162 | in every run, whatever the order of stamps: once a key is blocked, all its requests are blocked until some request is stamped past the end of the window it was blocked in |
| SubscriptionLimit.UsedUp | master/src/ratelimit.rs:149-162 | inside a used-up window every request is blocked, and the block is renewed whenever it has run out, whatever the order of stamps |
| SubscriptionLimit.RetryWorksExactly | master/src/ratelimit.rs:149-178 | in all runs with ordered stamps a client that waits as told is admitted if and only if max is positive and the block lasts as long as the window, or both end within the second the wait is rounded up to, or nobody is ever blocked |
| SubscriptionLimit.RetryIsBounded | master/src/ratelimit.rs:166-178 | in such runs the wait is at least a second and at most the block, rounded up |
| SubscriptionLimit.ShippedSettings | master/src/ratelimit.rs:89-98 | with the default settings at most 239 requests of a key in any minute, and whoever waits as told, at most 301 seconds, is admitted |
| SubscriptionLimit.IsolatesExactly | master/src/ratelimit.rs:138-148 | a key's requests are admitted as if it were alone in all runs with stamps overtaken by at most d if and only if d is 0, or max is 0 or the counter's maximum |
| SubscriptionLimit.OvertakenAdmitted | master/src/ratelimit.rs:138-148 | for every positive limit and every window a run with one overtaken stamp that admits 2·max requests of a key in one window's length |
| SubscriptionLimit.TableIsSeen | master/src/ratelimit.rs:139-162 | the table's decisions, counts and entries for a key are those of the key's own view, whatever the order of stamps |
| LoginLimit.LoginLimiter.Locked | master/src/ratelimit.rs:33-43 | prunes first, and answers like the table that was not pruned |
| LoginLimit.LoginLimiter.RecordFailure | master/src/ratelimit.rs:45-65 | the key's entry becomes the failed one; other keys are unchanged |
| LoginLimit.SuccessStartsOver | master/src/ratelimit.rs:67-69 | whatever came before, a key that succeeded is answered in every later run like on a limiter that never heard of anyone |
| LoginLimit.FifthFailureLocks | master/src/ratelimit.rs:12-65 | a new key is locked by its fifth failure within 300 seconds and by none before it, for 900 seconds, and is told the seconds left, rounded up |
| LoginLimit.WaitIsEnough | master/src/ratelimit.rs:33-43 | whatever others do, a key that waits as told without failing again is not locked |
| LoginLimit.PruningIsInvisible | master/src/ratelimit.rs:73-79 | while no failure's stamp lags, every query of every run gets the answer of a limiter that never prunes |
| LoginLimit.InvisibleExactly | master/src/ratelimit.rs:45-47 | it does so in all runs where failures' stamps lag by at most d if and only if d is 0 |
| LoginLimit.OutliveExactly | master/src/ratelimit.rs:12-14 | in all runs with such a lag an ended lock implies an ended window, so that counting starts anew, if and only if d is below 600 seconds |
| LoginLimit.LoginBound | master/src/api/mod.rs:1506-1538 | in every run of checks, failures, successes and aborted attempts over all keys: with at most k ≥ 1 attempts of a key in flight and no success of it, any 300-second interval holds at most 7 + k of its failures, and with k = 0 none; stamps may lag by a tick, and by anything if k is at most 1 |
| LoginLimit.FailureBound | master/src/ratelimit.rs:45-65 | the same for one key, from any entry a run can leave |
| LoginLimit.BoundIsAttained | master/src/ratelimit.rs:45-65 | for every k ≥ 1 a run without lag that reaches 7 + k |
| LoginLimit.LagAddsFailures | master/src/ratelimit.rs:45-65 | for every k ≥ 2 and lag of two ticks or more a run that reaches 10 + k |
| LoginLimit.LimitsExactly | master/src/api/mod.rs:1506-1538 | the bound 7 + k holds in all runs with k in flight and such a lag if and only if k is at most 1 or the lag at most a tick; no smaller one ever does; 8 does if and only if attempts of a key come one at a time |
| LoginLimit.KeyIsAlone | master/src/ratelimit.rs:33-65 | a run over all keys is, for each key, a run of its own view, pruning and lag included |
| AuditChain.AuditChainHash | master/src/auth.rs:129-156 | the hasher's updates feed exactly the reference serialization |
| AuditChain.BigEndianDigits | master/src/auth.rs:143-143 | integers are written with the most significant byte first |
| AuditChain.SerializeInjective | master/src/auth.rs:129-156 | with the predecessor's presence known and NUL-free fields, the bytes determine predecessor and every field of the entry, up to absent against empty optional fields |
| AuditChain.ConfusableWithFirst | master/src/auth.rs:140-143 | among entries whose fields are UTF-8 text without NUL, an entry with a predecessor serializes like some first entry if and only if the hash tail followed by the id is such text |
| AuditChain.ConfusionHappens | master/src/auth.rs:140-143 | one such pair |
| AuditChain.SmallIdHasNul | master/src/auth.rs:143-143 | an id below 2^56 contains a NUL byte |
| AuditChain.ChainIsBinding | master/src/auth.rs:127-156 | chains ending in the same hash are equal entry by entry, or two of their own inputs collide; lengths may differ when ids are small |
| AuditChain.Verify | master/src/api/mod.rs:3130-3165 | reports exactly the first row whose hash does not follow from the row before it, and how many hashes were looked at |
| AuditChain.RecordKeepsIntact | master/src/db/repo.rs:3533-3586 | recording an entry keeps a verified table verified |
| AuditChain.RecordChains | master/src/db/repo.rs:3550-3586 | a recorded row is appended, and its hash is the digest of the rows chained so far and of itself |
| AuditChain.RecordingChainsAll | master/src/db/repo.rs:3533-3586 | a table written by recording alone verifies, holds all rows in order, every one chained, and ends in the digest of all of them |
| AuditChain.RecordIsKept | master/src/api/mod.rs:3130-3165 | a table that verifies and ends in the hash a recording ended in holds the recorded entries, or a collision is exhibited |
| AuditChain.ChainedMeans | master/src/api/mod.rs:3137-3156 | the chained rows are those after the last one without a hash |
| AuditChain.IntactIsDigest | master/src/api/mod.rs:3130-3165 | the last hash of any verified table is the chained hash of the rows since the last one without a hash |
| AuditChain.TamperEvidence | master/src/api/mod.rs:3130-3165 | two verified tables with the same last hash hold the same entries since the last row without a hash, or a collision is exhibited |
| Devices.DeviceTick | master/src/monitor.rs:153-263 | for every snapshot of nodes: each user with connections gets the closes of a valid cut, each id on its own node; nothing is closed without enforcement; exactly the users over a positive limit are reported, with the number of their devices |
| Devices.ScanMeans | master/src/monitor.rs:189-260 | a scan keeps as many devices as a positive limit says, each with a connection at least as old as every connection of the others, and closes exactly the connections of the others |
| Devices.StartedIsAge | master/src/monitor.rs:195-201 | a known start counts as itself and an unknown one never comes before a known one |
| Devices.ChooseCut | master/src/monitor.rs:189-219 | over a positive limit exactly that many devices are kept, each at least as old as every cut one; else none is cut |
| Devices.FirstSeen | master/src/monitor.rs:194-210 | the distinct devices, each with the start of one of its connections that is no later than any other of them |
| Devices.Rank | master/src/monitor.rs:216-217 | all devices, each once, by age |
| Devices.GroupByNode | master/src/monitor.rs:237-243 | for each node exactly the ids of the cut devices' connections on it, in order |
| Devices.Gather | master/src/monitor.rs:165-185 | for each limited user exactly their connections over all nodes |
| Devices.GatheredMeans | master/src/monitor.rs:165-185 | a connection is gathered for a user if and only if the user is limited, it is on some snapshot under that name and it has an address |
| Devices.ClosedOrSurvives | master/src/monitor.rs:237-260 | a connection is closed on its own node if its device is cut, and survives otherwise |
| Devices.ClosedAreCut | master/src/monitor.rs:237-260 | an id closed on a node belongs to a connection of a cut device there |
| Devices.RescanClosesNothing | master/src/monitor.rs:165-260 | with the closed ids removed from the nodes' snapshots, a second scan closes nothing, on any node and for any user |
| Quota.ZeroMeansUnlimited | master/src/spec.rs:178-198 | for an active user the wire value is 0 if and only if the user is unlimited, and else the remaining bytes |
| Quota.CapturedQuota | agent/internal/grpcserver/server.go:88-110 | after a push to any inbounds the agent has a limited active user's remaining quota and none for an unlimited one |
| Quota.CutoffIsExact | agent/internal/localquota/localquota.go:7-22 | from master to agent: a user is cut off if and only if usage at the push plus usage since reaches the limit |
| Quota.SuppressionGrows | agent/internal/localquota/localquota.go:7-22 | while totals do not fall, a user cut off stays cut off |
| Quota.Decide | agent/internal/localquota/localquota.go:7-22 | the map holds exactly the users at or over their quota since the baseline |
| Quota.Changed | agent/internal/localquota/localquota.go:25-35 | for maps as Decide makes them, true if and only if the sets differ |
| Quota.QuotaGuard.CaptureQuota | agent/internal/grpcserver/server.go:88-110 | the whole new state: quotas of the push, totals as baseline, nobody suppressed |
| Quota.QuotaGuard.EnforceQuota | agent/internal/grpcserver/server.go:112-142 | the suppressed set is exactly the users over quota, and the ids closed are those of their connections, in order |
| Quota.ActivePicks | master/src/spec.rs:178-198 | the users sent are those enabled, not expired and below their limit, in order, each with what is left of it |
| Quota.LastInboundCounts | agent/internal/grpcserver/server.go:88-98 | of several quotas for a name the last positive one over all inbounds is kept |
| Traffic.HysteriaStats.Poll | agent/internal/hysteria/manager.go:188-239 | names stay distinct and node totals stay the sums over users; a sample adds receive to up and send to down; no sample changes nothing |
| Traffic.AddedTotals | agent/internal/hysteria/manager.go:216-231 | adding a sample adds its sums to the user totals |
| Traffic.AddSample | agent/internal/hysteria/manager.go:216-225 | in any iteration order, the user map and both deltas |
| Traffic.PolledIsSum | agent/internal/hysteria/manager.go:207-238 | after any sequence of polls each user's totals are the sums of all cleared samples |
| Traffic.CountersGrow | agent/internal/hysteria/manager.go:207-238 | no counter falls from one poll to a later one |
| MergeStats.Merge | agent/internal/grpcserver/server.go:450-473 | node totals add; the users are sorted by name, duplicate-free and add per user; what the cached storage holds afterwards |
| MergeStats.MergeUsers | agent/internal/grpcserver/server.go:456-472 | the same for the user list, in any iteration order, in place while it fits |
| MergeStats.AppendAll | agent/internal/grpcserver/server.go:468-471 | appending over the cached storage: in place up to its capacity, then in a larger copy |
| MergeStats.MergedAdds | agent/internal/grpcserver/server.go:456-467 | each user's merged bytes are the left ones plus all right ones |
| MergeStats.MergedTotals | agent/internal/grpcserver/server.go:456-467 | the total over users is the left total plus the right total |
| MergeStats.TicksCountAgain | agent/internal/grpcserver/server.go:427-432 | over k ticks with no poll in between, the cached user bytes grow by k times the native ones |
| MergeStats.CacheSurvives | agent/internal/grpcserver/server.go:468-472 | the cached list is unchanged for every iteration order if and only if it is empty or the native side adds nothing |
| WgPool.AllocateIp | master/src/wg.rs:72-88 | the least free address strictly between the server's and the broadcast; refused as exhausted if and only if none is free; 31 and 32 too small, above 32 bad; no 32-bit overflow; for prefix 0 a panic, or the search from two past the base to the base |
| WgPool.ServerAddress | master/src/wg.rs:59-68 | the address after the network's, for every prefix including 0 |
| WgPool.ServerAddressFits | master/src/wg.rs:59-68 | it fits 32 bits for every pool but one |
| WgPool.MasksGivePool | master/src/wg.rs:77-79 | the bit masks compute the network and broadcast addresses inside 32 bits |
| WgPool.NetworkInArithmetic | master/src/wg.rs:66-66 | the network is the base without its remainder by the pool size |
| WgPool.RunKeepsPeersOk | master/src/db/repo.rs:2992-3026 | however lookups, choices, inserts and removals interleave, peers have distinct addresses, never the server's or the broadcast |
| WgPool.RefusedExactlyWhenFull | master/src/wg.rs:82-87 | in every such run an allocation is refused if and only if 2^(32 − prefix) − 3 peers exist |
| WgPool.NeverInVainExactly | master/src/db/repo.rs:2992-3026 | no insert fails while an address is free if and only if creations come one at a time or the pool has one address |
| WgPool.CollisionHappens | master/migrations/0045_wireguard.sql:32-33 | in every pool with two addresses or more, two creations in flight can choose one address, and the second insert fails |
| WgPool.CreatedInTurn | master/src/db/repo.rs:2992-3026 | a creation that nobody interferes with adds the lowest free address |
| WgPool.FreedIsReused | master/src/wg.rs:82-87 | in a full pool the next creation after a removal gets the removed address |
| WgPool.ConsecutiveAddresses | master/src/wg.rs:82-87 | users who come one after the other get consecutive addresses from the one after the server's, exactly 2^(32 − prefix) − 3 of them |
| Preview.Summarize | master/src/spec.rs:45-85 | one summary per inbound, sorted by tag, stable, so the last inbound of a tag still wins |
| Preview.Preview | master/src/spec.rs:87-153 | with a baseline: the three lists are exactly the new, changed and gone tags, patch the old table into the new one, and a core restarts if and only if its summaries change; without: all or nothing by the hash |
| Preview.DiffPatches | master/src/spec.rs:117-137 | added, modified and removed name different tags, and making the changes gives exactly the desired table |
| Preview.RestartsExactly | master/src/spec.rs:117-137 | a core is in restart_cores if and only if its set of summaries differs before and after |
| Preview.ShowsNothingIff | master/src/spec.rs:117-137 | all lists are empty if and only if the tables are equal |
| Preview.ReplacedUsersShowNothing | master/src/spec.rs:49-80 | replacing users one for one, or any field outside the summary, leaves the table as it is |
| Preview.LooksTheSame | master/src/spec.rs:49-80 | two inbounds look the same if and only if tag, protocol, listen address, port, core, network, kind of security and number of users are the same, an empty core or network counting as the default |
| Preview.SummaryShows | master/src/spec.rs:49-80 | what a summary shows of security, transport and the other fields |
| Preview.ShownCoreRuns | agent/internal/grpcserver/server.go:802-817 | the core shown is the one that runs the inbound if and only if the agent knows it and the inbound is not Hysteria2 left to the default |
| Ordering.SortByIsStableSort | master/src/spec.rs:80-80 | the sort is a sorted permutation and collects into the same keyed map |
| Ordering.LeMeans | agent/internal/grpcserver/server.go:472-472 | the order is that of a dictionary: a prefix first, else the first difference decides |
| Ordering.SortedUnique | agent/internal/grpcserver/server.go:472-472 | a sorted list with distinct keys is determined by its map |

## Left out

- Firewall, WireGuard, ACME and external-service commands in `Server.Apply`: best-effort side effects before validation.
- Concurrent calls of `Process.Apply`, such as the certificate reload: one Apply caller is modelled, with deaths and reaps interleaved.
- A crash of the agent alone, which leaves children running: a crash here takes the node down.
- The error branch of `Process.Stop`: the source's Stop has no failing path after the signal.
- Core kinds are handled in one fixed order given as a list; the sorting of their names is not modelled.
- SHA-256 in the recovery marker is collision-free; in the audit chain it is a parameter and collisions are results.
- Cores.Binaries: a core's config check is a fixed predicate of the bytes, as a check that changes its mind would void recovery as well.
- 64-bit wrap-around of traffic counters, speeds and connection counts.
- Traffic.AddSample: keeps no speeds, because they depend on the wall clock and on floating point.
- MergeStats.AppendAll: the growth policy of a reallocated slice is some larger capacity, as no result depends on it. Two goroutines touching the cached storage at once are not modelled.
- The sing-box accumulator itself (agent/internal/singbox/manager.go): per-connection increments that would add easier members of the same kind as `Traffic`.
- `parse_app_rules`, the rendering of rules as text and JSON, and the `tun` inbound: profiles and configs are datatypes here.
- Agreement.CompilersAgree: host names are lower-case labels and a domain rule matches the domain and what lies below it, in both clients; what a client does to odd rule texts (letter case, leading dots, non-ASCII codes) and DNS resolution for address rules are not modelled.
- Rendering of endpoints: an endpoint gives a tag or is skipped.
- Database access, gRPC, notifications, alerts and audit writes around the modelled logic.
- WgPool.RunKeepsPeersOk: its runs, and those of the other rows on peers, choose as `AllocateIp` does for prefixes 1 to 30; a pool with prefix 0 has no proper choice and its runs are not those of the source.
- `parse_cidr` text parsing: addresses and prefixes are numbers here.
- The hash of the encoded spec and the JSON form of the stored baseline in `Preview` are parameters, and `restart_cores` is a set.
- Canonical JSON of audit details: a field is its bytes.
- The history columns, the web panel, URI rendering, encryption, metrics and self-update.
