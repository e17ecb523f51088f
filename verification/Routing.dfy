/**
 One routing profile compiled for two clients (master/src/subscription.rs): a
 sing-box rule list and a Clash rule list, each with its first-match meaning.

 A packet is what the rules can ask about it: the port, whether the address is
 private, the host name if it is known, and which site and country lists it is on.
 The lists are downloaded by the clients; what is on them is left open.
 */
module Routing {
  import opened Wrappers

  // ------------------------------------------------------------------- profile

  datatype Goal = Block | Direct | Proxy

  // A per-app rule after parsing.
  datatype AppRule = AppRule(geosite: string, action: Goal)

  datatype Profile = Profile(
    blockAds: bool,
    blockAdult: bool,
    blockGambling: bool,
    blockedDomains: seq<string>,
    directPrivate: bool,
    directDomains: seq<string>,
    directGeosite: seq<string>,
    directGeoip: seq<string>,
    proxyDomains: seq<string>,
    appRules: seq<AppRule>,
    finalProxy: bool,
    dnsDoh: string,
    dnsFakeip: bool,
    dnsBlockPlain: bool)

  // -------------------------------------------------------------------- packet

  // Lower-case labels, none of them empty, with dots in between.
  predicate HostName(h: string) {
    && h != ""
    && h[0] != '.' && h[|h| - 1] != '.'
    && (forall i :: 0 <= i < |h| ==> HostChar(h[i]))
    && (forall i :: 0 < i < |h| && h[i - 1] == '.' ==> h[i] != '.')
  }

  predicate HostChar(c: char) {
    'a' <= c <= 'z' || '0' <= c <= '9' || c == '-' || c == '_' || c == '.'
  }

  // The host is the domain or lies below it.
  predicate Under(host: string, domain: string) {
    host == domain ||
    (|host| > |domain| && host[|host| - |domain| - 1] == '.' && host[|host| - |domain|..] == domain)
  }

  datatype Packet = Packet(
    port: nat,
    isPrivate: bool,
    host: Option<string>,
    site: string -> bool,
    country: string -> bool)
  {
    // A site list knows hosts only.
    ghost predicate Valid() {
      if host.Some? then HostName(host.value) else forall c :: !site(c)
    }

    predicate Suffixed(domain: string) {
      host.Some? && Under(host.value, domain)
    }
  }

  // A single question about a packet.
  datatype Atom = PrivateIp | Suffix(domain: string) | Site(code: string) | Country(code: string)

  predicate Holds(p: Packet, a: Atom) {
    match a
    case PrivateIp => p.isPrivate
    case Suffix(d) => p.Suffixed(d)
    case Site(c) => p.site(c)
    case Country(c) => p.country(c)
  }

  // -------------------------------------------------------------- first match

  // The first rule that matches decides; `hit` is a rule's answer if it matches.
  function FirstBy<R>(rules: seq<R>, hit: R -> Option<Goal>): Option<Goal> {
    if rules == [] then None
    else if hit(rules[0]).Some? then hit(rules[0])
    else FirstBy(rules[1..], hit)
  }

  lemma {:induction false} FirstByConcat<R>(a: seq<R>, b: seq<R>, hit: R -> Option<Goal>)
    ensures FirstBy(a + b, hit) == if FirstBy(a, hit).Some? then FirstBy(a, hit) else FirstBy(b, hit)
  {
    if a == [] {
      assert a + b == b;
    } else {
      assert (a + b)[1..] == a[1..] + b;
      FirstByConcat(a[1..], b, hit);
    }
  }

  // Rules that pairwise give the same answer decide alike.
  lemma {:induction false} FirstBySame<R, S>(a: seq<R>, f: R -> Option<Goal>, b: seq<S>, g: S -> Option<Goal>)
    requires |a| == |b| && forall i :: 0 <= i < |a| ==> f(a[i]) == g(b[i])
    ensures FirstBy(a, f) == FirstBy(b, g)
  {
    if a != [] {
      FirstBySame(a[1..], f, b[1..], g);
    }
  }

  // Lists that decide alike section by section decide alike.
  lemma Sections<R, S>(a: seq<R>, a': seq<R>, f: R -> Option<Goal>, b: seq<S>, b': seq<S>, g: S -> Option<Goal>)
    requires FirstBy(a, f) == FirstBy(b, g) && FirstBy(a', f) == FirstBy(b', g)
    ensures FirstBy(a + a', f) == FirstBy(b + b', g)
  {
    FirstByConcat(a, a', f);
    FirstByConcat(b, b', g);
  }

  datatype Step = Step(atom: Atom, goal: Goal)

  function StepHit(p: Packet): Step -> Option<Goal> {
    (s: Step) => if Holds(p, s.atom) then Some(s.goal) else None
  }

  // First match over single questions.
  function First(steps: seq<Step>, p: Packet): Option<Goal> {
    FirstBy(steps, StepHit(p))
  }

  // ------------------------------------------------------------------ sing-box

  datatype Match = Private | Suffixes(domains: seq<string>) | RuleSet(tag: string) | Port(port: nat)

  datatype SbRule = SbRule(when: Match, outbound: string)

  datatype SbRuleSet = SbRuleSet(tag: string, geo: string, detour: string)

  const GEOSITE := "geosite-"
  const GEOIP := "geoip-"

  function SiteTag(code: string): string {
    GEOSITE + code
  }

  function IpTag(code: string): string {
    GEOIP + code
  }

  // What a rule set is about, from its tag.
  function TagAtom(tag: string): Option<Atom> {
    if GEOSITE <= tag then Some(Site(tag[|GEOSITE|..]))
    else if GEOIP <= tag then Some(Country(tag[|GEOIP|..]))
    else None
  }

  predicate SbMatches(m: Match, p: Packet) {
    match m
    case Private => p.isPrivate
    case Suffixes(ds) => exists d :: d in ds && p.Suffixed(d)
    case RuleSet(tag) => var a := TagAtom(tag); a.Some? && Holds(p, a.value)
    case Port(n) => p.port == n
  }

  function SbGoal(outbound: string): Goal {
    if outbound == "block" then Block else if outbound == "direct" then Direct else Proxy
  }

  function SbHit(p: Packet): SbRule -> Option<Goal> {
    (r: SbRule) => if SbMatches(r.when, p) then Some(SbGoal(r.outbound)) else None
  }

  function SbFirst(rules: seq<SbRule>, p: Packet): Option<Goal> {
    FirstBy(rules, SbHit(p))
  }

  function OutboundFor(action: Goal, hasProxy: bool): string {
    match action
    case Block => "block"
    case Proxy => if hasProxy then "proxy" else "direct"
    case Direct => "direct"
  }

  function BlockCodes(p: Profile): seq<string> {
    (if p.blockAds then ["category-ads-all"] else [])
    + (if p.blockAdult then ["category-porn"] else [])
    + (if p.blockGambling then ["category-gambling"] else [])
  }

  function SiteRules(codes: seq<string>, outbound: string): seq<SbRule> {
    seq(|codes|, i requires 0 <= i < |codes| => SbRule(RuleSet(SiteTag(codes[i])), outbound))
  }

  function IpRules(codes: seq<string>, outbound: string): seq<SbRule> {
    seq(|codes|, i requires 0 <= i < |codes| => SbRule(RuleSet(IpTag(codes[i])), outbound))
  }

  function AppSbRules(apps: seq<AppRule>, hasProxy: bool): seq<SbRule> {
    seq(|apps|, i requires 0 <= i < |apps| =>
      SbRule(RuleSet(SiteTag(apps[i].geosite)), OutboundFor(apps[i].action, hasProxy)))
  }

  function DomainRule(domains: seq<string>, outbound: string): seq<SbRule> {
    if domains == [] then [] else [SbRule(Suffixes(domains), outbound)]
  }

  // The rules singbox_rules pushes, in order: before, for and after the countries.
  function SbBaseRules(p: Profile): seq<SbRule> {
    SiteRules(BlockCodes(p), "block")
    + DomainRule(p.blockedDomains, "block")
    + (if p.directPrivate then [SbRule(Private, "direct")] else [])
    + DomainRule(p.directDomains, "direct")
    + SiteRules(p.directGeosite, "direct")
  }

  function SbTailRules(p: Profile, hasProxy: bool): seq<SbRule> {
    (if hasProxy then DomainRule(p.proxyDomains, "proxy") else []) + AppSbRules(p.appRules, hasProxy)
  }

  function SbRules(p: Profile, hasProxy: bool): seq<SbRule> {
    SbBaseRules(p) + IpRules(p.directGeoip, "direct") + SbTailRules(p, hasProxy)
  }

  // The route rules of the whole config.
  function SbRoute(profile: Option<Profile>, hasProxy: bool): seq<SbRule> {
    if profile.None? then [SbRule(Private, "direct")]
    else (if profile.value.dnsBlockPlain then [SbRule(Port(53), "block")] else []) + SbRules(profile.value, hasProxy)
  }

  function FinalProxy(profile: Option<Profile>): bool {
    profile.Some? ==> profile.value.finalProxy
  }

  function SbFinal(profile: Option<Profile>, hasProxy: bool): string {
    if hasProxy && FinalProxy(profile) then "proxy" else "direct"
  }

  function SbVerdict(profile: Option<Profile>, hasProxy: bool, p: Packet): Goal {
    SbFirst(SbRoute(profile, hasProxy), p).GetOr(SbGoal(SbFinal(profile, hasProxy)))
  }

  // --------------------------------------------------------------------- Clash

  datatype ClashRule =
    | Geosite(code: string, target: string)
    | DomainSuffix(domain: string, target: string)
    | GeoIp(code: string, target: string)
    | MatchAll(target: string)

  function UpperChar(c: char): char {
    if 'a' <= c <= 'z' then c - 'a' + 'A' else c
  }

  function LowerChar(c: char): char {
    if 'A' <= c <= 'Z' then c - 'A' + 'a' else c
  }

  function Upper(s: string): string {
    seq(|s|, i requires 0 <= i < |s| => UpperChar(s[i]))
  }

  function Lower(s: string): string {
    seq(|s|, i requires 0 <= i < |s| => LowerChar(s[i]))
  }

  // GEOIP takes two reserved names and otherwise country codes in any case.
  function GeoIpAtom(code: string): Atom {
    if code == "PRIVATE" || code == "LAN" then PrivateIp else Country(Lower(code))
  }

  predicate ClashMatches(r: ClashRule, p: Packet) {
    match r
    case Geosite(c, _) => p.site(c)
    case DomainSuffix(d, _) => p.Suffixed(d)
    case GeoIp(c, _) => Holds(p, GeoIpAtom(c))
    case MatchAll(_) => true
  }

  function ClashGoal(target: string): Goal {
    if target == "REJECT" then Block else if target == "DIRECT" then Direct else Proxy
  }

  function ClashHit(p: Packet): ClashRule -> Option<Goal> {
    (r: ClashRule) => if ClashMatches(r, p) then Some(ClashGoal(r.target)) else None
  }

  function ClashFirst(rules: seq<ClashRule>, p: Packet): Option<Goal> {
    FirstBy(rules, ClashHit(p))
  }

  // The target of the final rule and of everything meant for the proxy.
  function ClashTarget(profile: Option<Profile>, hasProxy: bool, group: string): string {
    if hasProxy && FinalProxy(profile) then group else "DIRECT"
  }

  function TargetFor(action: Goal, target: string): string {
    match action
    case Block => "REJECT"
    case Proxy => target
    case Direct => "DIRECT"
  }

  function GeositeRules(codes: seq<string>, target: string): seq<ClashRule> {
    seq(|codes|, i requires 0 <= i < |codes| => Geosite(codes[i], target))
  }

  function SuffixRules(domains: seq<string>, target: string): seq<ClashRule> {
    seq(|domains|, i requires 0 <= i < |domains| => DomainSuffix(domains[i], target))
  }

  function GeoIpRules(codes: seq<string>, target: string): seq<ClashRule> {
    seq(|codes|, i requires 0 <= i < |codes| => GeoIp(Upper(codes[i]), target))
  }

  function AppClashRules(apps: seq<AppRule>, target: string): seq<ClashRule> {
    seq(|apps|, i requires 0 <= i < |apps| => Geosite(apps[i].geosite, TargetFor(apps[i].action, target)))
  }

  function ClashBaseRules(p: Profile): seq<ClashRule> {
    GeositeRules(BlockCodes(p), "REJECT")
    + SuffixRules(p.blockedDomains, "REJECT")
    + (if p.directPrivate then [GeoIp("PRIVATE", "DIRECT")] else [])
    + SuffixRules(p.directDomains, "DIRECT")
    + GeositeRules(p.directGeosite, "DIRECT")
  }

  function ClashTailRules(p: Profile, target: string): seq<ClashRule> {
    SuffixRules(p.proxyDomains, target) + AppClashRules(p.appRules, target)
  }

  function ClashProfileRules(p: Profile, target: string): seq<ClashRule> {
    ClashBaseRules(p) + GeoIpRules(p.directGeoip, "DIRECT") + ClashTailRules(p, target)
  }

  function ClashRules(profile: Option<Profile>, hasProxy: bool, group: string): seq<ClashRule> {
    var target := ClashTarget(profile, hasProxy, group);
    (if profile.Some? then ClashProfileRules(profile.value, target)
     else [GeoIp("LAN", "DIRECT"), GeoIp("PRIVATE", "DIRECT")])
    + [MatchAll(target)]
  }

  function ClashVerdict(profile: Option<Profile>, hasProxy: bool, group: string, p: Packet): Goal {
    ClashFirst(ClashRules(profile, hasProxy, group), p).GetOr(Direct)
  }
}
