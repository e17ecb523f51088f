/**
 Assembly of the client configs (master/src/subscription.rs) and the references
 inside them: outbound, rule-set and DNS server tags in sing-box, rule targets and
 group members in Clash. An endpoint is the tag or name it renders to, or nothing
 when the format does not support it.
 */
module Subscription {
  import opened Picking
  import opened Routing
  import opened Wrappers

  // ------------------------------------------------------------------ sing-box

  datatype Outbound =
    | UrlTest(tag: string, members: seq<string>)
    | Selector(tag: string, members: seq<string>, default: string)
    | Server(tag: string)
    | Builtin(tag: string)

  datatype DnsServer = DnsServer(tag: string, address: string, detour: Option<string>, resolver: Option<string>)

  datatype Dns = Dns(servers: seq<DnsServer>, final: string, rule: Option<string>)

  datatype SbConfig = SbConfig(
    outbounds: seq<Outbound>,
    rules: seq<SbRule>,
    ruleSets: seq<SbRuleSet>,
    final: string,
    dns: Option<Dns>)

  ghost predicate HasOutbound(c: SbConfig, tag: string) {
    exists o :: o in c.outbounds && o.tag == tag
  }

  ghost predicate HasRuleSet(sets: seq<SbRuleSet>, tag: string) {
    exists s :: s in sets && s.tag == tag
  }

  ghost predicate HasServer(d: Dns, tag: string) {
    exists s :: s in d.servers && s.tag == tag
  }

  ghost predicate DnsClosed(c: SbConfig, d: Dns) {
    && HasServer(d, d.final)
    && (d.rule.Some? ==> HasServer(d, d.rule.value))
    && (forall s :: s in d.servers && s.detour.Some? ==> HasOutbound(c, s.detour.value))
    && (forall s :: s in d.servers && s.resolver.Some? ==> HasServer(d, s.resolver.value))
  }

  // Every tag that is used is defined.
  ghost predicate SbClosed(c: SbConfig) {
    && HasOutbound(c, c.final)
    && (forall r :: r in c.rules ==> HasOutbound(c, r.outbound))
    && (forall r :: r in c.rules && r.when.RuleSet? ==> HasRuleSet(c.ruleSets, r.when.tag))
    && (forall s :: s in c.ruleSets ==> HasOutbound(c, s.detour))
    && (forall o, m :: o in c.outbounds && (o.UrlTest? || o.Selector?) && m in o.members ==> HasOutbound(c, m))
    && (forall o :: o in c.outbounds && o.Selector? ==> o.default in o.members)
    && (c.dns.Some? ==> DnsClosed(c, c.dns.value))
  }

  // char::is_whitespace
  predicate IsSpace(c: char) {
    || '\U{0009}' <= c <= '\U{000D}' || c == ' ' || c == '\U{0085}' || c == '\U{00A0}' || c == '\U{1680}'
    || '\U{2000}' <= c <= '\U{200A}' || c == '\U{2028}' || c == '\U{2029}' || c == '\U{202F}'
    || c == '\U{205F}' || c == '\U{3000}'
  }

  predicate Blank(s: string) {
    forall i :: 0 <= i < |s| ==> IsSpace(s[i])
  }

  function Rendered(endpoints: seq<Option<string>>): seq<string> {
    if endpoints == [] then []
    else (if endpoints[0].Some? then [endpoints[0].value] else []) + Rendered(endpoints[1..])
  }

  // What is rendered is kept, in order.
  lemma {:induction false} RenderedPicks(endpoints: seq<Option<string>>)
    ensures Picks(endpoints, (e: Option<string>) => e.Some?, (e: Option<string>) => e.GetOr(""), Rendered(endpoints))
  {
    if endpoints != [] {
      RenderedPicks(endpoints[1..]);
      PicksNext(endpoints, (e: Option<string>) => e.Some?, (e: Option<string>) => e.GetOr(""),
                Rendered(endpoints[1..]));
    }
  }

  function TrimStart(s: string): string {
    if s != "" && IsSpace(s[0]) then TrimStart(s[1..]) else s
  }

  function TrimEnd(s: string): string {
    if s != "" && IsSpace(s[|s| - 1]) then TrimEnd(s[..|s| - 1]) else s
  }

  // str::trim
  function Trim(s: string): string {
    TrimEnd(TrimStart(s))
  }

  lemma {:induction false} TrimStartMeans(s: string) returns (front: string)
    ensures s == front + TrimStart(s) && Blank(front)
    ensures TrimStart(s) != "" ==> !IsSpace(TrimStart(s)[0])
  {
    front := "";
    if s != "" && IsSpace(s[0]) {
      var f := TrimStartMeans(s[1..]);
      assert s == [s[0]] + s[1..];
      front := [s[0]] + f;
    }
  }

  lemma {:induction false} TrimEndMeans(s: string) returns (back: string)
    ensures s == TrimEnd(s) + back && Blank(back)
    ensures TrimEnd(s) != "" ==> !IsSpace(TrimEnd(s)[|TrimEnd(s)| - 1])
  {
    back := "";
    if s != "" && IsSpace(s[|s| - 1]) {
      var init := s[..|s| - 1];
      var b := TrimEndMeans(init);
      assert s == init + [s[|s| - 1]];
      back := b + [s[|s| - 1]];
    }
  }

  // The text without the white space around it.
  lemma TrimMeans(s: string) returns (front: string, back: string)
    ensures s == front + Trim(s) + back && Blank(front) && Blank(back)
    ensures Trim(s) != "" ==> !IsSpace(Trim(s)[0]) && !IsSpace(Trim(s)[|Trim(s)| - 1])
    ensures Trim(s) == "" <==> Blank(s)
  {
    front := TrimStartMeans(s);
    back := TrimEndMeans(TrimStart(s));
    if Trim(s) != "" {
      assert Trim(s)[0] == TrimStart(s)[0] == s[|front|];
    }
  }

  function SiteSets(codes: seq<string>, detour: string): seq<SbRuleSet> {
    seq(|codes|, i requires 0 <= i < |codes| => SbRuleSet(SiteTag(codes[i]), "geosite", detour))
  }

  function IpSets(codes: seq<string>, detour: string): seq<SbRuleSet> {
    seq(|codes|, i requires 0 <= i < |codes| => SbRuleSet(IpTag(codes[i]), "geoip", detour))
  }

  function AppSites(apps: seq<AppRule>): seq<string> {
    seq(|apps|, i requires 0 <= i < |apps| => apps[i].geosite)
  }

  function RuleSets(p: Profile, detour: string): seq<SbRuleSet> {
    SiteSets(BlockCodes(p), detour) + SiteSets(p.directGeosite, detour)
    + IpSets(p.directGeoip, detour) + SiteSets(AppSites(p.appRules), detour)
  }

  // Some rule sends traffic to the block outbound.
  predicate Blocks(rules: seq<SbRule>) {
    exists r :: r in rules && r.outbound == "block"
  }

  method BlockCategory(code: string, detour: string, rules: seq<SbRule>, sets: seq<SbRuleSet>)
    returns (rules': seq<SbRule>, sets': seq<SbRuleSet>)
    ensures rules' == rules + SiteRules([code], "block")
    ensures sets' == sets + SiteSets([code], detour)
  {
    var tag := SiteTag(code);
    sets' := sets + [SbRuleSet(tag, "geosite", detour)];
    rules' := rules + [SbRule(RuleSet(tag), "block")];
  }

  // Some content filter is on.
  predicate Filters(p: Profile) {
    p.blockAds || p.blockAdult || p.blockGambling
  }

  // The blocked categories, as rules and rule sets.
  method BlockCategories(p: Profile, detour: string) returns (rules: seq<SbRule>, sets: seq<SbRuleSet>, needBlock: bool)
    ensures rules == SiteRules(BlockCodes(p), "block")
    ensures sets == SiteSets(BlockCodes(p), detour)
    ensures needBlock <==> Filters(p)
  {
    rules, sets, needBlock := [], [], false;
    if p.blockAds {
      rules, sets := BlockCategory("category-ads-all", detour, rules, sets);
      needBlock := true;
    }
    if p.blockAdult {
      rules, sets := BlockCategory("category-porn", detour, rules, sets);
      needBlock := true;
    }
    if p.blockGambling {
      rules, sets := BlockCategory("category-gambling", detour, rules, sets);
      needBlock := true;
    }
  }

  // The loop over the direct site categories.
  method PushSites(codes: seq<string>, detour: string, rules: seq<SbRule>, sets: seq<SbRuleSet>)
    returns (rules': seq<SbRule>, sets': seq<SbRuleSet>)
    ensures rules' == rules + SiteRules(codes, "direct")
    ensures sets' == sets + SiteSets(codes, detour)
  {
    rules', sets' := rules, sets;
    for i := 0 to |codes|
      invariant rules' == rules + SiteRules(codes[..i], "direct")
      invariant sets' == sets + SiteSets(codes[..i], detour)
    {
      sets' := sets' + [SbRuleSet(SiteTag(codes[i]), "geosite", detour)];
      rules' := rules' + [SbRule(RuleSet(SiteTag(codes[i])), "direct")];
    }
    assert codes[..|codes|] == codes;
  }

  // The loop over the direct countries.
  method PushCountries(codes: seq<string>, detour: string, rules: seq<SbRule>, sets: seq<SbRuleSet>)
    returns (rules': seq<SbRule>, sets': seq<SbRuleSet>)
    ensures rules' == rules + IpRules(codes, "direct")
    ensures sets' == sets + IpSets(codes, detour)
  {
    rules', sets' := rules, sets;
    for i := 0 to |codes|
      invariant rules' == rules + IpRules(codes[..i], "direct")
      invariant sets' == sets + IpSets(codes[..i], detour)
    {
      sets' := sets' + [SbRuleSet(IpTag(codes[i]), "geoip", detour)];
      rules' := rules' + [SbRule(RuleSet(IpTag(codes[i])), "direct")];
    }
    assert codes[..|codes|] == codes;
  }

  // The loop over the per-app rules.
  method PushApps(apps: seq<AppRule>, hasProxy: bool, detour: string, rules: seq<SbRule>, sets: seq<SbRuleSet>)
    returns (rules': seq<SbRule>, sets': seq<SbRuleSet>, needBlock: bool)
    ensures rules' == rules + AppSbRules(apps, hasProxy)
    ensures sets' == sets + SiteSets(AppSites(apps), detour)
    ensures needBlock <==> exists j :: 0 <= j < |apps| && apps[j].action == Block
  {
    rules', sets', needBlock := rules, sets, false;
    for i := 0 to |apps|
      invariant rules' == rules + AppSbRules(apps[..i], hasProxy)
      invariant sets' == sets + SiteSets(AppSites(apps[..i]), detour)
      invariant needBlock <==> exists j :: 0 <= j < i && apps[j].action == Block
    {
      var tag := SiteTag(apps[i].geosite);
      sets' := sets' + [SbRuleSet(tag, "geosite", detour)];
      if apps[i].action == Block {
        needBlock := true;
      }
      rules' := rules' + [SbRule(RuleSet(tag), OutboundFor(apps[i].action, hasProxy))];
    }
    assert apps[..|apps|] == apps;
  }

  // One rule for a non-empty list of suffixes.
  method PushDomains(domains: seq<string>, outbound: string, rules: seq<SbRule>) returns (rules': seq<SbRule>)
    ensures rules' == rules + DomainRule(domains, outbound)
  {
    rules' := rules;
    if domains != [] {
      rules' := rules + [SbRule(Suffixes(domains), outbound)];
    }
  }

  // The rules before the countries.
  method PushBase(p: Profile, detour: string) returns (rules: seq<SbRule>, sets: seq<SbRuleSet>, needBlock: bool)
    ensures rules == SbBaseRules(p)
    ensures sets == SiteSets(BlockCodes(p), detour) + SiteSets(p.directGeosite, detour)
    ensures needBlock <==> Filters(p) || p.blockedDomains != []
  {
    rules, sets, needBlock := BlockCategories(p, detour);
    rules := PushDomains(p.blockedDomains, "block", rules);
    needBlock := needBlock || p.blockedDomains != [];
    rules := rules + if p.directPrivate then [SbRule(Private, "direct")] else [];
    rules := PushDomains(p.directDomains, "direct", rules);
    rules, sets := PushSites(p.directGeosite, detour, rules, sets);
  }

  // The rules after the countries.
  method PushTail(p: Profile, hasProxy: bool, detour: string, rules: seq<SbRule>, sets: seq<SbRuleSet>)
    returns (rules': seq<SbRule>, sets': seq<SbRuleSet>, needBlock: bool)
    ensures rules' == rules + SbTailRules(p, hasProxy)
    ensures sets' == sets + SiteSets(AppSites(p.appRules), detour)
    ensures needBlock <==> exists j :: 0 <= j < |p.appRules| && p.appRules[j].action == Block
  {
    rules' := PushDomains(if hasProxy then p.proxyDomains else [], "proxy", rules);
    rules', sets', needBlock := PushApps(p.appRules, hasProxy, detour, rules', sets);
  }

  method SingboxRules(p: Profile, hasProxy: bool) returns (rules: seq<SbRule>, sets: seq<SbRuleSet>, needBlock: bool)
    ensures rules == SbRules(p, hasProxy)
    ensures sets == RuleSets(p, if hasProxy then "proxy" else "direct")
    ensures needBlock <==> Blocks(rules)
  {
    var detour := if hasProxy then "proxy" else "direct";
    rules, sets, needBlock := PushBase(p, detour);
    rules, sets := PushCountries(p.directGeoip, detour, rules, sets);
    var appBlocks;
    rules, sets, appBlocks := PushTail(p, hasProxy, detour, rules, sets);
    needBlock := needBlock || appBlocks;
    BlockUse(p, hasProxy);
  }

  // ------------------------------------------------------------ use of the block

  lemma BlocksConcat(a: seq<SbRule>, b: seq<SbRule>)
    ensures Blocks(a + b) <==> Blocks(a) || Blocks(b)
  {
    if r :| r in a + b && r.outbound == "block" {
      assert r in a || r in b;
    }
  }

  lemma AllBlock(rules: seq<SbRule>)
    requires forall i :: 0 <= i < |rules| ==> rules[i].outbound == "block"
    ensures Blocks(rules) <==> rules != []
  {
    if rules != [] {
      assert rules[0] in rules;
    }
  }

  lemma NoneBlocks(rules: seq<SbRule>)
    requires forall i :: 0 <= i < |rules| ==> rules[i].outbound != "block"
    ensures !Blocks(rules)
  {
  }

  lemma BaseBlocks(p: Profile)
    ensures Blocks(SbBaseRules(p)) <==> Filters(p) || p.blockedDomains != []
  {
    var a, b := SiteRules(BlockCodes(p), "block"), DomainRule(p.blockedDomains, "block");
    var c, d, e :=
      if p.directPrivate then [SbRule(Private, "direct")] else [],
      DomainRule(p.directDomains, "direct"),
      SiteRules(p.directGeosite, "direct");
    AllBlock(a);
    AllBlock(b);
    NoneBlocks(c);
    NoneBlocks(d);
    NoneBlocks(e);
    BlocksConcat(a, b);
    BlocksConcat(a + b, c);
    BlocksConcat(a + b + c, d);
    BlocksConcat(a + b + c + d, e);
  }

  lemma TailBlocks(p: Profile, hasProxy: bool)
    ensures Blocks(SbTailRules(p, hasProxy)) <==> exists j :: 0 <= j < |p.appRules| && p.appRules[j].action == Block
  {
    var mid, apps := if hasProxy then DomainRule(p.proxyDomains, "proxy") else [], AppSbRules(p.appRules, hasProxy);
    NoneBlocks(mid);
    BlocksConcat(mid, apps);
    if j :| 0 <= j < |p.appRules| && p.appRules[j].action == Block {
      assert apps[j] in apps;
    }
  }

  // When the rules of a profile use the block outbound.
  lemma BlockUse(p: Profile, hasProxy: bool)
    ensures Blocks(SbRules(p, hasProxy)) <==>
            || p.blockAds || p.blockAdult || p.blockGambling
            || p.blockedDomains != []
            || exists j :: 0 <= j < |p.appRules| && p.appRules[j].action == Block
  {
    var ips := IpRules(p.directGeoip, "direct");
    BaseBlocks(p);
    NoneBlocks(ips);
    TailBlocks(p, hasProxy);
    BlocksConcat(SbBaseRules(p), ips);
    BlocksConcat(SbBaseRules(p) + ips, SbTailRules(p, hasProxy));
  }

  // ----------------------------------------------------------------- tags of rules

  ghost predicate Supplied(r: SbRule, sets: seq<SbRuleSet>, hasProxy: bool) {
    && (r.outbound == "direct" || r.outbound == "block" || (hasProxy && r.outbound == "proxy"))
    && (r.when.RuleSet? ==> HasRuleSet(sets, r.when.tag))
  }

  ghost predicate AllSupplied(rules: seq<SbRule>, sets: seq<SbRuleSet>, hasProxy: bool) {
    forall r :: r in rules ==> Supplied(r, sets, hasProxy)
  }

  lemma SuppliedConcat(a: seq<SbRule>, b: seq<SbRule>, sets: seq<SbRuleSet>, hasProxy: bool)
    requires AllSupplied(a, sets, hasProxy) && AllSupplied(b, sets, hasProxy)
    ensures AllSupplied(a + b, sets, hasProxy)
  {
  }

  // Rules whose tags are, place by place, those of some of the rule sets.
  lemma SuppliedSection(rules: seq<SbRule>, own: seq<SbRuleSet>, sets: seq<SbRuleSet>, hasProxy: bool)
    requires |rules| == |own| && forall s :: s in own ==> s in sets
    requires forall i :: 0 <= i < |rules| ==>
               && rules[i].when == RuleSet(own[i].tag)
               && (|| rules[i].outbound == "direct"
                   || rules[i].outbound == "block"
                   || (hasProxy && rules[i].outbound == "proxy"))
    ensures AllSupplied(rules, sets, hasProxy)
  {
    forall r | r in rules
      ensures Supplied(r, sets, hasProxy)
    {
      var i :| 0 <= i < |rules| && rules[i] == r;
      assert own[i] in own;
    }
  }

  lemma BaseSupplied(p: Profile, sets: seq<SbRuleSet>, detour: string, hasProxy: bool)
    requires forall s :: s in SiteSets(BlockCodes(p), detour) || s in SiteSets(p.directGeosite, detour) ==> s in sets
    ensures AllSupplied(SbBaseRules(p), sets, hasProxy)
  {
    var a, b := SiteRules(BlockCodes(p), "block"), DomainRule(p.blockedDomains, "block");
    var c, d, e :=
      if p.directPrivate then [SbRule(Private, "direct")] else [],
      DomainRule(p.directDomains, "direct"),
      SiteRules(p.directGeosite, "direct");
    SuppliedSection(a, SiteSets(BlockCodes(p), detour), sets, hasProxy);
    SuppliedSection(e, SiteSets(p.directGeosite, detour), sets, hasProxy);
    SuppliedConcat(a, b, sets, hasProxy);
    SuppliedConcat(a + b, c, sets, hasProxy);
    SuppliedConcat(a + b + c, d, sets, hasProxy);
    SuppliedConcat(a + b + c + d, e, sets, hasProxy);
  }

  lemma TailSupplied(p: Profile, sets: seq<SbRuleSet>, detour: string, hasProxy: bool)
    requires forall s :: s in SiteSets(AppSites(p.appRules), detour) ==> s in sets
    ensures AllSupplied(SbTailRules(p, hasProxy), sets, hasProxy)
  {
    var mid, apps := if hasProxy then DomainRule(p.proxyDomains, "proxy") else [], AppSbRules(p.appRules, hasProxy);
    SuppliedSection(apps, SiteSets(AppSites(p.appRules), detour), sets, hasProxy);
    SuppliedConcat(mid, apps, sets, hasProxy);
  }

  // Every rule of a profile uses a tag that the rest of the config supplies.
  lemma RuleTargets(p: Profile, hasProxy: bool)
    ensures AllSupplied(SbRules(p, hasProxy), RuleSets(p, if hasProxy then "proxy" else "direct"), hasProxy)
  {
    var detour := if hasProxy then "proxy" else "direct";
    var sets, ips := RuleSets(p, detour), IpRules(p.directGeoip, "direct");
    BaseSupplied(p, sets, detour, hasProxy);
    SuppliedSection(ips, IpSets(p.directGeoip, detour), sets, hasProxy);
    TailSupplied(p, sets, detour, hasProxy);
    SuppliedConcat(SbBaseRules(p), ips, sets, hasProxy);
    SuppliedConcat(SbBaseRules(p) + ips, SbTailRules(p, hasProxy), sets, hasProxy);
  }

  // A DNS section whose servers refer to each other, and outside only to the
  // outbounds that always exist for its proxy situation.
  ghost predicate DnsOwn(d: Dns, hasProxy: bool) {
    && HasServer(d, d.final)
    && (d.rule.Some? ==> HasServer(d, d.rule.value))
    && forall s :: s in d.servers ==>
         && (s.detour.Some? ==> s.detour.value == "direct" || (hasProxy && s.detour.value == "proxy"))
         && (s.resolver.Some? ==> HasServer(d, s.resolver.value))
  }

  // The resolver of the profile answers, through the proxy if there is one; its own
  // name is looked up directly; and address questions go to the fake pool if that is
  // wanted.
  ghost predicate Tunnelled(d: Dns, doh: string, fakeip: bool, hasProxy: bool) {
    && (exists s, t :: s in d.servers && t in d.servers && Resolves(d, s, t, doh, hasProxy))
    && (d.rule.Some? <==> fakeip)
    && (fakeip ==> exists s :: s in d.servers && s.tag == d.rule.value && s.address == "fakeip" && s.detour.None?)
    && forall i, j :: 0 <= i < j < |d.servers| ==> d.servers[i].tag != d.servers[j].tag
  }

  predicate Resolves(d: Dns, s: DnsServer, t: DnsServer, doh: string, hasProxy: bool) {
    && s.tag == d.final && s.address == doh && s.detour == Some(if hasProxy then "proxy" else "direct")
    && s.resolver == Some(t.tag) && t.address == "local" && t.detour == Some("direct") && t.resolver.None?
  }

  // The servers: the resolver, the one that looks up its name, and the fake pool.
  function DnsServers(doh: string, fakeip: bool, hasProxy: bool): seq<DnsServer> {
    [DnsServer("remote", doh, Some(if hasProxy then "proxy" else "direct"), Some("local")),
     DnsServer("local", "local", Some("direct"), None)]
    + if fakeip then [DnsServer("fakeip", "fakeip", None, None)] else []
  }

  lemma DnsServersTunnel(d: Dns, doh: string, fakeip: bool, hasProxy: bool)
    requires d == Dns(DnsServers(doh, fakeip, hasProxy), "remote", if fakeip then Some("fakeip") else None)
    ensures DnsOwn(d, hasProxy) && Tunnelled(d, doh, fakeip, hasProxy)
  {
    var s := d.servers;
    assert s[0] in s && s[1] in s && (fakeip ==> s[2] in s);
    assert Resolves(d, s[0], s[1], doh, hasProxy);
    assert HasServer(d, "local") && HasServer(d, "remote") && (fakeip ==> HasServer(d, "fakeip"));
  }

  method DnsBlock(p: Profile, hasProxy: bool) returns (dns: Option<Dns>)
    ensures dns.None? <==> Blank(p.dnsDoh)
    ensures dns.Some? ==> DnsOwn(dns.value, hasProxy) && Tunnelled(dns.value, Trim(p.dnsDoh), p.dnsFakeip, hasProxy)
  {
    var doh := Trim(p.dnsDoh);
    ghost var _, _ := TrimMeans(p.dnsDoh);
    if doh == "" {
      return None;
    }
    var detour := if hasProxy then "proxy" else "direct";
    var servers := [DnsServer("remote", doh, Some(detour), Some("local")),
                    DnsServer("local", "local", Some("direct"), None)];
    var rule: Option<string> := None;
    if p.dnsFakeip {
      servers := servers + [DnsServer("fakeip", "fakeip", None, None)];
      rule := Some("fakeip");
    }
    assert servers == DnsServers(doh, p.dnsFakeip, hasProxy);
    dns := Some(Dns(servers, "remote", rule));
    DnsServersTunnel(dns.value, doh, p.dnsFakeip, hasProxy);
  }

  // The outbounds: the groups, the proxies, direct, and block when it is needed.
  function Outbounds(tags: seq<string>, needBlock: bool): seq<Outbound> {
    (if tags == [] then [] else [UrlTest("auto", tags), Selector("proxy", ["auto"] + tags, "auto")])
    + seq(|tags|, i requires 0 <= i < |tags| => Server(tags[i]))
    + [Builtin("direct")]
    + (if needBlock then [Builtin("block")] else [])
  }

  // Exactly these: an automatic group over all proxies, a selector over that group and
  // the proxies, the proxies, and the built-in ones.
  lemma OutboundsMean(tags: seq<string>, needBlock: bool, o: Outbound)
    ensures o in Outbounds(tags, needBlock) <==>
            || (tags != [] && (o == UrlTest("auto", tags) || o == Selector("proxy", ["auto"] + tags, "auto")))
            || (o.Server? && o.tag in tags)
            || o == Builtin("direct")
            || (needBlock && o == Builtin("block"))
  {
    var groups := if tags == [] then [] else [UrlTest("auto", tags), Selector("proxy", ["auto"] + tags, "auto")];
    var servers := seq(|tags|, i requires 0 <= i < |tags| => Server(tags[i]));
    var block := if needBlock then [Builtin("block")] else [];
    assert Outbounds(tags, needBlock) == groups + servers + [Builtin("direct")] + block;
    if o.Server? && o.tag in tags {
      var i :| 0 <= i < |tags| && tags[i] == o.tag;
      assert servers[i] == o;
    }
  }

  lemma HasBuiltins(c: SbConfig, tags: seq<string>, needBlock: bool)
    requires c.outbounds == Outbounds(tags, needBlock)
    ensures HasOutbound(c, "direct")
    ensures needBlock ==> HasOutbound(c, "block")
    ensures tags != [] ==> HasOutbound(c, "auto") && HasOutbound(c, "proxy")
  {
    assert Builtin("direct") in c.outbounds;
    assert needBlock ==> Builtin("block") in c.outbounds;
    if tags != [] {
      assert c.outbounds[0] == UrlTest("auto", tags);
      assert c.outbounds[1] == Selector("proxy", ["auto"] + tags, "auto");
    }
  }

  lemma HasServerTag(c: SbConfig, tags: seq<string>, needBlock: bool, t: string)
    requires c.outbounds == Outbounds(tags, needBlock) && t in tags
    ensures HasOutbound(c, t)
  {
    var i :| 0 <= i < |tags| && tags[i] == t;
    assert c.outbounds[2 + i] == Server(t);
  }

  // The groups are the first two outbounds.
  lemma GroupKinds(tags: seq<string>, needBlock: bool, o: Outbound)
    requires o in Outbounds(tags, needBlock) && (o.UrlTest? || o.Selector?)
    ensures o == UrlTest("auto", tags) || o == Selector("proxy", ["auto"] + tags, "auto")
    ensures tags != []
  {
    var all := Outbounds(tags, needBlock);
    var i :| 0 <= i < |all| && all[i] == o;
  }

  lemma GroupsClosed(c: SbConfig, tags: seq<string>, needBlock: bool)
    requires c.outbounds == Outbounds(tags, needBlock)
    ensures forall o, m :: o in c.outbounds && (o.UrlTest? || o.Selector?) && m in o.members ==> HasOutbound(c, m)
    ensures forall o :: o in c.outbounds && o.Selector? ==> o.default in o.members
  {
    forall o, m | o in c.outbounds && (o.UrlTest? || o.Selector?) && m in o.members
      ensures HasOutbound(c, m)
    {
      GroupKinds(tags, needBlock, o);
      MemberDefined(c, tags, needBlock, m);
    }
    forall o | o in c.outbounds && o.Selector?
      ensures o.default in o.members
    {
      GroupKinds(tags, needBlock, o);
      assert o.members[0] == o.default;
    }
  }

  lemma MemberDefined(c: SbConfig, tags: seq<string>, needBlock: bool, m: string)
    requires c.outbounds == Outbounds(tags, needBlock) && tags != [] && (m in tags || m == "auto")
    ensures HasOutbound(c, m)
  {
    if m in tags {
      HasServerTag(c, tags, needBlock, m);
    } else {
      HasBuiltins(c, tags, needBlock);
    }
  }

  // The tags of the endpoints that render.
  method RenderTags(endpoints: seq<Option<string>>) returns (tags: seq<string>)
    ensures tags == Rendered(endpoints)
  {
    tags := [];
    for i := 0 to |endpoints|
      invariant Rendered(endpoints) == tags + Rendered(endpoints[i..])
    {
      assert endpoints[i..][1..] == endpoints[i + 1..];
      if endpoints[i].Some? {
        tags := tags + [endpoints[i].value];
      }
    }
  }

  // The route rules and their rule sets.
  method Route(profile: Option<Profile>, hasProxy: bool)
    returns (rules: seq<SbRule>, sets: seq<SbRuleSet>, needBlock: bool)
    ensures rules == SbRoute(profile, hasProxy)
    ensures sets == RouteSets(profile, hasProxy)
    ensures needBlock <==> Blocks(rules)
  {
    if profile.None? {
      return [SbRule(Private, "direct")], [], false;
    }
    rules, sets, needBlock := SingboxRules(profile.value, hasProxy);
    if profile.value.dnsBlockPlain {
      needBlock := true;
      rules := [SbRule(Port(53), "block")] + rules;
      assert rules[0].outbound == "block";
    }
  }

  function RouteSets(profile: Option<Profile>, hasProxy: bool): seq<SbRuleSet> {
    if profile.None? then [] else RuleSets(profile.value, if hasProxy then "proxy" else "direct")
  }

  lemma RouteTargets(profile: Option<Profile>, hasProxy: bool)
    ensures AllSupplied(SbRoute(profile, hasProxy), RouteSets(profile, hasProxy), hasProxy)
  {
    if profile.Some? {
      RuleTargets(profile.value, hasProxy);
      var dns := if profile.value.dnsBlockPlain then [SbRule(Port(53), "block")] else [];
      SuppliedConcat(dns, SbRules(profile.value, hasProxy), RouteSets(profile, hasProxy), hasProxy);
    }
  }

  // A supplied rule finds its outbound.
  lemma RuleClosed(c: SbConfig, tags: seq<string>, r: SbRule)
    requires r in c.rules && c.outbounds == Outbounds(tags, Blocks(c.rules)) && Supplied(r, c.ruleSets, tags != [])
    ensures HasOutbound(c, r.outbound)
  {
    HasBuiltins(c, tags, Blocks(c.rules));
    assert r.outbound == "block" ==> Blocks(c.rules);
  }

  lemma DnsPart(c: SbConfig, tags: seq<string>, needBlock: bool, d: Dns)
    requires c.outbounds == Outbounds(tags, needBlock)
    requires DnsOwn(d, tags != [])
    ensures DnsClosed(c, d)
  {
    HasBuiltins(c, tags, needBlock);
  }

  lemma RuleSetPart(c: SbConfig, profile: Profile, tags: seq<string>, needBlock: bool)
    requires c.outbounds == Outbounds(tags, needBlock)
    requires c.ruleSets == RuleSets(profile, if tags != [] then "proxy" else "direct")
    ensures forall s :: s in c.ruleSets ==> HasOutbound(c, s.detour)
  {
    HasBuiltins(c, tags, needBlock);
  }

  lemma ConfigClosed(c: SbConfig, profile: Option<Profile>, tags: seq<string>)
    requires c.rules == SbRoute(profile, tags != []) && c.final == SbFinal(profile, tags != [])
    requires c.outbounds == Outbounds(tags, Blocks(c.rules))
    requires c.ruleSets == RouteSets(profile, tags != [])
    requires c.dns.Some? ==> DnsOwn(c.dns.value, tags != [])
    ensures SbClosed(c)
  {
    HasBuiltins(c, tags, Blocks(c.rules));
    GroupsClosed(c, tags, Blocks(c.rules));
    if profile.Some? {
      RuleSetPart(c, profile.value, tags, Blocks(c.rules));
    }
    if c.dns.Some? {
      DnsPart(c, tags, Blocks(c.rules), c.dns.value);
    }
    RouteTargets(profile, tags != []);
    forall r | r in c.rules
      ensures HasOutbound(c, r.outbound)
    {
      RuleClosed(c, tags, r);
    }
  }

  method SingboxConfig(endpoints: seq<Option<string>>, profile: Option<Profile>) returns (c: SbConfig)
    ensures c.rules == SbRoute(profile, Rendered(endpoints) != [])
    ensures c.final == SbFinal(profile, Rendered(endpoints) != [])
    ensures c.outbounds == Outbounds(Rendered(endpoints), Blocks(c.rules))
    ensures c.ruleSets == RouteSets(profile, Rendered(endpoints) != [])
    ensures c.dns.Some? <==> profile.Some? && !Blank(profile.value.dnsDoh)
    ensures c.dns.Some? ==>
              Tunnelled(c.dns.value, Trim(profile.value.dnsDoh), profile.value.dnsFakeip, Rendered(endpoints) != [])
    ensures SbClosed(c)
  {
    var tags := RenderTags(endpoints);
    var hasProxy := tags != [];
    var final := if hasProxy && FinalProxy(profile) then "proxy" else "direct";
    var rules, sets, needBlock := Route(profile, hasProxy);
    var dns := None;
    if profile.Some? {
      dns := DnsBlock(profile.value, hasProxy);
    }
    c := SbConfig(Outbounds(tags, needBlock), rules, sets, final, dns);
    ConfigClosed(c, profile, tags);
  }

  // -------------------------------------------------------------- needed rule sets

  // The profile names the site category.
  predicate NamesSite(p: Profile, code: string) {
    || (p.blockAds && code == "category-ads-all")
    || (p.blockAdult && code == "category-porn")
    || (p.blockGambling && code == "category-gambling")
    || code in p.directGeosite
    || exists i :: 0 <= i < |p.appRules| && p.appRules[i].geosite == code
  }

  ghost predicate Needed(p: Profile, s: SbRuleSet) {
    || (s.geo == "geosite" && exists c :: NamesSite(p, c) && s.tag == "geosite-" + c)
    || (s.geo == "geoip" && exists c :: c in p.directGeoip && s.tag == "geoip-" + c)
  }

  lemma SiteSetsMean(codes: seq<string>, detour: string, s: SbRuleSet)
    ensures s in SiteSets(codes, detour) <==>
            s.geo == "geosite" && s.detour == detour && exists c :: c in codes && s.tag == "geosite-" + c
  {
    var sets := SiteSets(codes, detour);
    if s.geo == "geosite" && s.detour == detour {
      if c :| c in codes && s.tag == "geosite-" + c {
        var i :| 0 <= i < |codes| && codes[i] == c;
        assert sets[i] == s;
      }
    }
    if s in sets {
      var i :| 0 <= i < |sets| && sets[i] == s;
      assert codes[i] in codes;
    }
  }

  lemma IpSetsMean(codes: seq<string>, detour: string, s: SbRuleSet)
    ensures s in IpSets(codes, detour) <==>
            s.geo == "geoip" && s.detour == detour && exists c :: c in codes && s.tag == "geoip-" + c
  {
    var sets := IpSets(codes, detour);
    if s.geo == "geoip" && s.detour == detour {
      if c :| c in codes && s.tag == "geoip-" + c {
        var i :| 0 <= i < |codes| && codes[i] == c;
        assert sets[i] == s;
      }
    }
    if s in sets {
      var i :| 0 <= i < |sets| && sets[i] == s;
      assert codes[i] in codes;
    }
  }

  lemma NamedSites(p: Profile, c: string)
    ensures NamesSite(p, c) <==> c in BlockCodes(p) || c in p.directGeosite || c in AppSites(p.appRules)
  {
    var apps := AppSites(p.appRules);
    assert p.blockAds ==> "category-ads-all" in BlockCodes(p);
    assert p.blockAdult ==> "category-porn" in BlockCodes(p);
    assert p.blockGambling ==> "category-gambling" in BlockCodes(p);
    if i :| 0 <= i < |p.appRules| && p.appRules[i].geosite == c {
      assert apps[i] == c;
    }
  }

  // The rule sets that are declared are those the profile needs, each downloaded the
  // given way.
  lemma RuleSetsMean(p: Profile, detour: string, s: SbRuleSet)
    ensures s in RuleSets(p, detour) <==> s.detour == detour && Needed(p, s)
  {
    SiteSetsMean(BlockCodes(p), detour, s);
    SiteSetsMean(p.directGeosite, detour, s);
    IpSetsMean(p.directGeoip, detour, s);
    SiteSetsMean(AppSites(p.appRules), detour, s);
    forall c: string
      ensures NamesSite(p, c) <==> c in BlockCodes(p) || c in p.directGeosite || c in AppSites(p.appRules)
    {
      NamedSites(p, c);
    }
  }

  // Without a profile there are none; they are downloaded through the proxy if there
  // is one.
  lemma RouteSetsMean(profile: Option<Profile>, hasProxy: bool, s: SbRuleSet)
    ensures s in RouteSets(profile, hasProxy) <==>
            && profile.Some? && Needed(profile.value, s)
            && s.detour == (if hasProxy then "proxy" else "direct")
  {
    if profile.Some? {
      RuleSetsMean(profile.value, if hasProxy then "proxy" else "direct", s);
    }
  }

  // ------------------------------------------------------------ distinct rule sets

  predicate Distinct(xs: seq<string>) {
    forall i, j :: 0 <= i < j < |xs| ==> xs[i] != xs[j]
  }

  function SetTags(sets: seq<SbRuleSet>): seq<string> {
    seq(|sets|, i requires 0 <= i < |sets| => sets[i].tag)
  }

  // The site codes a profile names, in the order of their rule sets.
  function SiteCodes(p: Profile): seq<string> {
    BlockCodes(p) + p.directGeosite + AppSites(p.appRules)
  }

  function Tagged(prefix: string, codes: seq<string>): seq<string> {
    seq(|codes|, i requires 0 <= i < |codes| => prefix + codes[i])
  }

  lemma TaggedDistinct(prefix: string, codes: seq<string>)
    ensures Distinct(Tagged(prefix, codes)) <==> Distinct(codes)
  {
    var tags := Tagged(prefix, codes);
    forall i, j | 0 <= i < j < |codes|
      ensures tags[i] == tags[j] <==> codes[i] == codes[j]
    {
      assert tags[i][|prefix|..] == codes[i];
      assert tags[j][|prefix|..] == codes[j];
    }
  }

  // A rule set is declared twice exactly when a profile names a site category or
  // a country twice, be it as a blocked category, a direct site or an app.
  lemma RuleSetsDistinct(p: Profile, detour: string)
    ensures Distinct(SetTags(RuleSets(p, detour))) <==> Distinct(SiteCodes(p)) && Distinct(p.directGeoip)
  {
    var b, g, c, a := BlockCodes(p), p.directGeosite, p.directGeoip, AppSites(p.appRules);
    var tags := SetTags(RuleSets(p, detour));
    var sites, ips := Tagged(GEOSITE, SiteCodes(p)), Tagged(GEOIP, c);
    TaggedDistinct(GEOSITE, SiteCodes(p));
    TaggedDistinct(GEOIP, c);
    assert tags == Tagged(GEOSITE, b + g) + ips + Tagged(GEOSITE, a);
    assert sites == Tagged(GEOSITE, b + g) + Tagged(GEOSITE, a);
    MiddleDistinct(Tagged(GEOSITE, b + g), ips, Tagged(GEOSITE, a));
  }

  // Site tags and country tags never meet, so they can be looked at apart.
  lemma MiddleDistinct(x: seq<string>, y: seq<string>, z: seq<string>)
    requires forall i :: 0 <= i < |x| ==> GEOSITE <= x[i]
    requires forall i :: 0 <= i < |z| ==> GEOSITE <= z[i]
    requires forall i :: 0 <= i < |y| ==> GEOIP <= y[i]
    ensures Distinct(x + y + z) <==> Distinct(x + z) && Distinct(y)
  {
    forall s, t | (s in x || s in z) && t in y
      ensures s != t
    {
      assert s[3] == 's' && t[3] == 'i';
    }
    DistinctConcat(x + y, z);
    DistinctConcat(x, y);
    DistinctConcat(x, z);
  }

  // ------------------------------------------------------------ distinct outbounds

  function OutboundTags(outbounds: seq<Outbound>): seq<string> {
    seq(|outbounds|, i requires 0 <= i < |outbounds| => outbounds[i].tag)
  }

  // The tags the config emits on its own next to rendered ones.
  function Emitted(needBlock: bool): seq<string> {
    ["auto", "proxy", "direct"] + if needBlock then ["block"] else []
  }

  lemma DistinctConcat(a: seq<string>, b: seq<string>)
    ensures Distinct(a + b) <==> Distinct(a) && Distinct(b) && forall x :: x in a ==> x !in b
  {
    var all := a + b;
    assert forall i :: 0 <= i < |a| ==> all[i] == a[i];
    assert forall j :: 0 <= j < |b| ==> all[|a| + j] == b[j];
    if Distinct(all) {
      forall i, j | 0 <= i < j < |b|
        ensures b[i] != b[j]
      {
        assert all[|a| + i] != all[|a| + j];
      }
    } else {
      var i, j :| 0 <= i < j < |all| && all[i] == all[j];
      assert i >= |a| ==> b[i - |a|] == b[j - |a|];
      assert i < |a| <= j ==> a[i] in a && b[j - |a|] in b;
    }
  }

  const GROUPS := ["auto", "proxy"]

  function Builtins(needBlock: bool): seq<string> {
    ["direct"] + if needBlock then ["block"] else []
  }

  lemma TagsOfOutbounds(tags: seq<string>, needBlock: bool)
    ensures OutboundTags(Outbounds(tags, needBlock)) == (if tags == [] then [] else GROUPS) + tags + Builtins(needBlock)
  {
  }

  lemma OwnTagsDistinct(needBlock: bool)
    ensures Distinct(GROUPS) && Distinct(Builtins(needBlock))
    ensures forall t :: t in GROUPS ==> t !in Builtins(needBlock)
    ensures forall t :: t in Emitted(needBlock) <==> t in GROUPS || t in Builtins(needBlock)
  {
    assert Emitted(needBlock) == GROUPS + Builtins(needBlock);
  }

  // An outbound is declared twice exactly when two endpoints render to one tag or one
  // renders to a tag that the config emits anyway.
  lemma OutboundsDistinct(tags: seq<string>, needBlock: bool)
    ensures Distinct(OutboundTags(Outbounds(tags, needBlock))) <==>
            Distinct(tags) && forall t :: t in tags ==> t !in Emitted(needBlock)
  {
    TagsOfOutbounds(tags, needBlock);
    OwnTagsDistinct(needBlock);
    if tags == [] {
      assert [] + tags + Builtins(needBlock) == Builtins(needBlock);
    } else {
      DistinctConcat(GROUPS + tags, Builtins(needBlock));
      DistinctConcat(GROUPS, tags);
    }
  }

  // --------------------------------------------------------------------- Clash

  datatype Group = Group(name: string, members: seq<string>)

  datatype ClashConfig = ClashConfig(proxies: seq<string>, groups: seq<Group>, rules: seq<ClashRule>)

  ghost predicate ClashDefines(c: ClashConfig, name: string) {
    name in c.proxies || exists g :: g in c.groups && g.name == name
  }

  // Every target is a built-in or defined, and every group member is defined.
  ghost predicate ClashClosed(c: ClashConfig) {
    && (forall r :: r in c.rules ==> r.target == "DIRECT" || r.target == "REJECT" || ClashDefines(c, r.target))
    && (forall g, m :: g in c.groups && m in g.members ==> ClashDefines(c, m))
  }

  function GroupName(setting: Option<string>): string {
    if setting.Some? && !Blank(setting.value) then setting.value else "Proxy"
  }

  function AutoName(group: string): string {
    if group == "Auto" then "Auto latency" else "Auto"
  }

  method ClashDomains(domains: seq<string>, target: string, rules: seq<ClashRule>) returns (rules': seq<ClashRule>)
    ensures rules' == rules + SuffixRules(domains, target)
  {
    rules' := rules;
    for i := 0 to |domains|
      invariant rules' == rules + SuffixRules(domains[..i], target)
    {
      rules' := rules' + [DomainSuffix(domains[i], target)];
    }
    assert domains[..|domains|] == domains;
  }

  method ClashSites(codes: seq<string>, rules: seq<ClashRule>) returns (rules': seq<ClashRule>)
    ensures rules' == rules + GeositeRules(codes, "DIRECT")
  {
    rules' := rules;
    for i := 0 to |codes|
      invariant rules' == rules + GeositeRules(codes[..i], "DIRECT")
    {
      rules' := rules' + [Geosite(codes[i], "DIRECT")];
    }
    assert codes[..|codes|] == codes;
  }

  method ClashCountries(codes: seq<string>, rules: seq<ClashRule>) returns (rules': seq<ClashRule>)
    ensures rules' == rules + GeoIpRules(codes, "DIRECT")
  {
    rules' := rules;
    for i := 0 to |codes|
      invariant rules' == rules + GeoIpRules(codes[..i], "DIRECT")
    {
      rules' := rules' + [GeoIp(Upper(codes[i]), "DIRECT")];
    }
    assert codes[..|codes|] == codes;
  }

  method ClashApps(apps: seq<AppRule>, target: string, rules: seq<ClashRule>) returns (rules': seq<ClashRule>)
    ensures rules' == rules + AppClashRules(apps, target)
  {
    rules' := rules;
    for i := 0 to |apps|
      invariant rules' == rules + AppClashRules(apps[..i], target)
    {
      rules' := rules' + [Geosite(apps[i].geosite, TargetFor(apps[i].action, target))];
    }
    assert apps[..|apps|] == apps;
  }

  method ClashCategories(p: Profile) returns (rules: seq<ClashRule>)
    ensures rules == GeositeRules(BlockCodes(p), "REJECT")
  {
    rules := [];
    if p.blockAds {
      rules := rules + [Geosite("category-ads-all", "REJECT")];
    }
    if p.blockAdult {
      rules := rules + [Geosite("category-porn", "REJECT")];
    }
    if p.blockGambling {
      rules := rules + [Geosite("category-gambling", "REJECT")];
    }
  }

  // The rules before the countries.
  method ClashPushBase(p: Profile) returns (rules: seq<ClashRule>)
    ensures rules == ClashBaseRules(p)
  {
    rules := ClashCategories(p);
    rules := ClashDomains(p.blockedDomains, "REJECT", rules);
    rules := rules + if p.directPrivate then [GeoIp("PRIVATE", "DIRECT")] else [];
    rules := ClashDomains(p.directDomains, "DIRECT", rules);
    rules := ClashSites(p.directGeosite, rules);
  }

  // The rules after the countries.
  method ClashPushTail(p: Profile, target: string, rules: seq<ClashRule>) returns (rules': seq<ClashRule>)
    ensures rules' == rules + ClashTailRules(p, target)
  {
    rules' := ClashDomains(p.proxyDomains, target, rules);
    rules' := ClashApps(p.appRules, target, rules');
  }

  method BuildClashRules(profile: Option<Profile>, hasProxy: bool, group: string) returns (rules: seq<ClashRule>)
    ensures rules == ClashRules(profile, hasProxy, group)
  {
    var target := if hasProxy && FinalProxy(profile) then group else "DIRECT";
    if profile.Some? {
      rules := ClashPushBase(profile.value);
      rules := ClashCountries(profile.value.directGeoip, rules);
      rules := ClashPushTail(profile.value, target, rules);
    } else {
      rules := [GeoIp("LAN", "DIRECT"), GeoIp("PRIVATE", "DIRECT")];
    }
    rules := rules + [MatchAll(target)];
  }

  predicate TargetsWithin(rules: seq<ClashRule>, targets: set<string>) {
    forall i :: 0 <= i < |rules| ==> rules[i].target in targets
  }

  lemma TargetsConcat(a: seq<ClashRule>, b: seq<ClashRule>, targets: set<string>)
    requires TargetsWithin(a, targets) && TargetsWithin(b, targets)
    ensures TargetsWithin(a + b, targets)
  {
  }

  lemma BaseTargets(p: Profile, targets: set<string>)
    requires "DIRECT" in targets && "REJECT" in targets
    ensures TargetsWithin(ClashBaseRules(p), targets)
  {
    var a, b := GeositeRules(BlockCodes(p), "REJECT"), SuffixRules(p.blockedDomains, "REJECT");
    var c := if p.directPrivate then [GeoIp("PRIVATE", "DIRECT")] else [];
    TargetsConcat(a, b, targets);
    TargetsConcat(a + b, c, targets);
    TargetsConcat(a + b + c, SuffixRules(p.directDomains, "DIRECT"), targets);
    TargetsConcat(a + b + c + SuffixRules(p.directDomains, "DIRECT"), GeositeRules(p.directGeosite, "DIRECT"), targets);
  }

  // Every target is a built-in one or the default target.
  lemma ClashTargets(profile: Option<Profile>, hasProxy: bool, group: string)
    ensures TargetsWithin(ClashRules(profile, hasProxy, group),
                          {"DIRECT", "REJECT", ClashTarget(profile, hasProxy, group)})
  {
    var target := ClashTarget(profile, hasProxy, group);
    var targets := {"DIRECT", "REJECT", target};
    if profile.Some? {
      var p := profile.value;
      var ips, tail := GeoIpRules(p.directGeoip, "DIRECT"), ClashTailRules(p, target);
      BaseTargets(p, targets);
      TargetsConcat(SuffixRules(p.proxyDomains, target), AppClashRules(p.appRules, target), targets);
      TargetsConcat(ClashBaseRules(p), ips, targets);
      TargetsConcat(ClashBaseRules(p) + ips, tail, targets);
      TargetsConcat(ClashProfileRules(p, target), [MatchAll(target)], targets);
    }
  }

  function ClashGroups(names: seq<string>, group: string): seq<Group> {
    if names == [] then [] else [Group(group, [AutoName(group)] + names), Group(AutoName(group), names)]
  }

  function GroupNames(groups: seq<Group>): seq<string> {
    seq(|groups|, i requires 0 <= i < |groups| => groups[i].name)
  }

  // The user's group lets choose between the automatic group and the proxies; the
  // automatic one is over the proxies; there are none without a proxy.
  lemma ClashGroupsMean(names: seq<string>, setting: Option<string>)
    ensures var groups := ClashGroups(names, GroupName(setting));
            && (names == [] ==> groups == [])
            && (names != [] ==>
                  && |groups| == 2 && groups[0].members == [groups[1].name] + names && groups[1].members == names
                  && (setting.Some? && (exists i :: 0 <= i < |setting.value| && !IsSpace(setting.value[i])) ==>
                        groups[0].name == setting.value)
                  && (setting.None? || Blank(setting.value) ==> groups[0].name == "Proxy")
                  && groups[1].name == (if groups[0].name == "Auto" then "Auto latency" else "Auto"))
  {
  }

  // A name is defined twice exactly when two proxies share it or one has the name of a
  // group.
  lemma ClashNamesDistinct(names: seq<string>, group: string)
    ensures Distinct(names + GroupNames(ClashGroups(names, group))) <==>
            Distinct(names) && group !in names && AutoName(group) !in names
  {
    var groups := GroupNames(ClashGroups(names, group));
    DistinctConcat(names, groups);
    if names != [] {
      assert groups == [group, AutoName(group)];
    } else {
      assert groups == [];
    }
  }

  // Only the shape of the groups and the set of targets matter.
  lemma ClashConfigClosed(c: ClashConfig, group: string, target: string)
    requires c.groups == ClashGroups(c.proxies, group)
    requires TargetsWithin(c.rules, {"DIRECT", "REJECT", target})
    requires target == "DIRECT" || (c.proxies != [] && target == group)
    ensures ClashClosed(c)
  {
    if c.proxies != [] {
      assert c.groups[0].name == group && c.groups[1].name == AutoName(group);
    }
  }

  method BuildClashConfig(endpoints: seq<Option<string>>, setting: Option<string>, profile: Option<Profile>)
    returns (c: ClashConfig)
    ensures c.proxies == Rendered(endpoints)
    ensures c.rules == ClashRules(profile, c.proxies != [], GroupName(setting))
    ensures c.groups == ClashGroups(c.proxies, GroupName(setting))
    ensures ClashClosed(c)
  {
    var names := RenderTags(endpoints);
    var group := GroupName(setting);
    var rules := BuildClashRules(profile, names != [], group);
    c := ClashConfig(names, ClashGroups(names, group), rules);
    ClashTargets(profile, names != [], group);
    ClashConfigClosed(c, group, ClashTarget(profile, names != [], group));
  }
}
