/**
 What a routing profile asks for, said without rules: which packets are blocked,
 which go directly and which through the proxy. Both compiled formats
 (master/src/subscription.rs) are compared with it.
 */
module Policy {
  import opened Agreement
  import opened Routing
  import opened Wrappers

  predicate OnDomain(domains: seq<string>, k: Packet) {
    exists d :: d in domains && k.Suffixed(d)
  }

  predicate OnSite(codes: seq<string>, k: Packet) {
    exists c :: c in codes && k.site(c)
  }

  // The content filters and the profile's own list.
  predicate Blocked(p: Profile, k: Packet) {
    || (p.blockAds && k.site("category-ads-all"))
    || (p.blockAdult && k.site("category-porn"))
    || (p.blockGambling && k.site("category-gambling"))
    || OnDomain(p.blockedDomains, k)
  }

  predicate SentDirectly(p: Profile, k: Packet) {
    || (p.directPrivate && k.isPrivate)
    || OnDomain(p.directDomains, k)
    || OnSite(p.directGeosite, k)
  }

  // The first app rule for the packet, or the number of rules if there is none.
  function AppIndex(apps: seq<AppRule>, k: Packet): (i: nat)
    ensures i <= |apps| && (i < |apps| ==> k.site(apps[i].geosite))
    ensures forall j :: 0 <= j < i ==> !k.site(apps[j].geosite)
  {
    if apps == [] || k.site(apps[0].geosite) then 0 else AppIndex(apps[1..], k) + 1
  }

  // How a client reads the profile: whether the packet is in a direct country,
  // whether the proxy domains are looked at, what "proxy" comes to and what happens
  // to the rest.
  datatype Reading = Reading(inCountry: bool, proxyDomains: bool, proxy: Goal, rest: Goal)

  // Blocks come first, then what goes directly, then the proxy domains, then the
  // first app rule.
  function Meant(p: Profile, k: Packet, r: Reading): Goal {
    if Blocked(p, k) then Block
    else if SentDirectly(p, k) || r.inCountry then Direct
    else if r.proxyDomains && OnDomain(p.proxyDomains, k) then r.proxy
    else
      var i := AppIndex(p.appRules, k);
      if i == |p.appRules| then r.rest
      else if p.appRules[i].action == Proxy then r.proxy
      else p.appRules[i].action
  }

  // sing-box proxies the proxy domains and apps whenever it has a proxy.
  function SbReading(p: Profile, hasProxy: bool, k: Packet): Reading {
    var proxy := if hasProxy then Proxy else Direct;
    Reading(exists c :: c in p.directGeoip && k.country(c), hasProxy, proxy, if p.finalProxy then proxy else Direct)
  }

  // A country code in any case, but for two reserved names.
  predicate ClashCountry(code: string, k: Packet) {
    if Lower(code) == "private" || Lower(code) == "lan" then k.isPrivate else k.country(Lower(code))
  }

  // Clash has one target for the proxy domains, the proxy apps and the rest: the
  // group, unless there is no proxy or the profile's rest is direct.
  function ClashReading(p: Profile, hasProxy: bool, group: string, k: Packet): Reading {
    var proxy :=
      if !hasProxy || !p.finalProxy || group == "DIRECT" then Direct
      else if group == "REJECT" then Block
      else Proxy;
    Reading(exists c :: c in p.directGeoip && ClashCountry(c, k), true, proxy, proxy)
  }

  // ------------------------------------------------------------------- sections

  // Steps to one goal are one question.
  lemma OneGoal(steps: seq<Step>, goal: Goal, k: Packet)
    requires forall i :: 0 <= i < |steps| ==> steps[i].goal == goal
    ensures First(steps, k) ==
            if exists i :: 0 <= i < |steps| && Holds(k, steps[i].atom) then Some(goal) else None
  {
    FirstIsNone(steps, k);
    if First(steps, k).Some? {
      var _ := FirstIndex(steps, k);
    }
  }

  lemma SuffixesMean(domains: seq<string>, goal: Goal, k: Packet)
    ensures First(SuffixSteps(domains, goal), k) == if OnDomain(domains, k) then Some(goal) else None
  {
    var steps := SuffixSteps(domains, goal);
    OneGoal(steps, goal, k);
    if OnDomain(domains, k) {
      var d :| d in domains && k.Suffixed(d);
      var i :| 0 <= i < |domains| && domains[i] == d;
      assert Holds(k, steps[i].atom);
    }
  }

  lemma SitesMean(codes: seq<string>, goal: Goal, k: Packet)
    ensures First(SiteSteps(codes, goal), k) == if OnSite(codes, k) then Some(goal) else None
  {
    var steps := SiteSteps(codes, goal);
    OneGoal(steps, goal, k);
    if OnSite(codes, k) {
      var c :| c in codes && k.site(c);
      var i :| 0 <= i < |codes| && codes[i] == c;
      assert Holds(k, steps[i].atom);
    }
  }

  lemma FiltersMean(p: Profile, k: Packet)
    ensures OnSite(BlockCodes(p), k) <==>
            || (p.blockAds && k.site("category-ads-all"))
            || (p.blockAdult && k.site("category-porn"))
            || (p.blockGambling && k.site("category-gambling"))
  {
    assert p.blockAds ==> "category-ads-all" in BlockCodes(p);
    assert p.blockAdult ==> "category-porn" in BlockCodes(p);
    assert p.blockGambling ==> "category-gambling" in BlockCodes(p);
  }

  lemma BaseMeans(p: Profile, k: Packet)
    ensures First(Base(p), k) ==
            if Blocked(p, k) then Some(Block) else if SentDirectly(p, k) then Some(Direct) else None
  {
    var s1, s2 := SiteSteps(BlockCodes(p), Block), SuffixSteps(p.blockedDomains, Block);
    var s3 := if p.directPrivate then [Step(PrivateIp, Direct)] else [];
    var s4, s5 := SuffixSteps(p.directDomains, Direct), SiteSteps(p.directGeosite, Direct);
    FiltersMean(p, k);
    SitesMean(BlockCodes(p), Block, k);
    SuffixesMean(p.blockedDomains, Block, k);
    OneGoal(s3, Direct, k);
    SuffixesMean(p.directDomains, Direct, k);
    SitesMean(p.directGeosite, Direct, k);
    FirstByConcat(s1, s2, StepHit(k));
    FirstByConcat(s1 + s2, s3, StepHit(k));
    FirstByConcat(s1 + s2 + s3, s4, StepHit(k));
    FirstByConcat(s1 + s2 + s3 + s4, s5, StepHit(k));
  }

  lemma CountriesMean(codes: seq<string>, k: Packet)
    ensures First(CountrySteps(codes), k).Some? <==> exists c :: c in codes && k.country(c)
  {
    var steps := CountrySteps(codes);
    FirstIsNone(steps, k);
    if c :| c in codes && k.country(c) {
      var i :| 0 <= i < |codes| && codes[i] == c;
      assert Holds(k, steps[i].atom);
    }
  }

  lemma ClashCodeMeans(code: string, k: Packet)
    ensures Holds(k, GeoIpAtom(Upper(code))) <==> ClashCountry(code, k)
  {
    assert Lower(Upper(code)) == Lower(code);
    assert Upper(Lower(code)) == Upper(code);
    assert Upper("private") == "PRIVATE" && Upper("lan") == "LAN";
    assert Lower("PRIVATE") == "private" && Lower("LAN") == "lan";
  }

  lemma GeoIpsMean(codes: seq<string>, k: Packet)
    ensures First(GeoIpSteps(codes), k).Some? <==> exists c :: c in codes && ClashCountry(c, k)
  {
    var steps := GeoIpSteps(codes);
    FirstIsNone(steps, k);
    forall i | 0 <= i < |codes|
      ensures Holds(k, steps[i].atom) <==> ClashCountry(codes[i], k)
    {
      ClashCodeMeans(codes[i], k);
    }
    if c :| c in codes && ClashCountry(c, k) {
      var i :| 0 <= i < |codes| && codes[i] == c;
      assert Holds(k, steps[i].atom);
    }
  }

  lemma AppsMean(apps: seq<AppRule>, forProxy: Goal, k: Packet)
    ensures var i := AppIndex(apps, k);
            First(AppSteps(apps, forProxy), k) ==
            if i == |apps| then None
            else Some(if apps[i].action == Proxy then forProxy else apps[i].action)
  {
    var steps, i := AppSteps(apps, forProxy), AppIndex(apps, k);
    if i == |apps| {
      FirstIsNone(steps, k);
    } else {
      FirstAt(steps, k, i);
    }
  }

  // -------------------------------------------------------------------- verdicts

  // The sing-box config does what the profile asks for.
  lemma SbKeepsPolicy(p: Profile, hasProxy: bool, k: Packet)
    ensures SbVerdict(Some(p), hasProxy, k) ==
            if p.dnsBlockPlain && k.port == 53 then Block else Meant(p, k, SbReading(p, hasProxy, k))
  {
    DnsFirst(p, hasProxy, k);
    if !p.dnsBlockPlain || k.port != 53 {
      var proxy := if hasProxy then Proxy else Direct;
      SbRest(p, hasProxy, k);
      BaseMeans(p, k);
      CountriesMean(p.directGeoip, k);
      SuffixesMean(p.proxyDomains, Proxy, k);
      AppsMean(p.appRules, proxy, k);
    }
  }

  lemma SbRest(p: Profile, hasProxy: bool, k: Packet)
    requires p.dnsBlockPlain ==> k.port != 53
    ensures var proxy := if hasProxy then Proxy else Direct;
            var apps := First(AppSteps(p.appRules, proxy), k);
            var rest := apps.GetOr(if p.finalProxy then proxy else Direct);
            SbVerdict(Some(p), hasProxy, k) ==
            First(Base(p), k).GetOr(
              if First(CountrySteps(p.directGeoip), k).Some? then Direct
              else if hasProxy then First(SuffixSteps(p.proxyDomains, Proxy), k).GetOr(rest) else rest)
  {
    SbVerdicts(p, hasProxy, k);
    FirstByConcat(SuffixSteps(p.proxyDomains, Proxy), AppSteps(p.appRules, Proxy), StepHit(k));
  }

  // And so does the Clash config, as Clash reads it.
  lemma ClashKeepsPolicy(p: Profile, hasProxy: bool, group: string, k: Packet)
    ensures ClashVerdict(Some(p), hasProxy, group, k) == Meant(p, k, ClashReading(p, hasProxy, group, k))
  {
    var proxy := ClashGoal(ClashTarget(Some(p), hasProxy, group));
    ClashVerdicts(p, hasProxy, group, k);
    FirstByConcat(SuffixSteps(p.proxyDomains, proxy), AppSteps(p.appRules, proxy), StepHit(k));
    BaseMeans(p, k);
    GeoIpsMean(p.directGeoip, k);
    SuffixesMean(p.proxyDomains, proxy, k);
    AppsMean(p.appRules, proxy, k);
  }

  // Without a profile only private addresses go directly.
  lemma DefaultPolicy(hasProxy: bool, group: string, k: Packet)
    ensures SbVerdict(None, hasProxy, k) == if k.isPrivate || !hasProxy then Direct else Proxy
    ensures group != "DIRECT" && group != "REJECT" ==>
              ClashVerdict(None, hasProxy, group, k) == if k.isPrivate || !hasProxy then Direct else Proxy
  {
    NoProfileVerdicts(hasProxy, hasProxy, group, k);
  }

  // Each content filter blocks its own category in both formats, whatever else the
  // profile says about the packet.
  lemma FiltersBlock(p: Profile, sbProxy: bool, clashProxy: bool, group: string, k: Packet)
    requires || (p.blockAds && k.site("category-ads-all"))
             || (p.blockAdult && k.site("category-porn"))
             || (p.blockGambling && k.site("category-gambling"))
    ensures SbVerdict(Some(p), sbProxy, k) == Block && ClashVerdict(Some(p), clashProxy, group, k) == Block
  {
    SbKeepsPolicy(p, sbProxy, k);
    ClashKeepsPolicy(p, clashProxy, group, k);
  }

  // A domain rule is about the domain and everything below it.
  lemma UnderMeans(host: string, domain: string)
    ensures Under(host, domain) <==> host == domain || exists x: string :: host == x + "." + domain
  {
    if Under(host, domain) && host != domain {
      var n := |host| - |domain| - 1;
      assert host == host[..n] + "." + domain;
    }
    if x: string :| host == x + "." + domain {
      assert host[|host| - |domain|..] == domain;
    }
  }
}
