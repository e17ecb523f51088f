/**
 When the two compiled rule lists of a routing profile mean the same. Both are
 reduced to lists of single questions; there one multi-suffix rule is many
 single-suffix rules.
 */
module Agreement {
  import opened Wrappers
  import opened Routing

  // ------------------------------------------------------------ common meaning

  function SiteSteps(codes: seq<string>, goal: Goal): seq<Step> {
    seq(|codes|, i requires 0 <= i < |codes| => Step(Site(codes[i]), goal))
  }

  function SuffixSteps(domains: seq<string>, goal: Goal): seq<Step> {
    seq(|domains|, i requires 0 <= i < |domains| => Step(Suffix(domains[i]), goal))
  }

  // The direct countries as sing-box asks for them and as Clash does.
  function CountrySteps(codes: seq<string>): seq<Step> {
    seq(|codes|, i requires 0 <= i < |codes| => Step(Country(codes[i]), Direct))
  }

  function GeoIpSteps(codes: seq<string>): seq<Step> {
    seq(|codes|, i requires 0 <= i < |codes| => Step(GeoIpAtom(Upper(codes[i])), Direct))
  }

  function Retarget(goal: Goal, forProxy: Goal): Goal {
    if goal == Proxy then forProxy else goal
  }

  function AppSteps(apps: seq<AppRule>, forProxy: Goal): seq<Step> {
    seq(|apps|, i requires 0 <= i < |apps| => Step(Site(apps[i].geosite), Retarget(apps[i].action, forProxy)))
  }

  // Everything a profile says before its countries.
  function Base(p: Profile): seq<Step> {
    SiteSteps(BlockCodes(p), Block)
    + SuffixSteps(p.blockedDomains, Block)
    + (if p.directPrivate then [Step(PrivateIp, Direct)] else [])
    + SuffixSteps(p.directDomains, Direct)
    + SiteSteps(p.directGeosite, Direct)
  }

  // Everything after them.
  function SbTail(p: Profile, hasProxy: bool): seq<Step> {
    if hasProxy then SuffixSteps(p.proxyDomains, Proxy) + AppSteps(p.appRules, Proxy) else AppSteps(p.appRules, Direct)
  }

  function ClashTail(p: Profile, forProxy: Goal): seq<Step> {
    SuffixSteps(p.proxyDomains, forProxy) + AppSteps(p.appRules, forProxy)
  }

  // ---------------------------------------------------------------- the sections

  // One rule with a list of suffixes is one rule for each suffix.
  lemma {:induction false} SuffixListIsSuffixes(domains: seq<string>, outbound: string, k: Packet)
    ensures SbFirst(DomainRule(domains, outbound), k) == First(SuffixSteps(domains, SbGoal(outbound)), k)
  {
    if domains != [] {
      SuffixListIsSuffixes(domains[1..], outbound, k);
      assert SuffixSteps(domains, SbGoal(outbound))[1..] == SuffixSteps(domains[1..], SbGoal(outbound));
      assert domains == [domains[0]] + domains[1..];
      var rest := DomainRule(domains[1..], outbound);
      assert DomainRule(domains, outbound)[1..] == [];
      if domains[1..] != [] {
        assert rest[1..] == [];
      }
    }
  }

  lemma TagsRoundTrip(code: string)
    ensures TagAtom(SiteTag(code)) == Some(Site(code))
    ensures TagAtom(IpTag(code)) == Some(Country(code))
  {
    assert SiteTag(code)[|GEOSITE|..] == code;
    assert IpTag(code)[|GEOIP|..] == code;
    assert IpTag(code)[3] != GEOSITE[3];
  }

  lemma SiteSection(codes: seq<string>, outbound: string, k: Packet)
    ensures SbFirst(SiteRules(codes, outbound), k) == First(SiteSteps(codes, SbGoal(outbound)), k)
  {
    forall i | 0 <= i < |codes|
      ensures SbMatches(SiteRules(codes, outbound)[i].when, k) == k.site(codes[i])
    {
      TagsRoundTrip(codes[i]);
    }
    FirstBySame(SiteRules(codes, outbound), SbHit(k), SiteSteps(codes, SbGoal(outbound)), StepHit(k));
  }

  lemma IpSection(codes: seq<string>, k: Packet)
    ensures SbFirst(IpRules(codes, "direct"), k) == First(CountrySteps(codes), k)
  {
    forall i | 0 <= i < |codes|
      ensures SbMatches(IpRules(codes, "direct")[i].when, k) == k.country(codes[i])
    {
      TagsRoundTrip(codes[i]);
    }
    FirstBySame(IpRules(codes, "direct"), SbHit(k), CountrySteps(codes), StepHit(k));
  }

  lemma AppSection(apps: seq<AppRule>, hasProxy: bool, k: Packet)
    ensures SbFirst(AppSbRules(apps, hasProxy), k) == First(AppSteps(apps, if hasProxy then Proxy else Direct), k)
  {
    forall i | 0 <= i < |apps|
      ensures SbMatches(AppSbRules(apps, hasProxy)[i].when, k) == k.site(apps[i].geosite)
    {
      TagsRoundTrip(apps[i].geosite);
    }
    FirstBySame(AppSbRules(apps, hasProxy), SbHit(k), AppSteps(apps, if hasProxy then Proxy else Direct), StepHit(k));
  }

  lemma PrivateSection(on: bool, k: Packet)
    ensures var steps := if on then [Step(PrivateIp, Direct)] else [];
            && SbFirst(if on then [SbRule(Private, "direct")] else [], k) == First(steps, k)
            && ClashFirst(if on then [GeoIp("PRIVATE", "DIRECT")] else [], k) == First(steps, k)
  {
    var steps := if on then [Step(PrivateIp, Direct)] else [];
    FirstBySame(if on then [SbRule(Private, "direct")] else [], SbHit(k), steps, StepHit(k));
    FirstBySame(if on then [GeoIp("PRIVATE", "DIRECT")] else [], ClashHit(k), steps, StepHit(k));
  }

  lemma SbBase(p: Profile, k: Packet)
    ensures SbFirst(SbBaseRules(p), k) == First(Base(p), k)
  {
    var f, g := SbHit(k), StepHit(k);
    var r1, s1 := SiteRules(BlockCodes(p), "block"), SiteSteps(BlockCodes(p), Block);
    var r2, s2 := DomainRule(p.blockedDomains, "block"), SuffixSteps(p.blockedDomains, Block);
    var r3 := if p.directPrivate then [SbRule(Private, "direct")] else [];
    var s3 := if p.directPrivate then [Step(PrivateIp, Direct)] else [];
    var r4, s4 := DomainRule(p.directDomains, "direct"), SuffixSteps(p.directDomains, Direct);
    var r5, s5 := SiteRules(p.directGeosite, "direct"), SiteSteps(p.directGeosite, Direct);
    SiteSection(BlockCodes(p), "block", k);
    SuffixListIsSuffixes(p.blockedDomains, "block", k);
    PrivateSection(p.directPrivate, k);
    SuffixListIsSuffixes(p.directDomains, "direct", k);
    SiteSection(p.directGeosite, "direct", k);
    Sections(r1, r2, f, s1, s2, g);
    Sections(r1 + r2, r3, f, s1 + s2, s3, g);
    Sections(r1 + r2 + r3, r4, f, s1 + s2 + s3, s4, g);
    Sections(r1 + r2 + r3 + r4, r5, f, s1 + s2 + s3 + s4, s5, g);
  }

  lemma SbTailMeaning(p: Profile, hasProxy: bool, k: Packet)
    ensures SbFirst(SbTailRules(p, hasProxy), k) == First(SbTail(p, hasProxy), k)
  {
    AppSection(p.appRules, hasProxy, k);
    if hasProxy {
      SuffixListIsSuffixes(p.proxyDomains, "proxy", k);
      Sections(DomainRule(p.proxyDomains, "proxy"), AppSbRules(p.appRules, true), SbHit(k),
               SuffixSteps(p.proxyDomains, Proxy), AppSteps(p.appRules, Proxy), StepHit(k));
    } else {
      assert SbTailRules(p, hasProxy) == AppSbRules(p.appRules, false);
    }
  }

  // The sing-box rules as steps.
  lemma SbMeaning(p: Profile, hasProxy: bool, k: Packet)
    ensures SbFirst(SbRules(p, hasProxy), k) == First(Base(p) + CountrySteps(p.directGeoip) + SbTail(p, hasProxy), k)
  {
    var ips, countries := IpRules(p.directGeoip, "direct"), CountrySteps(p.directGeoip);
    SbBase(p, k);
    IpSection(p.directGeoip, k);
    SbTailMeaning(p, hasProxy, k);
    Sections(SbBaseRules(p), ips, SbHit(k), Base(p), countries, StepHit(k));
    Sections(SbBaseRules(p) + ips, SbTailRules(p, hasProxy), SbHit(k),
             Base(p) + countries, SbTail(p, hasProxy), StepHit(k));
  }

  lemma ClashBase(p: Profile, k: Packet)
    ensures ClashFirst(ClashBaseRules(p), k) == First(Base(p), k)
  {
    var f, g := ClashHit(k), StepHit(k);
    var r1, s1 := GeositeRules(BlockCodes(p), "REJECT"), SiteSteps(BlockCodes(p), Block);
    var r2, s2 := SuffixRules(p.blockedDomains, "REJECT"), SuffixSteps(p.blockedDomains, Block);
    var r3 := if p.directPrivate then [GeoIp("PRIVATE", "DIRECT")] else [];
    var s3 := if p.directPrivate then [Step(PrivateIp, Direct)] else [];
    var r4, s4 := SuffixRules(p.directDomains, "DIRECT"), SuffixSteps(p.directDomains, Direct);
    var r5, s5 := GeositeRules(p.directGeosite, "DIRECT"), SiteSteps(p.directGeosite, Direct);
    FirstBySame(r1, f, s1, g);
    FirstBySame(r2, f, s2, g);
    PrivateSection(p.directPrivate, k);
    FirstBySame(r4, f, s4, g);
    FirstBySame(r5, f, s5, g);
    Sections(r1, r2, f, s1, s2, g);
    Sections(r1 + r2, r3, f, s1 + s2, s3, g);
    Sections(r1 + r2 + r3, r4, f, s1 + s2 + s3, s4, g);
    Sections(r1 + r2 + r3 + r4, r5, f, s1 + s2 + s3 + s4, s5, g);
  }

  lemma ClashTailMeaning(p: Profile, target: string, k: Packet)
    ensures ClashFirst(ClashTailRules(p, target), k) == First(ClashTail(p, ClashGoal(target)), k)
  {
    var m, mid := SuffixRules(p.proxyDomains, target), SuffixSteps(p.proxyDomains, ClashGoal(target));
    var a, apps := AppClashRules(p.appRules, target), AppSteps(p.appRules, ClashGoal(target));
    FirstBySame(m, ClashHit(k), mid, StepHit(k));
    FirstBySame(a, ClashHit(k), apps, StepHit(k));
    Sections(m, a, ClashHit(k), mid, apps, StepHit(k));
  }

  // The Clash rules as steps.
  lemma ClashMeaning(p: Profile, target: string, k: Packet)
    ensures ClashFirst(ClashProfileRules(p, target), k)
         == First(Base(p) + GeoIpSteps(p.directGeoip) + ClashTail(p, ClashGoal(target)), k)
  {
    var ips, countries := GeoIpRules(p.directGeoip, "DIRECT"), GeoIpSteps(p.directGeoip);
    ClashBase(p, k);
    FirstBySame(ips, ClashHit(k), countries, StepHit(k));
    ClashTailMeaning(p, target, k);
    Sections(ClashBaseRules(p), ips, ClashHit(k), Base(p), countries, StepHit(k));
    Sections(ClashBaseRules(p) + ips, ClashTailRules(p, target), ClashHit(k),
             Base(p) + countries, ClashTail(p, ClashGoal(target)), StepHit(k));
  }

  // ---------------------------------------------------------------- country codes

  // Codes as the API accepts them, but for their length.
  predicate GeoCode(code: string) {
    forall i :: 0 <= i < |code| ==> 'a' <= code[i] <= 'z' || '0' <= code[i] <= '9' || code[i] == '-'
  }

  // Clash takes the code for the country that sing-box takes it for.
  predicate Plain(code: string) {
    GeoIpAtom(Upper(code)) == Country(code)
  }

  predicate PlainCodes(p: Profile) {
    forall i :: 0 <= i < |p.directGeoip| ==> Plain(p.directGeoip[i])
  }

  // Of the codes the API accepts, only Clash's two reserved names are not plain.
  lemma ReservedCodes(code: string)
    requires GeoCode(code)
    ensures Plain(code) <==> code != "private" && code != "lan"
  {
    assert Lower(Upper(code)) == code;
    assert Lower("PRIVATE") == "private" && Lower("LAN") == "lan";
    assert Upper("private") == "PRIVATE" && Upper("lan") == "LAN";
  }

  // No Clash rule asks for the list behind a code that is not plain.
  lemma OddCodeIsUnasked(code: string, other: string)
    requires !Plain(code)
    ensures GeoIpAtom(Upper(other)) != Country(code)
  {
    assert Upper(Lower(Upper(other))) == Upper(other);
  }

  // ------------------------------------------------------------------ domain names

  lemma UnderTransitive(h: string, d: string, e: string)
    requires Under(h, d) && Under(d, e)
    ensures Under(h, e)
  {
    if h != d && d != e {
      assert d == h[|h| - |d|..];
      assert d[|d| - |e| - 1] == h[|h| - |e| - 1];
      assert h[|h| - |e|..] == d[|d| - |e|..];
    }
  }

  // What lies above a host name is a host name.
  lemma UnderHostName(h: string, d: string)
    requires HostName(h) && Under(h, d)
    ensures HostName(d)
  {
    if h != d {
      var n := |h| - |d|;
      assert forall i :: 0 <= i < |d| ==> d[i] == h[n + i];
    }
  }

  // ----------------------------------------------------------------- reachability

  // Whatever matches the second question matches the first.
  predicate Covers(a: Atom, b: Atom) {
    a == b || (a.Suffix? && b.Suffix? && Under(b.domain, a.domain))
  }

  // Some packet matches the question.
  predicate Live(a: Atom) {
    a.Suffix? ==> HostName(a.domain)
  }

  predicate Free(steps: seq<Step>, a: Atom) {
    Live(a) && forall j :: 0 <= j < |steps| ==> !Covers(steps[j].atom, a)
  }

  // Step i decides some packet: no earlier step covers its question.
  predicate Decides(steps: seq<Step>, i: nat)
    requires i < |steps|
  {
    Free(steps[..i], steps[i].atom)
  }

  // Past the base, the tail can come to the goal.
  ghost predicate Beyond(base: seq<Step>, tail: seq<Step>, goal: Goal) {
    exists i: nat :: i < |tail| && tail[i].goal == goal && Decides(tail, i) && Free(base, tail[i].atom)
  }

  lemma CoveredHolds(k: Packet, a: Atom, b: Atom)
    requires k.Valid() && Holds(k, b)
    ensures Live(b)
    ensures Covers(a, b) ==> Holds(k, a)
  {
    if b.Suffix? {
      UnderHostName(k.host.value, b.domain);
      if Covers(a, b) {
        UnderTransitive(k.host.value, b.domain, a.domain);
      }
    }
  }

  function Nothing(): string -> bool {
    (_: string) => false
  }

  function Only(code: string): string -> bool {
    (c: string) => c == code
  }

  // A host of one label, longer than any domain in the steps.
  function Stranger(steps: seq<Step>): (h: string)
    ensures HostName(h) && forall i :: 0 <= i < |h| ==> h[i] == 'x'
    ensures forall j :: 0 <= j < |steps| && steps[j].atom.Suffix? ==> |steps[j].atom.domain| < |h|
  {
    if steps == [] then "x"
    else
      var h, a := Stranger(steps[1..]), steps[0].atom;
      if a.Suffix? && |a.domain| >= |h| then seq(|a.domain| + 1, _ => 'x') else h
  }

  // A packet to port 0 for the question and what covers it.
  function Showing(a: Atom, stranger: string): Packet {
    match a
    case PrivateIp => Packet(0, true, None, Nothing(), Nothing())
    case Suffix(d) => Packet(0, false, Some(d), Nothing(), Nothing())
    case Site(c) => Packet(0, false, Some(stranger), Only(c), Nothing())
    case Country(c) => Packet(0, false, None, Nothing(), Only(c))
  }

  lemma ShowingHolds(steps: seq<Step>, a: Atom, b: Atom)
    requires Live(a) && (b.Suffix? ==> |b.domain| < |Stranger(steps)|)
    ensures Showing(a, Stranger(steps)).Valid()
    ensures Holds(Showing(a, Stranger(steps)), b) <==> Covers(b, a)
  {
  }

  lemma {:induction false} FirstIsNone(steps: seq<Step>, k: Packet)
    ensures First(steps, k).None? <==> forall j :: 0 <= j < |steps| ==> !Holds(k, steps[j].atom)
  {
    if steps != [] {
      FirstIsNone(steps[1..], k);
      assert forall j :: 0 < j < |steps| ==> steps[j] == steps[1..][j - 1];
    }
  }

  lemma FirstAt(steps: seq<Step>, k: Packet, i: nat)
    requires i < |steps| && Holds(k, steps[i].atom)
    requires forall j :: 0 <= j < i ==> !Holds(k, steps[j].atom)
    ensures First(steps, k) == Some(steps[i].goal)
  {
    FirstIsNone(steps[..i], k);
    FirstByConcat(steps[..i], steps[i..], StepHit(k));
    assert steps == steps[..i] + steps[i..];
  }

  lemma {:induction false} FirstIndex(steps: seq<Step>, k: Packet) returns (i: nat)
    requires First(steps, k).Some?
    ensures i < |steps| && Holds(k, steps[i].atom) && First(steps, k) == Some(steps[i].goal)
    ensures forall j :: 0 <= j < i ==> !Holds(k, steps[j].atom)
  {
    if Holds(k, steps[0].atom) {
      i := 0;
    } else {
      var r := FirstIndex(steps[1..], k);
      i := r + 1;
    }
  }

  lemma MissMeansFree(steps: seq<Step>, k: Packet, a: Atom)
    requires k.Valid() && Holds(k, a)
    requires forall j :: 0 <= j < |steps| ==> !Holds(k, steps[j].atom)
    ensures Free(steps, a)
  {
    CoveredHolds(k, a, a);
    forall j | 0 <= j < |steps|
      ensures !Covers(steps[j].atom, a)
    {
      CoveredHolds(k, steps[j].atom, a);
    }
  }

  lemma FreeMisses(steps: seq<Step>, a: Atom, all: seq<Step>)
    requires Free(steps, a) && forall s :: s in steps ==> s in all
    ensures forall j :: 0 <= j < |steps| ==> !Holds(Showing(a, Stranger(all)), steps[j].atom)
  {
    forall j | 0 <= j < |steps|
      ensures !Holds(Showing(a, Stranger(all)), steps[j].atom)
    {
      assert steps[j] in all;
      ShowingHolds(all, a, steps[j].atom);
    }
  }

  ghost predicate ComesTo(base: seq<Step>, tail: seq<Step>, goal: Goal, k: Packet) {
    k.Valid() && First(base, k).None? && First(tail, k) == Some(goal)
  }

  lemma BeyondShows(base: seq<Step>, tail: seq<Step>, goal: Goal)
    requires Beyond(base, tail, goal)
    ensures exists k: Packet :: ComesTo(base, tail, goal, k)
  {
    var i: nat :| i < |tail| && tail[i].goal == goal && Decides(tail, i) && Free(base, tail[i].atom);
    var a, all := tail[i].atom, base + tail;
    var k := Showing(a, Stranger(all));
    assert all[|base| + i] == tail[i];
    ShowingHolds(all, a, a);
    FreeMisses(base, a, all);
    FreeMisses(tail[..i], a, all);
    FirstIsNone(base, k);
    forall j | 0 <= j < i
      ensures !Holds(k, tail[j].atom)
    {
      assert tail[..i][j] == tail[j];
    }
    FirstAt(tail, k, i);
    assert ComesTo(base, tail, goal, k);
  }

  // The tail can come to a goal past the base exactly when some packet does.
  lemma BeyondIffPacket(base: seq<Step>, tail: seq<Step>, goal: Goal)
    ensures Beyond(base, tail, goal) <==> exists k: Packet :: ComesTo(base, tail, goal, k)
  {
    if Beyond(base, tail, goal) {
      BeyondShows(base, tail, goal);
    }
    if k: Packet :| ComesTo(base, tail, goal, k) {
      PacketMeansBeyond(base, tail, goal, k);
    }
  }

  lemma PacketMeansBeyond(base: seq<Step>, tail: seq<Step>, goal: Goal, k: Packet)
    requires ComesTo(base, tail, goal, k)
    ensures Beyond(base, tail, goal)
  {
    var i := FirstIndex(tail, k);
    FirstIsNone(base, k);
    MissMeansFree(base, k, tail[i].atom);
    MissMeansFree(tail[..i], k, tail[i].atom);
  }

  // ------------------------------------------------------------------ agreement

  // Traffic to port 53 is blocked by sing-box alone when plain DNS is blocked.
  ghost predicate Relevant(profile: Option<Profile>, k: Packet) {
    k.Valid() && (profile.Some? && profile.value.dnsBlockPlain ==> k.port != 53)
  }

  lemma SamePort(steps: seq<Step>, k: Packet, port: nat)
    ensures First(steps, k.(port := port)) == First(steps, k)
  {
    FirstBySame(steps, StepHit(k.(port := port)), steps, StepHit(k));
  }

  lemma SamePortClash(p: Profile, clashProxy: bool, group: string, k: Packet, port: nat)
    ensures ClashVerdict(Some(p), clashProxy, group, k.(port := port)) == ClashVerdict(Some(p), clashProxy, group, k)
  {
    var rules := ClashRules(Some(p), clashProxy, group);
    FirstBySame(rules, ClashHit(k.(port := port)), rules, ClashHit(k));
  }

  lemma SamePortSb(p: Profile, sbProxy: bool, k: Packet, port: nat)
    ensures SbFirst(SbRules(p, sbProxy), k.(port := port)) == SbFirst(SbRules(p, sbProxy), k)
  {
    SbMeaning(p, sbProxy, k);
    SbMeaning(p, sbProxy, k.(port := port));
    SamePort(Base(p) + CountrySteps(p.directGeoip) + SbTail(p, sbProxy), k, port);
  }

  // The route is the rules with the DNS block in front.
  lemma DnsFirst(p: Profile, sbProxy: bool, k: Packet)
    ensures SbFirst(SbRoute(Some(p), sbProxy), k)
         == if p.dnsBlockPlain && k.port == 53 then Some(Block) else SbFirst(SbRules(p, sbProxy), k)
  {
    var dns := if p.dnsBlockPlain then [SbRule(Port(53), "block")] else [];
    FirstByConcat(dns, SbRules(p, sbProxy), SbHit(k));
    assert dns != [] ==> dns[1..] == [];
  }

  // Why port 53 is set apart: Clash never looks at the port, and sing-box only under
  // blocked plain DNS, where it blocks 53 before anything else.
  lemma PortsAndDns(p: Profile, sbProxy: bool, clashProxy: bool, group: string, k: Packet, port: nat)
    ensures ClashVerdict(Some(p), clashProxy, group, k.(port := port)) == ClashVerdict(Some(p), clashProxy, group, k)
    ensures p.dnsBlockPlain && k.port == 53 ==> SbVerdict(Some(p), sbProxy, k) == Block
    ensures !p.dnsBlockPlain || (k.port != 53 && port != 53) ==>
              SbVerdict(Some(p), sbProxy, k.(port := port)) == SbVerdict(Some(p), sbProxy, k)
  {
    SamePortClash(p, clashProxy, group, k, port);
    DnsFirst(p, sbProxy, k);
    DnsFirst(p, sbProxy, k.(port := port));
    SamePortSb(p, sbProxy, k, port);
  }

  ghost predicate Agree(profile: Option<Profile>, sbProxy: bool, clashProxy: bool, group: string) {
    forall k: Packet :: Relevant(profile, k) ==>
      SbVerdict(profile, sbProxy, k) == ClashVerdict(profile, clashProxy, group, k)
  }

  // The verdict on a packet that neither the base nor a country decides.
  function SbSays(p: Profile, sbProxy: bool, k: Packet): Goal {
    First(SbTail(p, sbProxy), k).GetOr(SbGoal(SbFinal(Some(p), sbProxy)))
  }

  function ClashSays(p: Profile, default: Goal, k: Packet): Goal {
    First(ClashTail(p, default), k).GetOr(default)
  }

  lemma SbVerdicts(p: Profile, sbProxy: bool, k: Packet)
    requires p.dnsBlockPlain ==> k.port != 53
    ensures SbVerdict(Some(p), sbProxy, k)
         == First(Base(p), k).GetOr(
              if First(CountrySteps(p.directGeoip), k).Some? then Direct else SbSays(p, sbProxy, k))
  {
    DnsFirst(p, sbProxy, k);
    SbMeaning(p, sbProxy, k);
    ThreeParts(Base(p), CountrySteps(p.directGeoip), SbTail(p, sbProxy), k);
  }

  lemma ClashVerdicts(p: Profile, clashProxy: bool, group: string, k: Packet)
    ensures var default := ClashGoal(ClashTarget(Some(p), clashProxy, group));
            ClashVerdict(Some(p), clashProxy, group, k)
            == First(Base(p), k).GetOr(
                 if First(GeoIpSteps(p.directGeoip), k).Some? then Direct else ClashSays(p, default, k))
  {
    var target := ClashTarget(Some(p), clashProxy, group);
    FirstByConcat(ClashProfileRules(p, target), [MatchAll(target)], ClashHit(k));
    ClashMeaning(p, target, k);
    ThreeParts(Base(p), GeoIpSteps(p.directGeoip), ClashTail(p, ClashGoal(target)), k);
  }

  lemma ThreeParts(a: seq<Step>, b: seq<Step>, c: seq<Step>, k: Packet)
    requires forall i :: 0 <= i < |b| ==> b[i].goal == Direct
    ensures First(a + b + c, k)
         == if First(a, k).Some? then First(a, k) else if First(b, k).Some? then Some(Direct) else First(c, k)
  {
    FirstByConcat(a, b, StepHit(k));
    FirstByConcat(a + b, c, StepHit(k));
    if First(b, k).Some? {
      var _ := FirstIndex(b, k);
    }
  }

  lemma NoProfileVerdicts(sbProxy: bool, clashProxy: bool, group: string, k: Packet)
    ensures SbVerdict(None, sbProxy, k) == if k.isPrivate then Direct else SbGoal(SbFinal(None, sbProxy))
    ensures ClashVerdict(None, clashProxy, group, k)
         == if k.isPrivate then Direct else ClashGoal(ClashTarget(None, clashProxy, group))
  {
    assert [SbRule(Private, "direct")][1..] == [];
    var target := ClashTarget(None, clashProxy, group);
    var lan, private := [GeoIp("LAN", "DIRECT")], [GeoIp("PRIVATE", "DIRECT")];
    assert [GeoIp("LAN", "DIRECT"), GeoIp("PRIVATE", "DIRECT")] == lan + private;
    FirstByConcat(lan + private, [MatchAll(target)], ClashHit(k));
    FirstByConcat(lan, private, ClashHit(k));
  }

  // The questions that only a host or a site list can answer.
  predicate ByHost(steps: seq<Step>) {
    forall i :: 0 <= i < |steps| ==> steps[i].atom.Suffix? || steps[i].atom.Site?
  }

  // The packet to port 0 with a public address on the given country lists.
  function Abroad(k: Packet, country: string -> bool): Packet {
    k.(port := 0, isPrivate := false, country := country)
  }

  lemma AbroadFirst(steps: seq<Step>, k: Packet, country: string -> bool)
    requires ByHost(steps)
    ensures First(steps, Abroad(k, country)) == First(steps, k)
  {
    FirstBySame(steps, StepHit(Abroad(k, country)), steps, StepHit(k));
  }

  lemma AbroadBase(p: Profile, k: Packet, country: string -> bool)
    requires First(Base(p), k).None?
    ensures First(Base(p), Abroad(k, country)).None?
  {
    FirstIsNone(Base(p), k);
    forall j | 0 <= j < |Base(p)|
      ensures !Holds(Abroad(k, country), Base(p)[j].atom)
    {
      assert !Holds(k, Base(p)[j].atom);
      BaseAtoms(p, j);
    }
    FirstIsNone(Base(p), Abroad(k, country));
  }

  lemma BaseAtoms(p: Profile, j: nat)
    requires j < |Base(p)|
    ensures !Base(p)[j].atom.Country? && Base(p)[j].goal != Proxy
  {
  }

  // The same packet abroad, as each format sees it.
  lemma AbroadVerdicts(p: Profile, sbProxy: bool, clashProxy: bool, group: string, k: Packet, country: string -> bool)
    requires k.Valid() && First(Base(p), k).None?
    ensures Relevant(Some(p), Abroad(k, country))
    ensures var k', default := Abroad(k, country), ClashGoal(ClashTarget(Some(p), clashProxy, group));
            && SbVerdict(Some(p), sbProxy, k')
               == (if First(CountrySteps(p.directGeoip), k').Some? then Direct else SbSays(p, sbProxy, k))
            && ClashVerdict(Some(p), clashProxy, group, k')
               == (if First(GeoIpSteps(p.directGeoip), k').Some? then Direct else ClashSays(p, default, k))
  {
    var default := ClashGoal(ClashTarget(Some(p), clashProxy, group));
    AbroadBase(p, k, country);
    AbroadFirst(SbTail(p, sbProxy), k, country);
    AbroadFirst(ClashTail(p, default), k, country);
    SbVerdicts(p, sbProxy, Abroad(k, country));
    ClashVerdicts(p, clashProxy, group, Abroad(k, country));
  }

  // Past the base and the countries the two formats say different things.
  ghost predicate TailsDiffer(p: Profile, sbProxy: bool, default: Goal, k: Packet) {
    k.Valid() && First(Base(p), k).None? && SbSays(p, sbProxy, k) != ClashSays(p, default, k)
  }

  // Past them Clash can say something other than DIRECT.
  ghost predicate Strays(p: Profile, default: Goal, k: Packet) {
    k.Valid() && First(Base(p), k).None? && ClashSays(p, default, k) != Direct
  }

  lemma DifferenceShows(p: Profile, sbProxy: bool, clashProxy: bool, group: string, k: Packet)
    requires TailsDiffer(p, sbProxy, ClashGoal(ClashTarget(Some(p), clashProxy, group)), k)
    ensures !Agree(Some(p), sbProxy, clashProxy, group)
  {
    AbroadVerdicts(p, sbProxy, clashProxy, group, k, Nothing());
    NowhereListed(p, k);
    assert Relevant(Some(p), Abroad(k, Nothing()));
  }

  lemma NowhereListed(p: Profile, k: Packet)
    ensures First(CountrySteps(p.directGeoip), Abroad(k, Nothing())).None?
    ensures First(GeoIpSteps(p.directGeoip), Abroad(k, Nothing())).None?
  {
    FirstIsNone(CountrySteps(p.directGeoip), Abroad(k, Nothing()));
    FirstIsNone(GeoIpSteps(p.directGeoip), Abroad(k, Nothing()));
  }

  // On the list behind an odd code sing-box says direct, and Clash goes on.
  lemma StrayShows(p: Profile, sbProxy: bool, clashProxy: bool, group: string, k: Packet)
    requires !PlainCodes(p) && Strays(p, ClashGoal(ClashTarget(Some(p), clashProxy, group)), k)
    ensures !Agree(Some(p), sbProxy, clashProxy, group)
  {
    var i :| 0 <= i < |p.directGeoip| && !Plain(p.directGeoip[i]);
    AbroadVerdicts(p, sbProxy, clashProxy, group, k, Only(p.directGeoip[i]));
    OddlyListed(p, k, i);
    assert Relevant(Some(p), Abroad(k, Only(p.directGeoip[i])));
  }

  lemma OddlyListed(p: Profile, k: Packet, i: nat)
    requires i < |p.directGeoip| && !Plain(p.directGeoip[i])
    ensures First(CountrySteps(p.directGeoip), Abroad(k, Only(p.directGeoip[i]))).Some?
    ensures First(GeoIpSteps(p.directGeoip), Abroad(k, Only(p.directGeoip[i]))).None?
  {
    var k' := Abroad(k, Only(p.directGeoip[i]));
    FirstIsNone(CountrySteps(p.directGeoip), k');
    assert Holds(k', CountrySteps(p.directGeoip)[i].atom);
    forall j | 0 <= j < |p.directGeoip|
      ensures !Holds(k', GeoIpSteps(p.directGeoip)[j].atom)
    {
      OddCodeIsUnasked(p.directGeoip[i], p.directGeoip[j]);
    }
    FirstIsNone(GeoIpSteps(p.directGeoip), k');
  }

  lemma NothingShows(p: Profile, sbProxy: bool, clashProxy: bool, group: string, k: Packet)
    requires var default := ClashGoal(ClashTarget(Some(p), clashProxy, group));
             !TailsDiffer(p, sbProxy, default, k) && (PlainCodes(p) || !Strays(p, default, k))
    requires Relevant(Some(p), k)
    ensures SbVerdict(Some(p), sbProxy, k) == ClashVerdict(Some(p), clashProxy, group, k)
  {
    SbVerdicts(p, sbProxy, k);
    ClashVerdicts(p, clashProxy, group, k);
    if PlainCodes(p) {
      FirstBySame(CountrySteps(p.directGeoip), StepHit(k), GeoIpSteps(p.directGeoip), StepHit(k));
    }
  }

  // ------------------------------------------------------------------ conditions

  // With no proxy, sing-box leaves the proxy domains out and goes on to the app
  // rules, where Clash already decided on DIRECT: a blocked app on a proxy domain
  // that the base does not decide.
  ghost predicate Bypass(p: Profile) {
    && (exists d :: d in p.proxyDomains && Free(Base(p), Suffix(d)))
    && Beyond(Base(p), AppSteps(p.appRules, Direct), Block)
  }

  // The two defaults agree; where both are "direct" no rule for the proxy can show
  // the difference; and an odd country code is harmless only if nothing past the
  // countries is anything but direct.
  ghost predicate Compatible(profile: Option<Profile>, sbProxy: bool, clashProxy: bool, group: string) {
    var default := SbGoal(SbFinal(profile, sbProxy));
    && default == ClashGoal(ClashTarget(profile, clashProxy, group))
    && (default == Direct && profile.Some? ==>
          if sbProxy then !Beyond(Base(profile.value), SbTail(profile.value, true), Proxy) else !Bypass(profile.value))
    && (profile.Some? && !PlainCodes(profile.value) ==>
          default == Direct && !Beyond(Base(profile.value), ClashTail(profile.value, Direct), Block))
  }

  // A packet that no rule asks about.
  lemma UnaskedPacket(p: Profile, steps: seq<Step>)
    ensures var k := Packet(0, false, None, Nothing(), Nothing());
            k.Valid() && First(Base(p), k).None? && First(steps, k).None?
  {
    var k := Packet(0, false, None, Nothing(), Nothing());
    FirstIsNone(Base(p), k);
    FirstIsNone(steps, k);
  }

  lemma DefaultsShow(p: Profile, sbProxy: bool, default: Goal)
    requires SbGoal(SbFinal(Some(p), sbProxy)) != default
    ensures exists k: Packet :: TailsDiffer(p, sbProxy, default, k)
  {
    UnaskedPacket(p, SbTail(p, sbProxy));
    UnaskedPacket(p, ClashTail(p, default));
    assert TailsDiffer(p, sbProxy, default, Packet(0, false, None, Nothing(), Nothing()));
  }

  lemma {:induction false} FirstRetargeted(steps: seq<Step>, steps': seq<Step>, forProxy: Goal, k: Packet)
    requires |steps| == |steps'|
    requires forall i :: 0 <= i < |steps| ==> steps'[i] == Step(steps[i].atom, Retarget(steps[i].goal, forProxy))
    ensures First(steps', k) == if First(steps, k).None? then None else Some(Retarget(First(steps, k).value, forProxy))
  {
    if steps != [] {
      FirstRetargeted(steps[1..], steps'[1..], forProxy, k);
    }
  }

  // sing-box has a proxy, and neither default uses it.
  lemma DirectTailsDiffer(p: Profile)
    requires !p.finalProxy
    ensures (exists k: Packet :: TailsDiffer(p, true, Direct, k)) <==> Beyond(Base(p), SbTail(p, true), Proxy)
  {
    BeyondIffPacket(Base(p), SbTail(p, true), Proxy);
    forall k: Packet
      ensures TailsDiffer(p, true, Direct, k) <==> ComesTo(Base(p), SbTail(p, true), Proxy, k)
    {
      FirstRetargeted(SbTail(p, true), ClashTail(p, Direct), Direct, k);
    }
  }

  // On the tail after a proxy domain.
  ghost predicate Bypassed(p: Profile, k: Packet) {
    && ComesTo(Base(p), AppSteps(p.appRules, Direct), Block, k)
    && First(SuffixSteps(p.proxyDomains, Direct), k).Some?
  }

  lemma BypassedMeansBypass(p: Profile, k: Packet)
    requires Bypassed(p, k)
    ensures Bypass(p)
  {
    PacketMeansBeyond(Base(p), AppSteps(p.appRules, Direct), Block, k);
    FirstIsNone(Base(p), k);
    var n := FirstIndex(SuffixSteps(p.proxyDomains, Direct), k);
    MissMeansFree(Base(p), k, Suffix(p.proxyDomains[n]));
  }

  lemma BypassHappens(p: Profile)
    requires Bypass(p)
    ensures exists k: Packet :: Bypassed(p, k)
  {
    var d :| d in p.proxyDomains && Free(Base(p), Suffix(d));
    var tail := AppSteps(p.appRules, Direct);
    var i: nat :| i < |tail| && tail[i].goal == Block && Decides(tail, i) && Free(Base(p), tail[i].atom);
    var code := p.appRules[i].geosite;
    var k := Packet(0, false, Some(d), Only(code), Nothing());
    assert tail[i].atom == Site(code);
    forall j | 0 <= j < |Base(p)|
      ensures !Holds(k, Base(p)[j].atom)
    {
      assert !Covers(Base(p)[j].atom, Suffix(d)) && !Covers(Base(p)[j].atom, Site(code));
      BaseAtoms(p, j);
    }
    FirstIsNone(Base(p), k);
    var n :| 0 <= n < |p.proxyDomains| && p.proxyDomains[n] == d;
    FirstIsNone(SuffixSteps(p.proxyDomains, Direct), k);
    assert Holds(k, SuffixSteps(p.proxyDomains, Direct)[n].atom);
    forall j | 0 <= j < i
      ensures !Holds(k, tail[j].atom)
    {
      assert tail[..i][j] == tail[j];
    }
    FirstAt(tail, k, i);
    assert Bypassed(p, k);
  }

  lemma AppGoals(apps: seq<AppRule>, k: Packet)
    ensures First(AppSteps(apps, Direct), k) != Some(Proxy)
  {
    if First(AppSteps(apps, Direct), k).Some? {
      var _ := FirstIndex(AppSteps(apps, Direct), k);
    }
  }

  // What Clash says when its target is DIRECT.
  lemma DirectTail(p: Profile, k: Packet)
    ensures First(ClashTail(p, Direct), k)
         == (if First(SuffixSteps(p.proxyDomains, Direct), k).Some? then Some(Direct)
             else First(AppSteps(p.appRules, Direct), k))
  {
    FirstByConcat(SuffixSteps(p.proxyDomains, Direct), AppSteps(p.appRules, Direct), StepHit(k));
    if First(SuffixSteps(p.proxyDomains, Direct), k).Some? {
      var _ := FirstIndex(SuffixSteps(p.proxyDomains, Direct), k);
    }
  }

  // sing-box has no proxy, and Clash's default is DIRECT.
  lemma NoProxyTailsDiffer(p: Profile)
    ensures (exists k: Packet :: TailsDiffer(p, false, Direct, k)) <==> Bypass(p)
  {
    forall k: Packet
      ensures TailsDiffer(p, false, Direct, k) <==> Bypassed(p, k)
    {
      DirectTail(p, k);
      AppGoals(p.appRules, k);
    }
    if Bypass(p) {
      BypassHappens(p);
    }
    if k: Packet :| Bypassed(p, k) {
      BypassedMeansBypass(p, k);
    }
  }

  lemma StrayIff(p: Profile, default: Goal)
    ensures (exists k: Packet :: Strays(p, default, k)) <==>
            default != Direct || Beyond(Base(p), ClashTail(p, Direct), Block)
  {
    if default != Direct {
      UnaskedPacket(p, ClashTail(p, default));
      assert Strays(p, default, Packet(0, false, None, Nothing(), Nothing()));
    } else {
      BeyondIffPacket(Base(p), ClashTail(p, Direct), Block);
      forall k: Packet
        ensures Strays(p, Direct, k) <==> ComesTo(Base(p), ClashTail(p, Direct), Block, k)
      {
        DirectTail(p, k);
        AppGoals(p.appRules, k);
      }
    }
  }

  lemma TailsDifferIff(p: Profile, sbProxy: bool, default: Goal)
    requires SbGoal(SbFinal(Some(p), sbProxy)) == default
    ensures (exists k: Packet :: TailsDiffer(p, sbProxy, default, k)) <==>
            default == Direct && if sbProxy then Beyond(Base(p), SbTail(p, true), Proxy) else Bypass(p)
  {
    if default == Direct {
      if sbProxy {
        DirectTailsDiffer(p);
      } else {
        NoProxyTailsDiffer(p);
      }
    }
  }

  lemma ProfilesAgree(p: Profile, sbProxy: bool, clashProxy: bool, group: string)
    ensures Agree(Some(p), sbProxy, clashProxy, group) <==> Compatible(Some(p), sbProxy, clashProxy, group)
  {
    var default := ClashGoal(ClashTarget(Some(p), clashProxy, group));
    if k: Packet :| TailsDiffer(p, sbProxy, default, k) {
      DifferenceShows(p, sbProxy, clashProxy, group, k);
    } else if k: Packet :| !PlainCodes(p) && Strays(p, default, k) {
      StrayShows(p, sbProxy, clashProxy, group, k);
    } else {
      forall k: Packet | Relevant(Some(p), k)
        ensures SbVerdict(Some(p), sbProxy, k) == ClashVerdict(Some(p), clashProxy, group, k)
      {
        NothingShows(p, sbProxy, clashProxy, group, k);
      }
    }
    StrayIff(p, default);
    if SbGoal(SbFinal(Some(p), sbProxy)) == default {
      TailsDifferIff(p, sbProxy, default);
    } else {
      DefaultsShow(p, sbProxy, default);
    }
  }

  // Main result, for every profile, every combination of rendered proxies and
  // every group name: the two configs give every relevant packet the same
  // verdict exactly when they are compatible.
  lemma CompilersAgree(profile: Option<Profile>, sbProxy: bool, clashProxy: bool, group: string)
    ensures Agree(profile, sbProxy, clashProxy, group) <==> Compatible(profile, sbProxy, clashProxy, group)
  {
    if profile.Some? {
      ProfilesAgree(profile.value, sbProxy, clashProxy, group);
    } else {
      forall k: Packet
        ensures SbVerdict(profile, sbProxy, k) == ClashVerdict(profile, clashProxy, group, k) <==>
                k.isPrivate || SbGoal(SbFinal(profile, sbProxy)) == ClashGoal(ClashTarget(profile, clashProxy, group))
      {
        NoProfileVerdicts(sbProxy, clashProxy, group, k);
      }
      assert Relevant(profile, Packet(0, false, None, Nothing(), Nothing()));
    }
  }

  // ------------------------------------------------------------- cases and examples

  // The usual case: both formats render a proxy, the profile sends the rest
  // through it, and the group does not bear the name of a built-in target. Then
  // only an odd country code makes a difference.
  lemma ProxiedProfilesAgree(p: Profile, group: string)
    requires p.finalProxy && group != "DIRECT" && group != "REJECT"
    ensures Agree(Some(p), true, true, group) <==> PlainCodes(p)
  {
    CompilersAgree(Some(p), true, true, group);
  }

  // sing-box has a proxy, and neither default uses it.
  lemma DirectDefaultAgreement(p: Profile, clashProxy: bool, group: string)
    requires !p.finalProxy
    ensures Agree(Some(p), true, clashProxy, group) <==>
            && !Beyond(Base(p), SbTail(p, true), Proxy)
            && (PlainCodes(p) || !Beyond(Base(p), ClashTail(p, Direct), Block))
  {
    CompilersAgree(Some(p), true, clashProxy, group);
  }

  // sing-box has no proxy, and Clash's default is DIRECT.
  lemma NoProxyAgreement(p: Profile, clashProxy: bool, group: string)
    requires ClashGoal(ClashTarget(Some(p), clashProxy, group)) == Direct
    ensures Agree(Some(p), false, clashProxy, group) <==>
            !Bypass(p) && (PlainCodes(p) || !Beyond(Base(p), ClashTail(p, Direct), Block))
  {
    CompilersAgree(Some(p), false, clashProxy, group);
  }

  const EMPTY := Profile(false, false, false, [], false, [], [], [], [], [], false, "", false, false)

  // A country code "lan", which the API accepts: Clash sends private addresses
  // directly and sing-box does not.
  lemma LanIsNoCountry(group: string)
    requires group != "DIRECT" && group != "REJECT"
    ensures GeoCode("lan") && !Agree(Some(EMPTY.(directGeoip := ["lan"], finalProxy := true)), true, true, group)
  {
    var p := EMPTY.(directGeoip := ["lan"], finalProxy := true);
    ReservedCodes("lan");
    assert !Plain(p.directGeoip[0]);
    ProxiedProfilesAgree(p, group);
  }

  // A profile without finalProxy and with one proxy domain: sing-box proxies it,
  // Clash does not.
  lemma ProxyDomainIsLost(group: string)
    ensures !Agree(Some(EMPTY.(proxyDomains := ["example.org"])), true, true, group)
  {
    var p := EMPTY.(proxyDomains := ["example.org"]);
    var tail := SbTail(p, true);
    assert tail[0] == Step(Suffix("example.org"), Proxy);
    assert Decides(tail, 0);
    CompilersAgree(Some(p), true, true, group);
  }

  // The same domain below a blocked one never comes to the difference.
  lemma CoveredDomainIsHarmless(group: string)
    ensures Agree(Some(EMPTY.(blockedDomains := ["example.org"], proxyDomains := ["a.example.org"])), true, true, group)
  {
    var p := EMPTY.(blockedDomains := ["example.org"], proxyDomains := ["a.example.org"]);
    var base, tail := Base(p), SbTail(p, true);
    assert base[0].atom == Suffix("example.org");
    assert tail == [Step(Suffix("a.example.org"), Proxy)];
    assert "a.example.org"[2..] == "example.org";
    assert Covers(base[0].atom, tail[0].atom);
    CompilersAgree(Some(p), true, true, group);
  }
}
