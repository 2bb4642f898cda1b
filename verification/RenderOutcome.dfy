/** When a well-formed policy renders: validation leaves exactly four ways to fail. */
module RenderOutcome {
  import opened Basics
  import opened Net
  import opened PolicyModel
  import opened WellFormedness
  import opened IntermediateForm
  import opened Compiler
  import opened Nft
  import opened NftRenderer
  import opened NameResolution
  import opened FilterTheorem
  import LinkCompiler
  import NatTheorem
  import Sem = PolicySemantics
  import R = RuleExpansion

  // ---- the four ways, in the policy's own terms ----

  predicate DetectsNothing(p: Policy) {
    && p.ids.enabled && p.ids.mode != IDS_MODE_PREVENT && p.ids.monitorInterfaces == []
    && forall z :: z in p.zones ==> z.interfaces == []
  }

  /** One side of a rule leaves room for packets of family f. */
  predicate SideAdmits(p: Policy, refs: seq<string>, f: Family) {
    Sem.Wild(refs) || exists a :: a in p.addresses && a.name in refs && a.cidr.Some? && a.cidr.value.addr.family == f
  }

  predicate FamiliesOverlap(p: Policy, r: Rule) {
    || (SideAdmits(p, r.sourceAddresses, V4) && SideAdmits(p, r.destinationAddresses, V4))
    || (SideAdmits(p, r.sourceAddresses, V6) && SideAdmits(p, r.destinationAddresses, V6))
  }

  predicate RuleRenders(p: Policy, r: Rule) {
    DeclaredAction(r.action) && FamiliesOverlap(p, r)
  }

  predicate HasPorts(p: Policy, d: DestinationNat) {
    exists s :: s in p.services && s.name == d.service && s.ports != []
  }

  ghost predicate Renderable(p: Policy) {
    && !DetectsNothing(p)
    && (forall r :: r in p.rules && !r.disabled ==> RuleRenders(p, r))
    && (forall d :: d in p.dnat ==> HasPorts(p, d))
  }

  // ---- rules ----

  lemma {:induction false} EnabledMembers(rules: seq<Rule>)
    ensures forall r :: r in Enabled(rules) <==> r in rules && !r.disabled
  {
    if rules != [] {
      EnabledMembers(rules[1..]);
      assert rules == [rules[0]] + rules[1..];
    }
  }

  lemma SideAdmitsExact(p: Policy, t: map<string, Prefix>, refs: seq<string>, f: Family)
    requires AddressTableOf(p, t) && Known(t, refs)
    ensures Lookup(t, refs, []).Success?
    ensures Lookup(t, refs, []).value == [] <==> Sem.Wild(refs)
    ensures Admits(Lookup(t, refs, []).value, f) <==> SideAdmits(p, refs, f)
  {
    LookupKnown(t, refs, []);
    var found := Lookup(t, refs, []).value;
    R.OfFamilyMembers(found, f);
    if !Sem.Wild(refs) {
      var picked := Picked(t, refs);
      assert [] + picked == picked == found;
      if OfFamily(found, f) != [] {
        var x := OfFamily(found, f)[0];
        assert x in OfFamily(found, f);
        var i :| 0 <= i < |picked| && picked[i] == x;
        var o := ObjectNamed(p, t, refs[i]);
        assert o.name in refs;
      }
      if a :| a in p.addresses && a.name in refs && a.cidr.Some? && a.cidr.value.addr.family == f {
        var i :| 0 <= i < |refs| && refs[i] == a.name;
        assert picked[i] in found;
        assert picked[i] in OfFamily(found, f);
      }
    }
  }

  /** A compiled rule has lines if some family is admitted on both sides. */
  lemma LinesExist(ir: RuleIR)
    ensures LinesOf(ir).Success? <==>
              || (ir.srcPrefixes == [] && ir.dstPrefixes == [])
              || exists f :: Admits(ir.srcPrefixes, f) && Admits(ir.dstPrefixes, f)
  {
    if f :| Admits(ir.srcPrefixes, f) && Admits(ir.dstPrefixes, f) {
      assert f == V4 || f == V6;
    }
    assert Variants(ir) != [] && ir.srcPrefixes + ir.dstPrefixes != [] ==>
             || (Admits(ir.srcPrefixes, V4) && Admits(ir.dstPrefixes, V4))
             || (Admits(ir.srcPrefixes, V6) && Admits(ir.dstPrefixes, V6));
  }

  lemma RuleRendersExact(p: Policy, s: Symbols, r: Rule)
    requires WellFormed(p) && TablesOf(p, s) && r in p.rules
    ensures RuleOf(s, r).Success? && LinesOf(RuleOf(s, r).value).Success? <==> RuleRenders(p, r)
  {
    RuleCompiles(p, s, r);
    RefsKnown(p, s, r);
    hide WellFormed, Lookup, Admits, OfFamily, SideAdmits, LinesOf, Known;
    if RuleOf(s, r).Success? {
      SideAdmitsExact(p, s.addrs, r.sourceAddresses, V4);
      SideAdmitsExact(p, s.addrs, r.sourceAddresses, V6);
      SideAdmitsExact(p, s.addrs, r.destinationAddresses, V4);
      SideAdmitsExact(p, s.addrs, r.destinationAddresses, V6);
      LinesExist(RuleOf(s, r).value);
    }
  }

  ghost predicate RulesCompile(p: Policy, s: Symbols) {
    Traverse(RuleBy(s), Enabled(p.rules)).Success?
  }

  lemma RulesRenderExact(p: Policy, s: Symbols)
    requires WellFormed(p) && TablesOf(p, s)
    ensures RulesCompile(p, s) && Traverse(LinesOf, Traverse(RuleBy(s), Enabled(p.rules)).value).Success?
            <==> forall r :: r in p.rules && !r.disabled ==> RuleRenders(p, r)
  {
    var on := Enabled(p.rules);
    EnabledMembers(p.rules);
    TraverseElements(RuleBy(s), on);
    forall r | r in p.rules && !r.disabled
      ensures RuleOf(s, r).Success? && LinesOf(RuleOf(s, r).value).Success? <==> RuleRenders(p, r)
      ensures exists i :: 0 <= i < |on| && on[i] == r
    {
      RuleRendersExact(p, s, r);
      assert r in on;
    }
    if RulesCompile(p, s) {
      var irs := Traverse(RuleBy(s), on).value;
      TraverseElements(LinesOf, irs);
      assert forall i :: 0 <= i < |on| ==> RuleBy(s)(on[i]) == RuleOf(s, on[i]) == Success(irs[i]);
      if Traverse(LinesOf, irs).Success? {
        forall r | r in p.rules && !r.disabled
          ensures RuleRenders(p, r)
        {
          var i :| 0 <= i < |on| && on[i] == r;
        }
      } else {
        var i :| 0 <= i < |irs| && LinesOf(irs[i]).Failure?;
        assert on[i] in on && !RuleRenders(p, on[i]);
      }
    } else {
      var i :| 0 <= i < |on| && RuleBy(s)(on[i]).Failure?;
      assert on[i] in on && RuleOf(s, on[i]).Failure?;
      assert !RuleRenders(p, on[i]);
    }
  }

  // ---- NAT ----

  lemma NatCompiles(p: Policy, s: Symbols)
    requires WellFormed(p) && TablesOf(p, s)
    ensures Traverse(SnatBy(s), p.snat).Success? && Traverse(DnatBy(s), p.dnat).Success?
    ensures Traverse(DnatLineOf, Traverse(DnatBy(s), p.dnat).value).Success?
            <==> forall d :: d in p.dnat ==> HasPorts(p, d)
  {
    hide WellFormed, TablesOf, SnatOf;
    forall i | 0 <= i < |p.snat|
      ensures SnatBy(s)(p.snat[i]).Success?
    {
      NatTheorem.SnatCompiles(p, s, p.snat[i]);
    }
    TraverseElements(SnatBy(s), p.snat);
    forall i | 0 <= i < |p.dnat|
      ensures DnatBy(s)(p.dnat[i]).Success?
      ensures DnatLineOf(DnatOf(s, p.dnat[i]).value).Success? <==> HasPorts(p, p.dnat[i])
    {
      NatTheorem.DnatCompiles(p, s, p.dnat[i]);
      PortsExact(p, s, p.dnat[i]);
    }
    TraverseElements(DnatBy(s), p.dnat);
    var irs := Traverse(DnatBy(s), p.dnat).value;
    TraverseElements(DnatLineOf, irs);
    assert forall i :: 0 <= i < |irs| ==> DnatBy(s)(p.dnat[i]) == DnatOf(s, p.dnat[i]) == Success(irs[i]);
    if Traverse(DnatLineOf, irs).Success? {
      forall d | d in p.dnat
        ensures HasPorts(p, d)
      {
        var i :| 0 <= i < |p.dnat| && p.dnat[i] == d;
        assert DnatLineOf(irs[i]).Success?;
      }
    } else {
      var i :| 0 <= i < |irs| && DnatLineOf(irs[i]).Failure?;
      assert p.dnat[i] in p.dnat;
    }
  }

  lemma PortsExact(p: Policy, s: Symbols, d: DestinationNat)
    requires WellFormed(p) && TablesOf(p, s) && d in p.dnat && d.service in s.svcs
    ensures s.svcs[d.service].ports != [] <==> HasPorts(p, d)
  {
    var any := RFC1918[0].addr;
    var svc := ServiceNamed(p, s.svcs, d.service, Packet("", "", any, any, 0, 0, New));
    if HasPorts(p, d) {
      var x :| x in p.services && x.name == d.service && x.ports != [];
      assert ServiceMatchOf(x) == Success(s.svcs[d.service]);
    }
    assert ServiceMatchOf(svc) == Success(s.svcs[d.service]);
  }

  // ---- the remaining sections ----

  lemma CidrsParse(cs: seq<Option<Prefix>>)
    requires forall k :: 0 <= k < |cs| ==> cs[k].Some?
    ensures Traverse(ParseCidr, cs).Success?
  {
    TraverseElements(ParseCidr, cs);
  }

  lemma {:induction false} NoInterfaces(zones: seq<Zone>)
    ensures LinkCompiler.ZoneInterfaces(zones) == [] <==> forall z :: z in zones ==> z.interfaces == []
  {
    if zones != [] {
      NoInterfaces(zones[1..]);
      assert zones == [zones[0]] + zones[1..];
    }
  }

  lemma IdsCompiles(p: Policy)
    requires WellFormed(p)
    ensures IdsOf(p).Success? <==> !DetectsNothing(p)
  {
    NoInterfaces(p.zones);
    if p.ids.enabled {
      CidrsParse(p.ids.homeNetworks);
    }
  }

  lemma RoutesCompile(p: Policy)
    requires WellFormed(p)
    ensures Traverse(RouteOf, p.routes).Success?
  {
    assert forall i :: 0 <= i < |p.routes| ==> RouteOk(p.routes[i]);
    TraverseElements(RouteOf, p.routes);
  }

  lemma TunnelsCompile(p: Policy)
    requires WellFormed(p)
    ensures Traverse(TunnelOf, p.wireguard).Success?
  {
    forall i | 0 <= i < |p.wireguard|
      ensures TunnelOf(p.wireguard[i]).Success?
    {
      assert WireguardOk(p.wireguard, i);
      var peers := p.wireguard[i].peers;
      forall k | 0 <= k < |peers|
        ensures PeerOf(peers[k]).Success?
      {
        assert PeerOk(peers[k]);
        CidrsParse(peers[k].allowedIps);
      }
      TraverseElements(PeerOf, peers);
    }
    TraverseElements(TunnelOf, p.wireguard);
  }

  /** On well-formed policies, rendering fails exactly in the four ways; nothing else is left to chance. */
  lemma RendersIff(p: Policy)
    requires WellFormed(p)
    ensures Rendered(p).Some? <==> Renderable(p)
  {
    SymbolsCorrect(p);
    var s := SymbolsOf(p).value;
    RulesRenderExact(p, s);
    NatCompiles(p, s);
    IdsCompiles(p);
    RoutesCompile(p);
    TunnelsCompile(p);
  }

  // ---- which failure is reported ----

  /** The first enabled rule that does not have the property, by name. */
  ghost predicate FirstWithout(rules: seq<Rule>, has: Rule -> bool, name: string) {
    exists k :: 0 <= k < |rules| && IsFirstWithout(rules, has, k) && rules[k].name == name
  }

  predicate IsFirstWithout(rules: seq<Rule>, has: Rule -> bool, k: nat)
    requires k < |rules|
  {
    && !rules[k].disabled && !has(rules[k])
    && forall i :: 0 <= i < k && !rules[i].disabled ==> has(rules[i])
  }

  /** Where the j-th enabled rule is. */
  lemma {:induction false} EnabledAt(rules: seq<Rule>, j: nat) returns (k: nat)
    requires j < |Enabled(rules)|
    ensures k < |rules| && rules[k] == Enabled(rules)[j] && !rules[k].disabled
    ensures forall i :: 0 <= i < k && !rules[i].disabled ==> rules[i] in Enabled(rules)[..j]
  {
    if !rules[0].disabled && j == 0 {
      k := 0;
    } else {
      var m := if rules[0].disabled then j else j - 1;
      var l := EnabledAt(rules[1..], m);
      k := l + 1;
      forall i | 0 <= i < k && !rules[i].disabled
        ensures rules[i] in Enabled(rules)[..j]
      {
        if i > 0 {
          assert rules[i] == rules[1..][i - 1];
        }
        if !rules[0].disabled {
          assert Enabled(rules)[..j] == [rules[0]] + Enabled(rules[1..])[..m];
        }
      }
    }
  }

  lemma FirstEnabledWithout(rules: seq<Rule>, has: Rule -> bool, j: nat)
    requires j < |Enabled(rules)| && !has(Enabled(rules)[j])
    requires forall i :: 0 <= i < j ==> has(Enabled(rules)[i])
    ensures FirstWithout(rules, has, Enabled(rules)[j].name)
  {
    var k := EnabledAt(rules, j);
    hide Enabled;
    assert IsFirstWithout(rules, has, k);
  }

  function ActionIsDeclared(): Rule -> bool {
    (r: Rule) => DeclaredAction(r.action)
  }

  /** What compiling a policy reports. */
  ghost predicate ReportFits(p: Policy, r: Outcome<IR>) {
    match r
    case Success(_) => AllDeclared(p) && !DetectsNothing(p)
    case Failure(ActionUnset(name)) => FirstWithout(p.rules, ActionIsDeclared(), name)
    case Failure(NothingToMonitor) => AllDeclared(p) && DetectsNothing(p)
    case Failure(_) => false
  }

  ghost predicate AllDeclared(p: Policy) {
    forall r :: r in p.rules && !r.disabled ==> DeclaredAction(r.action)
  }

  lemma RulesReport(p: Policy, s: Symbols)
    requires WellFormed(p) && TablesOf(p, s)
    ensures match Traverse(RuleBy(s), Enabled(p.rules))
            case Success(_) => AllDeclared(p)
            case Failure(e) => e.ActionUnset? && FirstWithout(p.rules, ActionIsDeclared(), e.rule)
  {
    var on := Enabled(p.rules);
    EnabledMembers(p.rules);
    hide WellFormed, TablesOf, RuleOf, FirstWithout;
    forall r | r in on
      ensures RuleBy(s)(r).Success? <==> DeclaredAction(r.action)
      ensures RuleBy(s)(r).Failure? ==> RuleBy(s)(r).error == ActionUnset(r.name)
    {
      RuleCompiles(p, s, r);
    }
    TraverseElements(RuleBy(s), on);
    if Traverse(RuleBy(s), on).Failure? {
      var j := TraverseFails(RuleBy(s), on);
      FirstEnabledWithout(p.rules, ActionIsDeclared(), j);
    } else {
      forall r | r in p.rules && !r.disabled
        ensures DeclaredAction(r.action)
      {
        var j :| 0 <= j < |on| && on[j] == r;
      }
    }
  }

  /**
    What compiling reports, for every policy: an invalid one as such; otherwise the first enabled rule
    without a declared action, and only then an inspection with nothing to watch.
   */
  lemma CompileReports(p: Policy)
    ensures Compiled(p) == Failure(InvalidPolicy) <==> !WellFormed(p)
    ensures WellFormed(p) ==> ReportFits(p, Compiled(p))
  {
    if WellFormed(p) {
      SymbolsCorrect(p);
      var s := SymbolsOf(p).value;
      RulesReport(p, s);
      NatCompiles(p, s);
      IdsReport(p);
      RoutesCompile(p);
      TunnelsCompile(p);
      hide WellFormed, SymbolsOf, FirstWithout, DetectsNothing, AllDeclared, TablesOf, IdsOf, RouteOf, TunnelOf,
        Enabled, DnatLineOf, LinkCompiler.NetworkOf;
    }
  }

  /** What rendering a compiled policy reports. */
  ghost predicate RenderReportFits(p: Policy, r: Rendering<Ruleset>) {
    match r
    case Success(_) => AllOverlap(p) && forall d :: d in p.dnat ==> HasPorts(p, d)
    case Failure(FamiliesDisjoint(name)) => FirstWithout(p.rules, FamiliesMeet(p), name)
    case Failure(NoPorts(name)) => AllOverlap(p) && FirstWithoutPorts(p, name)
    case Failure(_) => false
  }

  function FamiliesMeet(p: Policy): Rule -> bool {
    (r: Rule) => FamiliesOverlap(p, r)
  }

  ghost predicate AllOverlap(p: Policy) {
    forall r :: r in p.rules && !r.disabled ==> FamiliesOverlap(p, r)
  }

  /** The first destination NAT whose service has no ports, by name. */
  ghost predicate FirstWithoutPorts(p: Policy, name: string) {
    exists k :: 0 <= k < |p.dnat| && p.dnat[k].name == name && !HasPorts(p, p.dnat[k])
                && forall i :: 0 <= i < k ==> HasPorts(p, p.dnat[i])
  }

  lemma LinesReport(p: Policy, s: Symbols, irs: seq<RuleIR>)
    requires WellFormed(p) && TablesOf(p, s) && Traverse(RuleBy(s), Enabled(p.rules)) == Success(irs)
    ensures match Traverse(LinesOf, irs)
            case Success(_) => AllOverlap(p)
            case Failure(e) => e.FamiliesDisjoint? && FirstWithout(p.rules, FamiliesMeet(p), e.rule)
  {
    var on := Enabled(p.rules);
    EnabledMembers(p.rules);
    TraverseElements(RuleBy(s), on);
    hide WellFormed, TablesOf, RuleOf, FirstWithout, FamiliesOverlap, Variants, LinesOf;
    forall j | 0 <= j < |on|
      ensures LinesOf(irs[j]).Success? <==> FamiliesOverlap(p, on[j])
      ensures LinesOf(irs[j]).Failure? ==> LinesOf(irs[j]).error == FamiliesDisjoint(on[j].name)
    {
      assert on[j] in on && RuleBy(s)(on[j]) == Success(irs[j]);
      RuleCompiles(p, s, on[j]);
      RuleRendersExact(p, s, on[j]);
      LinesError(irs[j]);
    }
    TraverseElements(LinesOf, irs);
    if Traverse(LinesOf, irs).Failure? {
      var j := TraverseFails(LinesOf, irs);
      FirstEnabledWithout(p.rules, FamiliesMeet(p), j);
    } else {
      forall r | r in p.rules && !r.disabled
        ensures FamiliesOverlap(p, r)
      {
        var j :| 0 <= j < |on| && on[j] == r;
      }
    }
  }

  lemma LinesError(ir: RuleIR)
    ensures LinesOf(ir).Failure? ==> LinesOf(ir).error == FamiliesDisjoint(ir.name)
  {
  }

  lemma DnatReport(p: Policy, s: Symbols, irs: seq<DnatIR>)
    requires WellFormed(p) && TablesOf(p, s) && Traverse(DnatBy(s), p.dnat) == Success(irs)
    ensures match Traverse(DnatLineOf, irs)
            case Success(_) => forall d :: d in p.dnat ==> HasPorts(p, d)
            case Failure(e) => e.NoPorts? && FirstWithoutPorts(p, e.entry)
  {
    TraverseElements(DnatBy(s), p.dnat);
    hide WellFormed, TablesOf, DnatOf, HasPorts;
    forall k | 0 <= k < |p.dnat|
      ensures DnatLineOf(irs[k]).Success? <==> HasPorts(p, p.dnat[k])
      ensures DnatLineOf(irs[k]).Failure? ==> DnatLineOf(irs[k]).error == NoPorts(p.dnat[k].name)
    {
      assert DnatBy(s)(p.dnat[k]) == Success(irs[k]);
      NatTheorem.DnatCompiles(p, s, p.dnat[k]);
      PortsExact(p, s, p.dnat[k]);
      DnatError(s, p.dnat[k], irs[k]);
    }
    TraverseElements(DnatLineOf, irs);
    if Traverse(DnatLineOf, irs).Failure? {
      var k := TraverseFails(DnatLineOf, irs);
      assert p.dnat[k].name == Traverse(DnatLineOf, irs).error.entry;
    } else {
      forall d | d in p.dnat
        ensures HasPorts(p, d)
      {
        var k :| 0 <= k < |p.dnat| && p.dnat[k] == d;
      }
    }
  }

  lemma DnatError(s: Symbols, d: DestinationNat, ir: DnatIR)
    requires DnatOf(s, d) == Success(ir) && (DnatLineOf(ir).Success? <==> ir.ports != [])
    ensures DnatLineOf(ir).Failure? && (ir.proto == ProtoTCP || ir.proto == ProtoUDP) ==>
              DnatLineOf(ir).error == NoPorts(d.name)
  {
  }

  /**
    What rendering reports, for every policy that compiles: the first enabled rule whose two sides share no
    address family, and only then the first destination NAT whose service has no ports.
   */
  lemma RenderReports(p: Policy)
    requires Compiled(p).Success?
    ensures RenderReportFits(p, RulesetOf(Compiled(p).value))
  {
    CompiledParts(p);
    SymbolsCorrect(p);
    var s, ir := SymbolsOf(p).value, Compiled(p).value;
    LinesReport(p, s, ir.rules);
    DnatReport(p, s, ir.dnat);
    hide Compiled, WellFormed, SymbolsOf, TablesOf, FirstWithout, FirstWithoutPorts, AllOverlap, HasPorts, LinesOf,
      DnatLineOf, Prelude;
  }

  lemma IdsReport(p: Policy)
    requires WellFormed(p)
    ensures IdsOf(p).Success? <==> !DetectsNothing(p)
    ensures IdsOf(p).Failure? ==> IdsOf(p).error == NothingToMonitor
  {
    IdsCompiles(p);
    NoInterfaces(p.zones);
    if p.ids.enabled {
      CidrsParse(p.ids.homeNetworks);
    }
  }

  /** No 16-bit conversion of a well-formed policy loses anything. */
  lemma ConversionsLossless(p: Policy)
    requires WellFormed(p)
    ensures forall s, x :: s in p.services && x in s.ports ==> U16(x.start) == x.start && U16(x.end) == x.end
    ensures forall d :: d in p.dnat ==> U16(d.translatedPort) == d.translatedPort
    ensures p.ids.enabled ==> U16(p.ids.queueNum) == p.ids.queueNum
    ensures forall w :: w in p.wireguard ==> U16(w.listenPort) == w.listenPort
    ensures forall w, q :: w in p.wireguard && q in w.peers ==> U16(q.keepalive) == q.keepalive
  {
    forall s, x | s in p.services && x in s.ports
      ensures U16(x.start) == x.start && U16(x.end) == x.end
    {
      ServiceShape(p, s);
    }
    forall d | d in p.dnat
      ensures U16(d.translatedPort) == d.translatedPort
    {
      NatTheorem.DnatShape(p, d);
    }
    forall w | w in p.wireguard
      ensures U16(w.listenPort) == w.listenPort
      ensures forall q :: q in w.peers ==> U16(q.keepalive) == q.keepalive
    {
      var i :| 0 <= i < |p.wireguard| && p.wireguard[i] == w;
      assert WireguardOk(p.wireguard, i);
    }
  }

  /** A fresh node's policy renders. */
  lemma EmptyPolicyRenders()
    ensures Rendered(EMPTY_POLICY).Some?
  {
    EmptyPolicyWellFormed();
    RendersIff(EMPTY_POLICY);
  }
}
