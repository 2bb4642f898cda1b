/** The rendered forward chain decides every packet the way the policy does. */
module FilterTheorem {
  import opened Basics
  import opened Net
  import opened PolicyModel
  import opened WellFormedness
  import opened IntermediateForm
  import opened Compiler
  import opened Nft
  import opened NftRenderer
  import opened NameResolution
  import LinkCompiler
  import Sem = PolicySemantics
  import R = RuleExpansion

  ghost predicate RulesPopulated(p: Policy) {
    forall r :: r in p.rules && !r.disabled ==> RulePopulated(p, r)
  }

  function OpenRules(zones: seq<Zone>, rules: seq<Rule>): seq<Rule> {
    seq(|rules|, i requires 0 <= i < |rules| => OpenRule(zones, rules[i]))
  }

  function OpenDnat(zones: seq<Zone>, d: DestinationNat): DestinationNat {
    d.(fromZone := OpenRef(zones, d.fromZone))
  }

  function OpenDnats(zones: seq<Zone>, ds: seq<DestinationNat>): seq<DestinationNat> {
    seq(|ds|, i requires 0 <= i < |ds| => OpenDnat(zones, ds[i]))
  }

  function OpenSnat(zones: seq<Zone>, n: SourceNat): SourceNat {
    n.(toZone := OpenRef(zones, n.toZone))
  }

  function OpenSnats(zones: seq<Zone>, ns: seq<SourceNat>): seq<SourceNat> {
    seq(|ns|, i requires 0 <= i < |ns| => OpenSnat(zones, ns[i]))
  }

  /** The policy with every zone list that is not populated replaced by the wildcard. */
  function Opened(p: Policy): Policy {
    p.(rules := OpenRules(p.zones, p.rules), dnat := OpenDnats(p.zones, p.dnat), snat := OpenSnats(p.zones, p.snat))
  }

  lemma {:induction false} FirstMatchPreserved(p: Policy, s: Symbols, rules: seq<Rule>, irs: seq<RuleIR>, pk: Packet)
    requires WellFormed(p) && TablesOf(p, s)
    requires forall r :: r in rules ==> r in p.rules
    requires Traverse(RuleBy(s), Enabled(rules)) == Success(irs)
    ensures R.FirstMatchIR(irs, Drop, pk) == ActionFor(Sem.FirstMatch(Opened(p), OpenRules(p.zones, rules), pk))
  {
    if rules != [] {
      assert rules[0] in rules && forall r :: r in rules[1..] ==> r in rules;
      assert OpenRules(p.zones, rules)[1..] == OpenRules(p.zones, rules[1..]);
      hide WellFormed, TablesOf, OpenRefs, Populated, OpenRules, OpenDnats, OpenSnats, R.IRMatches;
      if rules[0].disabled {
        FirstMatchPreserved(p, s, rules[1..], irs, pk);
      } else {
        assert Enabled(rules)[1..] == Enabled(rules[1..]);
        FirstMatchPreserved(p, s, rules[1..], irs[1..], pk);
        RulePreserved(p, s, rules[0], irs[0], pk);
        RuleCompiles(p, s, rules[0]);
        SameObjects(p, OpenRule(p.zones, rules[0]), pk);
      }
      OpenedFirst(p.zones, rules);
    }
  }

  lemma OpenedFirst(zones: seq<Zone>, rules: seq<Rule>)
    requires rules != []
    ensures |OpenRules(zones, rules)| == |rules| && OpenRules(zones, rules)[0] == OpenRule(zones, rules[0])
    ensures OpenRule(zones, rules[0]).disabled == rules[0].disabled
    ensures OpenRule(zones, rules[0]).action == rules[0].action
  {
  }

  lemma SameObjects(p: Policy, r: Rule, pk: Packet)
    ensures Sem.RuleMatches(Opened(p), r, pk) <==> Sem.RuleMatches(p, r, pk)
  {
  }

  /** Where the zone lists of all enabled rules are populated, the opened policy decides as the policy itself. */
  lemma PopulatedDecides(p: Policy, b: Blocklist, pk: Packet)
    requires RulesPopulated(p)
    ensures Sem.Decide(Opened(p), b, pk) == Sem.Decide(p, b, pk)
  {
    PopulatedMatches(p, p.rules, pk);
  }

  lemma {:induction false} PopulatedMatches(p: Policy, rules: seq<Rule>, pk: Packet)
    requires forall r :: r in rules && !r.disabled ==> RulePopulated(p, r)
    ensures Sem.FirstMatch(Opened(p), OpenRules(p.zones, rules), pk) == Sem.FirstMatch(p, rules, pk)
  {
    if rules != [] {
      assert rules[0] in rules && forall r :: r in rules[1..] ==> r in rules;
      assert OpenRules(p.zones, rules)[1..] == OpenRules(p.zones, rules[1..]);
      PopulatedMatches(p, rules[1..], pk);
      OpenedFirst(p.zones, rules);
      SameObjects(p, rules[0], pk);
      if !rules[0].disabled {
        assert OpenRule(p.zones, rules[0]) == rules[0];
      }
    }
  }

  lemma HoldsAlone(m: Match, pk: Packet, b: Blocklist)
    ensures AllHold([m], pk, b) <==> Holds(m, pk, b)
  {
    assert m in [m];
  }

  function QueuePart(ir: IR): seq<Stmt> {
    if ir.ids.Some? && ir.ids.value.prevent then [Stmt([], Queue(ir.ids.value.queueNum))] else []
  }

  function ClampPart(ir: IR): seq<Stmt> {
    if ir.network.Some? && ir.network.value.clampMss then [Stmt([TcpSyn], Continue)] else []
  }

  function StatePart(): seq<Stmt> {
    [Stmt([CtState([Established, Related])], Accept), Stmt([CtState([Invalid])], Drop)]
  }

  function IntelPart(on: bool): seq<Stmt> {
    if on then [Stmt([SaddrListed(V4)], Drop), Stmt([DaddrListed(V4)], Drop),
                Stmt([SaddrListed(V6)], Drop), Stmt([DaddrListed(V6)], Drop)] else []
  }

  lemma PreludeParts(ir: IR)
    ensures Prelude(ir) == QueuePart(ir) + (ClampPart(ir) + (StatePart() + IntelPart(ir.intel)))
  {
  }

  lemma QueueRuns(ir: IR, rest: Action, pk: Packet, b: Blocklist)
    ensures Run(QueuePart(ir), rest, pk, b) == if QueuePart(ir) != [] then Queue(ir.ids.value.queueNum) else rest
    ensures QueuePart(ir) != [] <==> ir.ids.Some? && ir.ids.value.prevent
  {
  }

  lemma ClampRuns(ir: IR, rest: Action, pk: Packet, b: Blocklist)
    ensures Run(ClampPart(ir), rest, pk, b) == rest
  {
    if ClampPart(ir) != [] {
      assert ClampPart(ir)[1..] == [];
    }
  }

  /** What the statements before the rules decide. */
  lemma PreludeRuns(ir: IR, rest: Action, pk: Packet, b: Blocklist)
    ensures Run(Prelude(ir), rest, pk, b) ==
            if ir.ids.Some? && ir.ids.value.prevent then Queue(ir.ids.value.queueNum)
            else if pk.ct == Established || pk.ct == Related then Accept
            else if pk.ct == Invalid then Drop
            else if ir.intel && (Listed(b, pk.src) || Listed(b, pk.dst)) then Drop
            else rest
  {
    hide Run, Prelude, QueuePart, ClampPart, StatePart, IntelPart, Listed;
    PreludeParts(ir);
    var queue, clamp, ct, intel := QueuePart(ir), ClampPart(ir), StatePart(), IntelPart(ir.intel);
    RunConcat(queue, clamp + (ct + intel), rest, pk, b);
    RunConcat(clamp, ct + intel, rest, pk, b);
    RunConcat(ct, intel, rest, pk, b);
    IntelRuns(ir.intel, rest, pk, b);
    CtRuns(Run(intel, rest, pk, b), pk, b);
    ClampRuns(ir, Run(ct, Run(intel, rest, pk, b), pk, b), pk, b);
    QueueRuns(ir, Run(clamp, Run(ct, Run(intel, rest, pk, b), pk, b), pk, b), pk, b);
  }

  lemma CtRuns(rest: Action, pk: Packet, b: Blocklist)
    ensures Run(StatePart(), rest, pk, b) ==
            if pk.ct == Established || pk.ct == Related then Accept else if pk.ct == Invalid then Drop else rest
  {
    var ct := StatePart();
    HoldsAlone(CtState([Established, Related]), pk, b);
    HoldsAlone(CtState([Invalid]), pk, b);
    var last := [ct[1]];
    assert ct[1..] == last && last[1..] == [];
    assert Run(last, rest, pk, b) == if Decides(ct[1], pk, b) then Drop else rest;
    assert Decides(ct[0], pk, b) <==> pk.ct == Established || pk.ct == Related;
    assert Decides(ct[1], pk, b) <==> pk.ct == Invalid;
  }

  lemma IntelRuns(on: bool, rest: Action, pk: Packet, b: Blocklist)
    ensures Run(IntelPart(on), rest, pk, b) ==
            if on && (Listed(b, pk.src) || Listed(b, pk.dst)) then Drop else rest
  {
    if on {
      var block := IntelPart(on);
      RunUniform(block, Drop, rest, pk, b);
      HoldsAlone(SaddrListed(V4), pk, b);
      HoldsAlone(DaddrListed(V4), pk, b);
      HoldsAlone(SaddrListed(V6), pk, b);
      HoldsAlone(DaddrListed(V6), pk, b);
      assert block[0] in block && block[1] in block && block[2] in block && block[3] in block;
    }
  }

  /** The decision of the compiled chain, whatever rules it was compiled from. */
  lemma ForwardRuns(ir: IR, chain: seq<Stmt>, pk: Packet, b: Blocklist)
    requires ForwardOf(ir) == Success(chain) && IcmpOwnFamily(pk)
    ensures Run(chain, Drop, pk, b) ==
            if ir.ids.Some? && ir.ids.value.prevent then Queue(ir.ids.value.queueNum)
            else if pk.ct == Established || pk.ct == Related then Accept
            else if pk.ct == Invalid then Drop
            else if ir.intel && (Listed(b, pk.src) || Listed(b, pk.dst)) then Drop
            else R.FirstMatchIR(ir.rules, Drop, pk)
  {
    var blocks := Traverse(LinesOf, ir.rules).value;
    var tail := [Stmt([], Continue)];
    assert tail[1..] == [] && Run(tail, Drop, pk, b) == Drop;
    RunConcat(Prelude(ir) + Flatten(blocks), tail, Drop, pk, b);
    RunConcat(Prelude(ir), Flatten(blocks), Drop, pk, b);
    R.BlocksFirstMatch(ir.rules, blocks, Drop, pk, b);
    PreludeRuns(ir, R.FirstMatchIR(ir.rules, Drop, pk), pk, b);
  }

  /** Listed traffic that is no part of a connection is dropped before any rule is looked at, whatever the rules are. */
  lemma ListedIsDropped(ir: IR, chain: seq<Stmt>, pk: Packet, b: Blocklist)
    requires ForwardOf(ir) == Success(chain) && ir.intel && !(ir.ids.Some? && ir.ids.value.prevent)
    requires (Listed(b, pk.src) || Listed(b, pk.dst)) && pk.ct != Established && pk.ct != Related
    ensures Run(chain, Drop, pk, b) == Drop
  {
    var blocks := Flatten(Traverse(LinesOf, ir.rules).value);
    var tail := [Stmt([], Continue)];
    hide Listed, Prelude;
    assert chain == Prelude(ir) + (blocks + tail);
    RunConcat(Prelude(ir), blocks + tail, Drop, pk, b);
    PreludeRuns(ir, Run(blocks + tail, Drop, pk, b), pk, b);
  }

  /** With inline inspection on, every packet goes to the queue before any rule is looked at. */
  lemma PreventQueues(ir: IR, chain: seq<Stmt>, pk: Packet, b: Blocklist)
    requires ForwardOf(ir) == Success(chain) && ir.ids.Some? && ir.ids.value.prevent
    ensures Run(chain, Drop, pk, b) == Queue(ir.ids.value.queueNum)
  {
    var blocks := Flatten(Traverse(LinesOf, ir.rules).value);
    var tail := [Stmt([], Continue)];
    hide Listed, Prelude;
    assert chain == Prelude(ir) + (blocks + tail);
    RunConcat(Prelude(ir), blocks + tail, Drop, pk, b);
    PreludeRuns(ir, Run(blocks + tail, Drop, pk, b), pk, b);
  }

  predicate PreventMode(p: Policy) {
    p.ids.enabled && p.ids.mode == IDS_MODE_PREVENT
  }

  /** Compiled and rendered to the ruleset. */
  ghost function Rendered(p: Policy): Option<Ruleset> {
    match Compiled(p)
    case Failure(_) => None
    case Success(ir) => if RulesetOf(ir).Success? then Some(RulesetOf(ir).value) else None
  }

  /** The parts of a compiled policy that the forward chain depends on. */
  lemma CompiledParts(p: Policy)
    requires Compiled(p).Success?
    ensures WellFormed(p) && SymbolsOf(p).Success?
    ensures Traverse(RuleBy(SymbolsOf(p).value), Enabled(p.rules)) == Success(Compiled(p).value.rules)
    ensures Traverse(SnatBy(SymbolsOf(p).value), p.snat) == Success(Compiled(p).value.snat)
    ensures Traverse(DnatBy(SymbolsOf(p).value), p.dnat) == Success(Compiled(p).value.dnat)
    ensures var ids := Compiled(p).value.ids;
            && (ids.Some? && ids.value.prevent <==> PreventMode(p))
            && (PreventMode(p) ==> ids.value.queueNum == U16(p.ids.queueNum))
    ensures Compiled(p).value.intel <==> Sem.IntelOn(p)
  {
    hide WellFormed, SymbolsOf, Enabled, RouteOf, TunnelOf, LinkCompiler.NetworkOf, RoutingOf, Sem.IntelOn, Traverse;
  }

  /** A rendered policy with everything it went through. */
  lemma RenderedParts(p: Policy) returns (ir: IR, s: Symbols)
    requires Rendered(p).Some?
    ensures Compiled(p) == Success(ir) && RulesetOf(ir) == Success(Rendered(p).value)
    ensures CompilesTo(p, s, ir)
  {
    ir := Compiled(p).value;
    CompiledParts(p);
    SymbolsCorrect(p);
    s := SymbolsOf(p).value;
  }

  /** What the preservation proofs use of a compiled policy. */
  ghost predicate CompilesTo(p: Policy, s: Symbols, ir: IR) {
    && WellFormed(p) && TablesOf(p, s)
    && Traverse(RuleBy(s), Enabled(p.rules)) == Success(ir.rules)
    && Traverse(SnatBy(s), p.snat) == Success(ir.snat)
    && Traverse(DnatBy(s), p.dnat) == Success(ir.dnat)
    && (ir.ids.Some? && ir.ids.value.prevent <==> PreventMode(p))
    && (PreventMode(p) ==> ir.ids.value.queueNum == U16(p.ids.queueNum))
    && (ir.intel <==> Sem.IntelOn(p))
  }

  lemma ClampCompiled(p: Policy)
    requires Compiled(p).Success?
    ensures var x := Compiled(p).value.network;
            x.Some? && x.value.clampMss <==> p.network.Some? && p.network.value.clampMss
  {
    hide SymbolsOf, IdsOf, WellFormed, LinkCompiler.LinksOf;
  }

  /**
    The handshake of a forwarded TCP connection meets the MSS clamp exactly if the policy asks for it: the
    clamp comes first of all, or after the queue, before anything accepts.
   */
  lemma ClampsFirst(p: Policy)
    requires Rendered(p).Some?
    ensures var chain := Rendered(p).value.forward;
            var at := if PreventMode(p) then 1 else 0;
            |chain| > at && (chain[at] == Stmt([TcpSyn], Continue) <==> p.network.Some? && p.network.value.clampMss)
  {
    ClampCompiled(p);
    var ir, _ := RenderedParts(p);
    hide Compiled, LinesOf;
    var chain := Rendered(p).value.forward;
    PreludeParts(ir);
    assert Prelude(ir) <= chain;
  }

  /** The ruleset declares the blocklist sets exactly when the policy turns threat feeds on. */
  lemma DeclaresSetsIff(p: Policy)
    requires Rendered(p).Some?
    ensures Rendered(p).value.intelSets <==> Sem.IntelOn(p)
  {
    hide Compiled, Sem.IntelOn, ForwardOf;
    var ir, _ := RenderedParts(p);
  }

  lemma ForwardPreserved(p: Policy, s: Symbols, ir: IR, chain: seq<Stmt>, pk: Packet, b: Blocklist)
    requires CompilesTo(p, s, ir) && ForwardOf(ir) == Success(chain) && IcmpOwnFamily(pk)
    ensures Run(chain, Drop, pk, b) ==
            if PreventMode(p) then Queue(U16(p.ids.queueNum)) else ActionFor(Sem.Decide(Opened(p), b, pk))
  {
    FirstMatchPreserved(p, s, p.rules, ir.rules, pk);
    ForwardRuns(ir, chain, pk, b);
    hide OpenRules, OpenDnats, OpenSnats, R.FirstMatchIR, Run;
  }

  /**
    Compilation preserves meaning. For every policy that renders, every packet and every content of the
    blocklists, the forward chain decides as the opened policy does, which is the policy itself where
    the zone lists of its enabled rules are populated; with inline inspection on, it hands every packet
    to the queue instead.
   */
  lemma FilterPreserved(p: Policy, pk: Packet, b: Blocklist)
    requires Rendered(p).Some? && IcmpOwnFamily(pk)
    ensures Run(Rendered(p).value.forward, Drop, pk, b) ==
            if PreventMode(p) then Queue(U16(p.ids.queueNum)) else ActionFor(Sem.Decide(Opened(p), b, pk))
    ensures RulesPopulated(p) ==> Sem.Decide(Opened(p), b, pk) == Sem.Decide(p, b, pk)
  {
    var ir, s := RenderedParts(p);
    ForwardPreserved(p, s, ir, Rendered(p).value.forward, pk, b);
    if RulesPopulated(p) {
      PopulatedDecides(p, b, pk);
    }
  }

  // ---- exactly when a rule is preserved ----

  lemma PrefixContainsItself(x: Prefix)
    ensures Contains(x, x.addr)
  {
  }

  /** A rule that renders has addresses of one family on both sides. */
  lemma MatchingAddresses(ir: RuleIR) returns (src: Addr, dst: Addr)
    requires LinesOf(ir).Success?
    ensures src.family == dst.family && R.AddrIn(ir.srcPrefixes, src) && R.AddrIn(ir.dstPrefixes, dst)
  {
    var v := Variants(ir)[0];
    assert v in Variants(ir);
    var f := if v.AnyFamily? then V4 else v.family;
    R.OfFamilyMembers(ir.srcPrefixes, f);
    R.OfFamilyMembers(ir.dstPrefixes, f);
    var zero := Addr(f, seq(Width(f), i => false));
    src, dst := zero, zero;
    if ir.srcPrefixes != [] {
      assert Admits(ir.srcPrefixes, f);
      var x := OfFamily(ir.srcPrefixes, f)[0];
      assert x in OfFamily(ir.srcPrefixes, f);
      PrefixContainsItself(x);
      src := x.addr;
    }
    if ir.dstPrefixes != [] {
      assert Admits(ir.dstPrefixes, f);
      var x := OfFamily(ir.dstPrefixes, f)[0];
      assert x in OfFamily(ir.dstPrefixes, f);
      PrefixContainsItself(x);
      dst := x.addr;
    }
  }

  /** Every rule that renders matches some packet. */
  lemma SomePacketMatches(ir: RuleIR) returns (pk: Packet)
    requires LinesOf(ir).Success?
    requires forall m, r :: m in ir.services && r in m.ports ==> r.start <= r.end
    ensures IcmpOwnFamily(pk) && R.IRMatches(ir, pk)
  {
    var src, dst := MatchingAddresses(ir);
    var iif := if ir.fromIfaces == [] then "" else ir.fromIfaces[0];
    var oif := if ir.toIfaces == [] then "" else ir.toIfaces[0];
    var m := if ir.services == [] then ServiceMatch(ProtoAny, []) else ir.services[0];
    var proto := match m.proto
      case ProtoTCP => TCP
      case ProtoUDP => UDP
      case ProtoICMP => if src.family == V4 then ICMP else ICMPV6
      case ProtoAny => TCP;
    var port := if m.ports == [] then 0 else m.ports[0].start;
    pk := Packet(iif, oif, src, dst, proto, port, New);
    if ir.services != [] {
      assert m in ir.services;
      if m.ports != [] {
        assert m.ports[0] in m.ports;
      }
      assert R.ServiceHolds(m, pk);
    }
  }

  /**
    The exact condition: the block of lines of an enabled rule decides the same packets as the
    rule, for all packets, if and only if both zone lists are populated.
   */
  lemma RulePreservedIff(p: Policy, s: Symbols, r: Rule, ir: RuleIR, b: Blocklist)
    requires WellFormed(p) && TablesOf(p, s) && r in p.rules
    requires RuleOf(s, r) == Success(ir) && LinesOf(ir).Success?
    ensures (forall pk: Packet :: IcmpOwnFamily(pk) ==>
             (SomeDecides(LinesOf(ir).value, pk, b) <==> Sem.RuleMatches(p, r, pk)))
            <==> RulePopulated(p, r)
  {
    if RulePopulated(p, r) {
      forall pk: Packet | IcmpOwnFamily(pk)
        ensures SomeDecides(LinesOf(ir).value, pk, b) <==> Sem.RuleMatches(p, r, pk)
      {
        RulePreserved(p, s, r, ir, pk);
        R.ExpansionExact(ir, pk, b);
      }
    } else {
      RefsKnown(p, s, r);
      var any := Packet("", "", RFC1918[0].addr, RFC1918[0].addr, 0, 0, New);
      ServicePortsNonEmpty(p, s.svcs, r.services, any);
      var pk := SomePacketMatches(ir);
      R.ExpansionExact(ir, pk, b);
      ZonesPreservedIff(p, s.zones, r.fromZones);
      ZonesPreservedIff(p, s.zones, r.toZones);
      assert !Sem.RuleMatches(p, r, pk);
      assert IcmpOwnFamily(pk) && SomeDecides(LinesOf(ir).value, pk, b);
    }
  }

  /** A policy whose only rule allows traffic from a zone that has no interface yet. */
  const VACANT: Policy :=
    EMPTY_POLICY.(zones := [Zone("lab", [])],
                  rules := [Rule("lab-out", ["lab"], [], [], [], [], ACTION_ALLOW, false)])

  lemma VacantWellFormed()
    ensures WellFormed(VACANT)
  {
    assert VACANT.rules[0].services == [];
    assert VACANT.zones[0].name == "lab" && IsZone(VACANT.zones, "lab");
    assert RuleOk(VACANT, 0);
    assert ZoneOk(VACANT.zones, 0);
  }

  lemma VacantRenders()
    ensures WellFormed(VACANT) && Rendered(VACANT).Some?
  {
    VacantWellFormed();
    SymbolsCorrect(VACANT);
    var s := SymbolsOf(VACANT).value;
    var r := VACANT.rules[0];
    assert r in VACANT.rules;
    RuleCompiles(VACANT, s, r);
    VacantLines(s, RuleOf(s, r).value);
    assert Enabled(VACANT.rules) == [r] by {
      assert VACANT.rules[1..] == [];
    }
    hide Lookup, WellFormed, LinesOf, RuleOf;
    TraverseElements(RuleBy(s), [r]);
    var irs := Traverse(RuleBy(s), [r]).value;
    assert irs[0] == RuleOf(s, r).value;
    TraverseElements(LinesOf, irs);
  }

  lemma VacantLines(s: Symbols, ir: RuleIR)
    requires RuleOf(s, VACANT.rules[0]) == Success(ir)
    ensures LinesOf(ir).Success?
  {
  }

  lemma VacantOpened(pk: Packet)
    ensures Sem.FirstMatch(VACANT, VACANT.rules, pk) == Sem.Deny
    ensures Sem.FirstMatch(Opened(VACANT), Opened(VACANT).rules, pk) == Sem.Allow
  {
    var r := VACANT.rules[0];
    assert VACANT.rules[1..] == [];
    assert !Populated(VACANT.zones, r.fromZones) && !Sem.ZonesMatch(VACANT.zones, r.fromZones, pk.iif);
    assert Opened(VACANT).rules[0] == r.(fromZones := []);
  }

  /** It is well-formed and renders, the policy denies every new packet, and the ruleset accepts it. */
  lemma VacantZoneOpens(pk: Packet, b: Blocklist)
    requires pk.ct == New && IcmpOwnFamily(pk)
    ensures WellFormed(VACANT) && Rendered(VACANT).Some?
    ensures Sem.Decide(VACANT, b, pk) == Sem.Deny
    ensures Run(Rendered(VACANT).value.forward, Drop, pk, b) == Accept
  {
    VacantRenders();
    FilterPreserved(VACANT, pk, b);
    VacantOpened(pk);
    hide Rendered, Run, WellFormed, Sem.FirstMatch, RulesPopulated;
  }
}
