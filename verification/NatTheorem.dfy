/** The rendered NAT chains rewrite every packet the way the policy's NAT lists do. */
module NatTheorem {
  import opened Basics
  import opened Net
  import opened PolicyModel
  import opened WellFormedness
  import opened IntermediateForm
  import opened Compiler
  import opened Nft
  import opened NftRenderer
  import opened NameResolution
  import opened FilterTheorem
  import Sem = PolicySemantics
  import R = RuleExpansion

  ghost predicate NatPopulated(p: Policy) {
    && (forall d :: d in p.dnat ==> Populated(p.zones, [d.fromZone]))
    && (forall n :: n in p.snat ==> Populated(p.zones, [n.toZone]))
  }

  /** What a NAT verdict does to a packet. */
  function RewriteOf(a: Action, pk: Packet): Sem.Rewrite {
    match a
    case Dnat(to, port) => Sem.NewDestination(to, if port == 0 then pk.dport else port)
    case Snat(to) => Sem.NewSource(to)
    case Masquerade => Sem.Masqueraded
    case _ => Sem.Untouched
  }

  /** A chain that is not there accepts everything. */
  function RunNat(chain: Option<seq<Stmt>>, pk: Packet, b: Blocklist): Sem.Rewrite {
    RewriteOf(Run(if chain.Some? then chain.value else [], Accept, pk, b), pk)
  }

  // ---- hosts ----

  lemma HostIs(p: Policy, s: Symbols, ref: string, a: Addr)
    requires TablesOf(p, s) && IsHost(p.addresses, ref)
    ensures ref in s.addrs && IsSingleIP(s.addrs[ref])
    ensures Sem.NamesHost(p, ref, a) <==> a == s.addrs[ref].addr
  {
    var j :| 0 <= j < |p.addresses| && p.addresses[j].name == ref && p.addresses[j].cidr.Some?
             && IsSingleIP(p.addresses[j].cidr.value);
    var o := p.addresses[j];
    assert o in p.addresses;
    if a == s.addrs[ref].addr {
      assert o.cidr.value.addr == a;
    }
  }

  // ---- destination NAT ----

  lemma DnatShape(p: Policy, d: DestinationNat)
    requires WellFormed(p) && d in p.dnat
    ensures DnatShapeOk(p, d)
  {
    var i :| 0 <= i < |p.dnat| && p.dnat[i] == d;
    assert DnatOk(p, i);
  }

  lemma KnownZone(p: Policy, s: Symbols, zone: string)
    requires TablesOf(p, s) && (zone == ANY || IsZone(p.zones, zone))
    ensures Known(s.zones, [zone])
  {
    assert forall r :: r in [zone] ==> r == zone;
    KnownZones(p, s, [zone]);
  }

  lemma PortServiceNamed(p: Policy, s: Symbols, name: string, pk: Packet) returns (svc: Service)
    requires WellFormed(p) && TablesOf(p, s) && IsPortService(p.services, name)
    ensures svc in p.services && svc.name == name && name in s.svcs
    ensures s.svcs[name].proto == ProtoTCP || s.svcs[name].proto == ProtoUDP
    ensures R.ServiceHolds(s.svcs[name], pk)
            <==> exists x :: x in p.services && x.name == name && Sem.ServiceMatches(x, pk)
  {
    var j :| 0 <= j < |p.services| && p.services[j].name == name
             && (p.services[j].protocol == PROTOCOL_TCP || p.services[j].protocol == PROTOCOL_UDP);
    svc := p.services[j];
    assert svc in p.services;
    ServiceShape(p, svc);
    ServicePreserved(svc, pk);
    forall x | x in p.services && x.name == name
      ensures Sem.ServiceMatches(x, pk) <==> Sem.ServiceMatches(svc, pk)
    {
      ServiceShape(p, x);
      ServicePreserved(x, pk);
    }
  }

  /** What a destination-NAT entry compiles to. */
  lemma DnatCompiles(p: Policy, s: Symbols, d: DestinationNat)
    requires WellFormed(p) && TablesOf(p, s) && d in p.dnat
    ensures d.service in s.svcs && d.destinationAddress in s.addrs && d.translatedAddress in s.addrs
    ensures d.translatedPort <= 65535
    ensures Interfaces(s.zones, [d.fromZone]).Success?
    ensures DnatOf(s, d) == Success(DnatIR(d.name, Interfaces(s.zones, [d.fromZone]).value,
                                           s.svcs[d.service].proto, s.svcs[d.service].ports,
                                           s.addrs[d.destinationAddress].addr, s.addrs[d.translatedAddress].addr,
                                           d.translatedPort))
    ensures s.svcs[d.service].proto == ProtoTCP || s.svcs[d.service].proto == ProtoUDP
  {
    DnatShape(p, d);
    var any := RFC1918[0].addr;
    HostIs(p, s, d.destinationAddress, any);
    HostIs(p, s, d.translatedAddress, any);
    KnownZone(p, s, d.fromZone);
    LookupKnown(s.zones, [d.fromZone], []);
    var svc := PortServiceNamed(p, s, d.service, Packet("", "", any, any, 0, 0, New));
  }

  lemma DnatMatchesHold(ir: DnatIR, pk: Packet, b: Blocklist)
    requires DnatLineOf(ir).Success?
    ensures AllHold(DnatLineOf(ir).value.matches, pk, b) <==>
              && R.IfaceIn(ir.inIfaces, pk.iif) && pk.dst == ir.matchDst
              && R.ServiceHolds(ServiceMatch(ir.proto, ir.ports), pk)
  {
    var proto := if ir.proto == ProtoUDP then UDP else TCP;
    var rest := [Daddr(ir.matchDst.family, HostMatch(ir.matchDst)), Dport(proto, ir.ports)];
    R.AllHoldConcat(Opt(ir.inIfaces != [], Iifname(ir.inIfaces)), rest, pk, b);
    R.AllHoldOpt(ir.inIfaces != [], Iifname(ir.inIfaces), pk, b);
    assert rest[0] in rest && rest[1] in rest;
    assert AllHold(rest, pk, b) <==> Holds(rest[0], pk, b) && Holds(rest[1], pk, b);
    var host := HostMatch(ir.matchDst)[0];
    SingleIPContains(host, pk.dst);
    assert host in HostMatch(ir.matchDst);
    assert InPrefixes(HostMatch(ir.matchDst), pk.dst) <==> pk.dst == ir.matchDst;
  }

  lemma DnatLineExact(p: Policy, s: Symbols, d: DestinationNat, ir: DnatIR, pk: Packet, b: Blocklist)
    requires WellFormed(p) && TablesOf(p, s) && d in p.dnat
    requires DnatOf(s, d) == Success(ir) && DnatLineOf(ir).Success?
    ensures forall to :: Sem.NamesHost(p, d.translatedAddress, to) <==> to == ir.translateTo
    ensures Decides(DnatLineOf(ir).value, pk, b) <==> Sem.DnatSelects(p, OpenDnat(p.zones, d), pk, ir.translateTo)
    ensures DnatLineOf(ir).value.action == Dnat(ir.translateTo, d.translatedPort)
  {
    DnatShape(p, d);
    DnatCompiles(p, s, d);
    KnownZone(p, s, d.fromZone);
    ZonesOpened(p, s.zones, [d.fromZone]);
    OneOpened(p.zones, d.fromZone, pk.iif);
    DnatMatchesHold(ir, pk, b);
    HostIs(p, s, d.destinationAddress, pk.dst);
    forall to
      ensures Sem.NamesHost(p, d.translatedAddress, to) <==> to == ir.translateTo
    {
      HostIs(p, s, d.translatedAddress, to);
    }
    var svc := PortServiceNamed(p, s, d.service, pk);
  }

  /**
    The exact condition for one entry: its line rewrites the packets the entry selects, for all
    packets, if and only if its zone is populated or it could not translate anything anyway.
   */
  lemma DnatPreservedIff(p: Policy, s: Symbols, d: DestinationNat, ir: DnatIR, b: Blocklist)
    requires WellFormed(p) && TablesOf(p, s) && d in p.dnat
    requires DnatOf(s, d) == Success(ir) && DnatLineOf(ir).Success?
    ensures (forall pk: Packet :: Decides(DnatLineOf(ir).value, pk, b) <==> Sem.DnatSelects(p, d, pk, ir.translateTo))
            <==> Populated(p.zones, [d.fromZone]) || ir.matchDst.family != ir.translateTo.family
  {
    DnatShape(p, d);
    DnatCompiles(p, s, d);
    KnownZone(p, s, d.fromZone);
    ZonesPreservedIff(p, s.zones, [d.fromZone]);
    if Populated(p.zones, [d.fromZone]) {
      forall pk: Packet
        ensures Decides(DnatLineOf(ir).value, pk, b) <==> Sem.DnatSelects(p, d, pk, ir.translateTo)
      {
        DnatLineExact(p, s, d, ir, pk, b);
      }
    } else if ir.matchDst.family != ir.translateTo.family {
      forall pk: Packet
        ensures Decides(DnatLineOf(ir).value, pk, b) <==> Sem.DnatSelects(p, d, pk, ir.translateTo)
      {
        DnatMatchesHold(ir, pk, b);
        HostIs(p, s, d.destinationAddress, pk.dst);
      }
    } else {
      var iif := if ir.inIfaces == [] then "" else ir.inIfaces[0];
      var proto := if ir.proto == ProtoUDP then UDP else TCP;
      var pk := Packet(iif, "", ir.matchDst, ir.matchDst, proto, ir.ports[0].start, New);
      DnatMatchesHold(ir, pk, b);
      var svc := PortServiceNamed(p, s, d.service, pk);
      ServiceShape(p, svc);
      ServicePreserved(svc, pk);
      assert ir.ports[0] in ir.ports;
      assert Decides(DnatLineOf(ir).value, pk, b) && !Sem.DnatSelects(p, d, pk, ir.translateTo);
    }
  }

  lemma {:induction false} DnatPreserved(p: Policy, s: Symbols, ds: seq<DestinationNat>, irs: seq<DnatIR>,
                                         lines: seq<Stmt>,
                                         pk: Packet, b: Blocklist)
    requires WellFormed(p) && TablesOf(p, s)
    requires forall d :: d in ds ==> d in p.dnat
    requires Traverse(DnatBy(s), ds) == Success(irs) && Traverse(DnatLineOf, irs) == Success(lines)
    ensures Sem.DnatOutcome(p, OpenDnats(p.zones, ds), pk, RewriteOf(Run(lines, Accept, pk, b), pk))
  {
    hide WellFormed, TablesOf, DnatOf, DnatLineOf, Sem.NamesHost, Sem.ZoneMatches, OpenRef;
    if ds != [] {
      var d := ds[0];
      assert d in ds && forall x :: x in ds[1..] ==> x in ds;
      assert OpenDnats(p.zones, ds)[1..] == OpenDnats(p.zones, ds[1..]);
      assert OpenDnats(p.zones, ds)[0] == OpenDnat(p.zones, d);
      DnatPreserved(p, s, ds[1..], irs[1..], lines[1..], pk, b);
      DnatLineExact(p, s, d, irs[0], pk, b);
    }
  }

  // ---- source NAT ----

  lemma SnatShape(p: Policy, n: SourceNat)
    requires WellFormed(p) && n in p.snat
    ensures SnatShapeOk(p, n)
  {
    var i :| 0 <= i < |p.snat| && p.snat[i] == n;
    assert SnatOk(p, i);
  }

  lemma SourceIs(p: Policy, s: Symbols, n: SourceNat, pk: Packet)
    requires WellFormed(p) && TablesOf(p, s) && n in p.snat
    ensures n.sourceAddress != "" && n.sourceAddress != ANY ==> n.sourceAddress in s.addrs
    ensures n.sourceAddress != "" && n.sourceAddress != ANY ==>
              (Contains(s.addrs[n.sourceAddress], pk.src)
               <==> Sem.AddressesMatch(p.addresses, [n.sourceAddress], pk.src))
    ensures n.sourceAddress == ANY ==> Sem.AddressesMatch(p.addresses, [n.sourceAddress], pk.src)
  {
    SnatShape(p, n);
    if n.sourceAddress == ANY {
      assert ANY in [n.sourceAddress];
    } else if n.sourceAddress != "" {
      var refs := [n.sourceAddress];
      assert forall r :: r in refs ==> r == n.sourceAddress;
      KnownAddresses(p, s, refs);
      assert n.sourceAddress in refs;
      AddressesPreserved(p, s.addrs, refs, pk.src);
      LookupKnown(s.addrs, refs, []);
      var found := Lookup(s.addrs, refs, []).value;
      assert found == [s.addrs[n.sourceAddress]];
      assert found[0] in found;
    }
  }

  /** What a source-NAT entry compiles to. */
  lemma SnatCompiles(p: Policy, s: Symbols, n: SourceNat)
    requires WellFormed(p) && TablesOf(p, s) && n in p.snat
    ensures SnatOf(s, n).Success?
    ensures Interfaces(s.zones, [n.toZone]) == Success(SnatOf(s, n).value.outIfaces)
    ensures SnatOf(s, n).value.masquerade == n.masquerade
    ensures if n.sourceAddress == "" || n.sourceAddress == ANY then SnatOf(s, n).value.srcPrefix == None
            else n.sourceAddress in s.addrs && SnatOf(s, n).value.srcPrefix == Some(s.addrs[n.sourceAddress])
    ensures !n.masquerade ==> n.translatedAddress in s.addrs && IsHost(p.addresses, n.translatedAddress)
                              && SnatOf(s, n).value.translateTo == Some(s.addrs[n.translatedAddress].addr)
  {
    SnatShape(p, n);
    var any := RFC1918[0].addr;
    SourceIs(p, s, n, Packet("", "", any, any, 0, 0, New));
    KnownZone(p, s, n.toZone);
    LookupKnown(s.zones, [n.toZone], []);
    if !n.masquerade {
      HostIs(p, s, n.translatedAddress, any);
    }
  }

  lemma SnatMatchesHold(ir: SnatIR, pk: Packet, b: Blocklist)
    ensures AllHold(SnatLineOf(ir).matches, pk, b) <==>
              R.IfaceIn(ir.outIfaces, pk.oif) && (ir.srcPrefix.Some? ==> Contains(ir.srcPrefix.value, pk.src))
  {
    var src := if ir.srcPrefix.Some? then [Saddr(ir.srcPrefix.value.addr.family, [ir.srcPrefix.value])] else [];
    R.AllHoldConcat(Opt(ir.outIfaces != [], Oifname(ir.outIfaces)), src, pk, b);
    R.AllHoldOpt(ir.outIfaces != [], Oifname(ir.outIfaces), pk, b);
    if ir.srcPrefix.Some? {
      var one := [ir.srcPrefix.value];
      assert src[0] in src && one[0] in one;
      assert AllHold(src, pk, b) <==> Holds(src[0], pk, b);
      assert InPrefixes(one, pk.src) <==> Contains(one[0], pk.src);
    }
  }

  lemma SnatLineExact(p: Policy, s: Symbols, n: SourceNat, ir: SnatIR, pk: Packet, b: Blocklist)
    requires WellFormed(p) && TablesOf(p, s) && n in p.snat
    requires SnatOf(s, n) == Success(ir)
    ensures AllHold(SnatLineOf(ir).matches, pk, b) <==> Sem.SnatSelects(p, OpenSnat(p.zones, n), pk)
    ensures n.masquerade ==> SnatLineOf(ir).action == Masquerade
    ensures !n.masquerade ==>
              && SnatLineOf(ir).action.Snat?
              && forall to :: Sem.NamesHost(p, n.translatedAddress, to) <==> to == SnatLineOf(ir).action.src
  {
    SnatShape(p, n);
    SnatCompiles(p, s, n);
    KnownZone(p, s, n.toZone);
    ZonesOpened(p, s.zones, [n.toZone]);
    OneOpened(p.zones, n.toZone, pk.oif);
    SourceIs(p, s, n, pk);
    SnatMatchesHold(ir, pk, b);
    if !n.masquerade {
      forall to
        ensures Sem.NamesHost(p, n.translatedAddress, to) <==> to == SnatLineOf(ir).action.src
      {
        HostIs(p, s, n.translatedAddress, to);
      }
    }
  }

  /** The policy's view of one source-NAT entry: it selects the packet and can translate its family. */
  ghost predicate SnatTranslates(p: Policy, n: SourceNat, pk: Packet) {
    && Sem.SnatSelects(p, n, pk)
    && (n.masquerade || exists to :: Sem.NamesHost(p, n.translatedAddress, to) && to.family == FamilyOf(pk))
  }

  /** The exact condition for one source-NAT entry. */
  lemma SnatPreservedIff(p: Policy, s: Symbols, n: SourceNat, ir: SnatIR, b: Blocklist)
    requires WellFormed(p) && TablesOf(p, s) && n in p.snat && SnatOf(s, n) == Success(ir)
    ensures (forall pk: Packet :: Decides(SnatLineOf(ir), pk, b) <==> SnatTranslates(p, n, pk))
            <==> Populated(p.zones, [n.toZone])
                 || (!n.masquerade && ir.srcPrefix.Some? && ir.translateTo.Some?
                     && ir.srcPrefix.value.addr.family != ir.translateTo.value.family)
  {
    SnatShape(p, n);
    SnatCompiles(p, s, n);
    KnownZone(p, s, n.toZone);
    ZonesPreservedIff(p, s.zones, [n.toZone]);
    if Populated(p.zones, [n.toZone]) {
      forall pk: Packet
        ensures Decides(SnatLineOf(ir), pk, b) <==> SnatTranslates(p, n, pk)
      {
        SnatLineExact(p, s, n, ir, pk, b);
      }
    } else if !n.masquerade && ir.srcPrefix.Some? && ir.srcPrefix.value.addr.family != ir.translateTo.value.family {
      forall pk: Packet
        ensures !Decides(SnatLineOf(ir), pk, b) && !SnatTranslates(p, n, pk)
      {
        SnatMatchesHold(ir, pk, b);
        SourceIs(p, s, n, pk);
      }
    } else {
      var host := if ir.srcPrefix.Some? then ir.srcPrefix.value.addr
                  else if ir.translateTo.Some? then ir.translateTo.value else RFC1918[0].addr;
      var pk := Packet("", if ir.outIfaces == [] then "" else ir.outIfaces[0], host, host, TCP, 0, New);
      SnatMatchesHold(ir, pk, b);
      assert Decides(SnatLineOf(ir), pk, b) && !SnatTranslates(p, n, pk);
    }
  }

  lemma SnatFirst(p: Policy, ns: seq<SourceNat>, irs: seq<SnatIR>, pk: Packet, b: Blocklist)
    requires ns != [] && irs != []
    requires Sem.SnatOutcome(p, ns[1..], pk, RewriteOf(Run(SnatLinesOf(irs[1..]), Accept, pk, b), pk))
    requires AllHold(SnatLineOf(irs[0]).matches, pk, b) <==> Sem.SnatSelects(p, ns[0], pk)
    requires ns[0].masquerade ==> SnatLineOf(irs[0]).action == Masquerade
    requires !ns[0].masquerade ==>
               && SnatLineOf(irs[0]).action.Snat?
               && forall to :: Sem.NamesHost(p, ns[0].translatedAddress, to) <==> to == SnatLineOf(irs[0]).action.src
    ensures Sem.SnatOutcome(p, ns, pk, RewriteOf(Run(SnatLinesOf(irs), Accept, pk, b), pk))
  {
    assert SnatLinesOf(irs)[1..] == SnatLinesOf(irs[1..]);
    assert SnatLinesOf(irs)[0] == SnatLineOf(irs[0]);
  }

  lemma {:induction false} SnatPreserved(p: Policy, s: Symbols, ns: seq<SourceNat>, irs: seq<SnatIR>, pk: Packet,
                                         b: Blocklist)
    requires WellFormed(p) && TablesOf(p, s)
    requires forall n :: n in ns ==> n in p.snat
    requires Traverse(SnatBy(s), ns) == Success(irs)
    ensures Sem.SnatOutcome(p, OpenSnats(p.zones, ns), pk, RewriteOf(Run(SnatLinesOf(irs), Accept, pk, b), pk))
  {
    if ns != [] {
      assert ns[0] in ns && forall x :: x in ns[1..] ==> x in ns;
      SnatPreserved(p, s, ns[1..], irs[1..], pk, b);
      SnatLineExact(p, s, ns[0], irs[0], pk, b);
      assert OpenSnats(p.zones, ns)[1..] == OpenSnats(p.zones, ns[1..]);
      assert OpenSnats(p.zones, ns)[0] == OpenSnat(p.zones, ns[0]);
      SnatFirst(p, OpenSnats(p.zones, ns), irs, pk, b);
    }
  }

  // ---- the two chains ----

  /** The policy leaves one outcome only, so agreeing with it is agreeing on the rewrite. */
  lemma {:induction false} DnatOutcomeUnique(p: Policy, ds: seq<DestinationNat>, pk: Packet, x: Sem.Rewrite,
                                             y: Sem.Rewrite)
    requires WellFormed(p) && forall d :: d in ds ==> IsHost(p.addresses, d.translatedAddress)
    requires Sem.DnatOutcome(p, ds, pk, x) && Sem.DnatOutcome(p, ds, pk, y)
    ensures x == y
  {
    if ds != [] {
      assert ds[0] in ds && forall d :: d in ds[1..] ==> d in ds;
      SymbolsCorrect(p);
      if a :| Sem.DnatSelects(p, ds[0], pk, a) {
        forall c | Sem.NamesHost(p, ds[0].translatedAddress, c)
          ensures c == a
        {
          HostIs(p, SymbolsOf(p).value, ds[0].translatedAddress, c);
          HostIs(p, SymbolsOf(p).value, ds[0].translatedAddress, a);
        }
      } else {
        DnatOutcomeUnique(p, ds[1..], pk, x, y);
      }
    }
  }

  lemma {:induction false} SnatOutcomeUnique(p: Policy, ns: seq<SourceNat>, pk: Packet, x: Sem.Rewrite, y: Sem.Rewrite)
    requires WellFormed(p) && forall n :: n in ns ==> n.masquerade || IsHost(p.addresses, n.translatedAddress)
    requires Sem.SnatOutcome(p, ns, pk, x) && Sem.SnatOutcome(p, ns, pk, y)
    ensures x == y
  {
    if ns != [] {
      var n := ns[0];
      assert n in ns && forall m :: m in ns[1..] ==> m in ns;
      SymbolsCorrect(p);
      if Sem.SnatSelects(p, n, pk) && n.masquerade {
      } else if Sem.SnatSelects(p, n, pk)
                && exists to :: Sem.NamesHost(p, n.translatedAddress, to) && to.family == FamilyOf(pk) {
        forall a, c | Sem.NamesHost(p, n.translatedAddress, a) && Sem.NamesHost(p, n.translatedAddress, c)
          ensures c == a
        {
          HostIs(p, SymbolsOf(p).value, n.translatedAddress, c);
          HostIs(p, SymbolsOf(p).value, n.translatedAddress, a);
        }
      } else {
        SnatOutcomeUnique(p, ns[1..], pk, x, y);
      }
    }
  }

  /** So for the lists that the compiled chains follow. */
  lemma NatOutcomesUnique(p: Policy, pk: Packet, x: Sem.Rewrite, y: Sem.Rewrite)
    requires WellFormed(p)
    ensures Sem.DnatOutcome(p, Opened(p).dnat, pk, x) && Sem.DnatOutcome(p, Opened(p).dnat, pk, y) ==> x == y
    ensures Sem.SnatOutcome(p, Opened(p).snat, pk, x) && Sem.SnatOutcome(p, Opened(p).snat, pk, y) ==> x == y
  {
    hide WellFormed, Sem.DnatOutcome, Sem.SnatOutcome;
    forall d | d in Opened(p).dnat
      ensures IsHost(p.addresses, d.translatedAddress)
    {
      var i :| 0 <= i < |p.dnat| && Opened(p).dnat[i] == d;
      DnatShape(p, p.dnat[i]);
    }
    forall n | n in Opened(p).snat
      ensures n.masquerade || IsHost(p.addresses, n.translatedAddress)
    {
      var i :| 0 <= i < |p.snat| && Opened(p).snat[i] == n;
      SnatShape(p, p.snat[i]);
    }
    if Sem.DnatOutcome(p, Opened(p).dnat, pk, x) && Sem.DnatOutcome(p, Opened(p).dnat, pk, y) {
      DnatOutcomeUnique(p, Opened(p).dnat, pk, x, y);
    }
    if Sem.SnatOutcome(p, Opened(p).snat, pk, x) && Sem.SnatOutcome(p, Opened(p).snat, pk, y) {
      SnatOutcomeUnique(p, Opened(p).snat, pk, x, y);
    }
  }

  /** Where the NAT zones are populated, opening them changes nothing. */
  lemma PopulatedNat(p: Policy)
    requires NatPopulated(p)
    ensures Opened(p).dnat == p.dnat && Opened(p).snat == p.snat
  {
    forall i | 0 <= i < |p.dnat|
      ensures Opened(p).dnat[i] == p.dnat[i]
    {
      assert p.dnat[i] in p.dnat;
    }
    forall i | 0 <= i < |p.snat|
      ensures Opened(p).snat[i] == p.snat[i]
    {
      assert p.snat[i] in p.snat;
    }
  }

  /**
    NAT compilation preserves meaning: the prerouting and postrouting chains rewrite every packet as
    the first entry of the opened policy that selects it, and leave the others alone; with populated
    NAT zones the entries are the policy's own.
   */
  lemma NatPreservedBoth(p: Policy, pk: Packet, b: Blocklist)
    requires Rendered(p).Some?
    ensures Sem.DnatOutcome(p, Opened(p).dnat, pk, RunNat(Rendered(p).value.prerouting, pk, b))
    ensures Sem.SnatOutcome(p, Opened(p).snat, pk, RunNat(Rendered(p).value.postrouting, pk, b))
    ensures NatPopulated(p) ==> Opened(p).dnat == p.dnat && Opened(p).snat == p.snat
  {
    hide Compiled, WellFormed, TablesOf, Sem.DnatOutcome, Sem.SnatOutcome, OpenRules, OpenDnats, OpenSnats,
      NatPopulated, ForwardOf;
    var ir, s := RenderedParts(p);
    DnatPreserved(p, s, p.dnat, ir.dnat, Traverse(DnatLineOf, ir.dnat).value, pk, b);
    SnatPreserved(p, s, p.snat, ir.snat, pk, b);
    if NatPopulated(p) {
      PopulatedNat(p);
    }
  }
}
