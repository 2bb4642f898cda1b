/** Resolving the names of a well-formed policy keeps what each rule matches, and says exactly when it does not. */
module NameResolution {
  import opened Basics
  import opened Net
  import opened PolicyModel
  import opened WellFormedness
  import opened IntermediateForm
  import opened Compiler
  import Sem = PolicySemantics
  import R = RuleExpansion
  import Nft
  import NftRenderer

  // ---- the symbol tables of a well-formed policy ----

  ghost predicate ZoneTableOf(p: Policy, t: map<string, seq<string>>) {
    && (forall n :: n in t <==> exists z :: z in p.zones && z.name == n)
    && (forall z :: z in p.zones ==> z.name in t && t[z.name] == z.interfaces)
  }

  ghost predicate AddressTableOf(p: Policy, t: map<string, Prefix>) {
    && (forall n :: n in t <==> exists a :: a in p.addresses && a.name == n)
    && (forall a :: a in p.addresses ==> a.name in t && Some(t[a.name]) == a.cidr)
  }

  ghost predicate ServiceTableOf(p: Policy, t: map<string, ServiceMatch>) {
    && (forall n :: n in t <==> exists s :: s in p.services && s.name == n)
    && (forall s :: s in p.services ==> s.name in t && ServiceMatchOf(s) == Success(t[s.name]))
  }

  lemma ZoneTableCorrect(p: Policy)
    requires ZonesOk(p.zones)
    ensures ZoneTableOf(p, ZoneTable(p.zones))
  {
    var entries := ZoneEntries(p.zones);
    forall i, j | 0 <= i < j < |entries|
      ensures entries[i].0 != entries[j].0
    {
      assert ZoneOk(p.zones, j);
    }
    TableOfDistinct(entries);
    forall z | z in p.zones
      ensures z.name in ZoneTable(p.zones) && ZoneTable(p.zones)[z.name] == z.interfaces
    {
      var i :| 0 <= i < |p.zones| && p.zones[i] == z;
      assert entries[i] == ZoneEntry(z);
    }
    forall n | n in ZoneTable(p.zones)
      ensures exists z :: z in p.zones && z.name == n
    {
      var i :| 0 <= i < |entries| && entries[i].0 == n;
      assert p.zones[i] in p.zones;
    }
  }

  lemma AddressTableCorrect(p: Policy)
    requires AddressesOk(p.addresses)
    ensures Traverse(AddressEntry, p.addresses).Success?
    ensures AddressTableOf(p, TableOf(Traverse(AddressEntry, p.addresses).value))
  {
    forall i | 0 <= i < |p.addresses|
      ensures AddressEntry(p.addresses[i]).Success?
      ensures forall j :: 0 <= j < i ==> p.addresses[j].name != p.addresses[i].name
    {
      assert AddressOk(p.addresses, i);
    }
    TraverseElements(AddressEntry, p.addresses);
    var entries := Traverse(AddressEntry, p.addresses).value;
    TableOfDistinct(entries);
    var t := TableOf(entries);
    forall a | a in p.addresses
      ensures a.name in t && Some(t[a.name]) == a.cidr
    {
      var i :| 0 <= i < |p.addresses| && p.addresses[i] == a;
      assert AddressEntry(a) == Success(entries[i]);
    }
    forall n | n in t
      ensures exists a :: a in p.addresses && a.name == n
    {
      var i :| 0 <= i < |entries| && entries[i].0 == n;
      assert p.addresses[i] in p.addresses;
    }
  }

  lemma ServiceTableCorrect(p: Policy)
    requires ServicesOk(p.services)
    ensures Traverse(ServiceEntry, p.services).Success?
    ensures ServiceTableOf(p, TableOf(Traverse(ServiceEntry, p.services).value))
  {
    forall i | 0 <= i < |p.services|
      ensures ServiceEntry(p.services[i]).Success?
      ensures forall j :: 0 <= j < i ==> p.services[j].name != p.services[i].name
    {
      assert ServiceOk(p.services, i);
    }
    TraverseElements(ServiceEntry, p.services);
    var entries := Traverse(ServiceEntry, p.services).value;
    TableOfDistinct(entries);
    var t := TableOf(entries);
    forall s | s in p.services
      ensures s.name in t && ServiceMatchOf(s) == Success(t[s.name])
    {
      var i :| 0 <= i < |p.services| && p.services[i] == s;
      assert ServiceEntry(s) == Success(entries[i]);
    }
    forall n | n in t
      ensures exists s :: s in p.services && s.name == n
    {
      var i :| 0 <= i < |entries| && entries[i].0 == n;
      assert p.services[i] in p.services;
    }
  }

  ghost predicate TablesOf(p: Policy, s: Symbols) {
    ZoneTableOf(p, s.zones) && AddressTableOf(p, s.addrs) && ServiceTableOf(p, s.svcs)
  }

  lemma SymbolsCorrect(p: Policy)
    requires WellFormed(p)
    ensures SymbolsOf(p).Success? && TablesOf(p, SymbolsOf(p).value)
  {
    ZoneTableCorrect(p);
    AddressTableCorrect(p);
    ServiceTableCorrect(p);
  }

  // ---- lookups ----

  ghost predicate Known<V>(table: map<string, V>, refs: seq<string>) {
    forall r :: r in refs ==> r == ANY || r in table
  }

  function Picked<V>(table: map<string, V>, refs: seq<string>): seq<V>
    requires forall r :: r in refs ==> r in table
  {
    seq(|refs|, i requires 0 <= i < |refs| => table[refs[i]])
  }

  /** With every name known, a lookup gives the named objects in order, or nothing at all for a wildcard. */
  lemma {:induction false} LookupKnown<V>(table: map<string, V>, refs: seq<string>, found: seq<V>)
    requires Known(table, refs)
    ensures ANY in refs ==> Lookup(table, refs, found) == Success([])
    ensures ANY !in refs ==> Lookup(table, refs, found) == Success(found + Picked(table, refs))
  {
    if refs == [] {
      assert found + Picked(table, refs) == found;
    } else if refs[0] != ANY {
      assert refs == [refs[0]] + refs[1..];
      assert refs[0] in refs;
      LookupKnown(table, refs[1..], found + [table[refs[0]]]);
      if ANY !in refs {
        assert found + [table[refs[0]]] + Picked(table, refs[1..]) == found + Picked(table, refs);
      }
    }
  }

  // ---- zones: the only place where resolution can change a meaning ----

  /** The list names at least one interface, unless it is a wildcard. */
  predicate Populated(zones: seq<Zone>, refs: seq<string>) {
    Sem.Wild(refs) || exists z :: z in zones && z.name in refs && z.interfaces != []
  }

  lemma InterfacesAre(p: Policy, t: map<string, seq<string>>, refs: seq<string>)
    requires ZoneTableOf(p, t) && Known(t, refs)
    ensures Interfaces(t, refs).Success?
    ensures ANY in refs ==> Interfaces(t, refs).value == []
    ensures ANY !in refs ==> forall ifc :: ifc in Interfaces(t, refs).value <==> Sem.InNamedZone(p.zones, refs, ifc)
  {
    LookupKnown(t, refs, []);
    if ANY !in refs {
      var picked := Picked(t, refs);
      assert [] + picked == picked;
      forall ifc
        ensures ifc in Flatten(picked) <==> Sem.InNamedZone(p.zones, refs, ifc)
      {
        FlattenMember(picked, ifc);
        if i :| 0 <= i < |picked| && ifc in picked[i] {
          assert refs[i] in refs && refs[i] in t;
          var z :| z in p.zones && z.name == refs[i];
          assert z.name in refs && ifc in z.interfaces;
        }
        if z :| z in p.zones && z.name in refs && ifc in z.interfaces {
          var i :| 0 <= i < |refs| && refs[i] == z.name;
          assert ifc in picked[i];
        }
      }
    }
  }

  /**
    The interface list means what the zone list means, for every interface name, exactly when the
    zone list is populated: an empty result would mean "any interface" instead of "none".
   */
  lemma ZonesPreservedIff(p: Policy, t: map<string, seq<string>>, refs: seq<string>)
    requires ZoneTableOf(p, t) && Known(t, refs)
    ensures Interfaces(t, refs).Success?
    ensures (forall ifc :: R.IfaceIn(Interfaces(t, refs).value, ifc) <==> Sem.ZonesMatch(p.zones, refs, ifc))
            <==> Populated(p.zones, refs)
    ensures !Populated(p.zones, refs) ==>
              forall ifc :: R.IfaceIn(Interfaces(t, refs).value, ifc) && !Sem.ZonesMatch(p.zones, refs, ifc)
  {
    InterfacesAre(p, t, refs);
    var names := Interfaces(t, refs).value;
    if refs == [] {
      assert names == [];
    } else if ANY !in refs {
      if names != [] {
        assert Sem.InNamedZone(p.zones, refs, names[0]);
        var z :| z in p.zones && z.name in refs && names[0] in z.interfaces;
        assert Populated(p.zones, refs);
      } else {
        assert !Sem.InNamedZone(p.zones, refs, "");
        assert R.IfaceIn(names, "") && !Sem.ZonesMatch(p.zones, refs, "");
      }
      if Populated(p.zones, refs) {
        var z :| z in p.zones && z.name in refs && z.interfaces != [];
        assert Sem.InNamedZone(p.zones, refs, z.interfaces[0]);
      }
    }
  }

  /** What compilation makes of a zone list: one that is not populated becomes the wildcard. */
  function OpenRefs(zones: seq<Zone>, refs: seq<string>): seq<string> {
    if Populated(zones, refs) then refs else []
  }

  function OpenRef(zones: seq<Zone>, ref: string): string {
    if Populated(zones, [ref]) then ref else ANY
  }

  lemma OneOpened(zones: seq<Zone>, ref: string, ifc: string)
    ensures Sem.ZonesMatch(zones, [OpenRef(zones, ref)], ifc) <==> Sem.ZonesMatch(zones, OpenRefs(zones, [ref]), ifc)
  {
    if !Populated(zones, [ref]) {
      assert ANY in [ANY];
    }
  }

  /** So for every zone list the interface list means what the opened zone list means. */
  lemma ZonesOpened(p: Policy, t: map<string, seq<string>>, refs: seq<string>)
    requires ZoneTableOf(p, t) && Known(t, refs)
    ensures Interfaces(t, refs).Success?
    ensures forall ifc ::
              R.IfaceIn(Interfaces(t, refs).value, ifc) <==> Sem.ZonesMatch(p.zones, OpenRefs(p.zones, refs), ifc)
  {
    ZonesPreservedIff(p, t, refs);
    hide Populated, Interfaces, R.IfaceIn;
  }

  // ---- addresses and services: always preserved ----

  lemma ObjectNamed(p: Policy, t: map<string, Prefix>, name: string) returns (o: AddressObject)
    requires AddressTableOf(p, t) && name in t
    ensures o in p.addresses && o.name == name && o.cidr == Some(t[name])
  {
    o :| o in p.addresses && o.name == name;
  }

  lemma AddressesPreserved(p: Policy, t: map<string, Prefix>, refs: seq<string>, a: Addr)
    requires AddressTableOf(p, t) && Known(t, refs)
    ensures Lookup(t, refs, []).Success?
    ensures R.AddrIn(Lookup(t, refs, []).value, a) <==> Sem.AddressesMatch(p.addresses, refs, a)
  {
    LookupKnown(t, refs, []);
    hide Lookup, Contains;
    if ANY !in refs && refs != [] {
      var picked := Picked(t, refs);
      assert [] + picked == picked;
      if x :| x in picked && Contains(x, a) {
        var i :| 0 <= i < |picked| && picked[i] == x;
        var o := ObjectNamed(p, t, refs[i]);
        assert o.name in refs && Sem.Covers(o, a);
      }
      if o :| o in p.addresses && o.name in refs && Sem.Covers(o, a) {
        var i :| 0 <= i < |refs| && refs[i] == o.name;
        assert picked[i] in picked && Contains(picked[i], a);
      }
    }
  }

  /** Nothing is lost in the conversion to 16 bits, and `end == 0` becomes a one-port range. */
  lemma PortRangesPreserved(ps: seq<PortSpec>, port: nat)
    requires forall k :: 0 <= k < |ps| ==> PortOk(ps[k])
    ensures Nft.InPorts(PortRangesOf(ps), port) <==> exists x :: x in ps && Sem.PortMatches(x, port)
    ensures forall r :: r in PortRangesOf(ps) ==> r.start <= r.end
  {
    var rs := PortRangesOf(ps);
    forall k | 0 <= k < |ps|
      ensures rs[k].start <= port <= rs[k].end <==> Sem.PortMatches(ps[k], port)
      ensures rs[k].start <= rs[k].end
    {
    }
    if r :| r in rs && r.start <= port <= r.end {
      var k :| 0 <= k < |rs| && rs[k] == r;
      assert ps[k] in ps && Sem.PortMatches(ps[k], port);
    }
    if x :| x in ps && Sem.PortMatches(x, port) {
      var k :| 0 <= k < |ps| && ps[k] == x;
      assert rs[k] in rs;
    }
  }

  lemma ServicePreserved(s: Service, pk: Packet)
    requires ShapeOk(s)
    ensures ServiceMatchOf(s).Success?
    ensures R.ServiceHolds(ServiceMatchOf(s).value, pk) <==> Sem.ServiceMatches(s, pk)
    ensures forall r :: r in ServiceMatchOf(s).value.ports ==> r.start <= r.end
  {
    if s.protocol == PROTOCOL_TCP || s.protocol == PROTOCOL_UDP {
      PortRangesPreserved(s.ports, pk.dport);
    }
  }

  lemma ServiceShape(p: Policy, s: Service)
    requires ServicesOk(p.services) && s in p.services
    ensures ShapeOk(s)
  {
    var i :| 0 <= i < |p.services| && p.services[i] == s;
    assert ServiceOk(p.services, i);
  }

  lemma ServiceNamed(p: Policy, t: map<string, ServiceMatch>, name: string, pk: Packet) returns (s: Service)
    requires ServiceTableOf(p, t) && ServicesOk(p.services) && name in t
    ensures s in p.services && s.name == name
    ensures R.ServiceHolds(t[name], pk) <==> Sem.ServiceMatches(s, pk)
    ensures forall r :: r in t[name].ports ==> r.start <= r.end
  {
    s :| s in p.services && s.name == name;
    ServiceShape(p, s);
    ServicePreserved(s, pk);
  }

  lemma ServiceFound(p: Policy, t: map<string, ServiceMatch>, s: Service, pk: Packet)
    requires ServiceTableOf(p, t) && ServicesOk(p.services) && s in p.services
    ensures s.name in t && (R.ServiceHolds(t[s.name], pk) <==> Sem.ServiceMatches(s, pk))
  {
    ServiceShape(p, s);
    ServicePreserved(s, pk);
  }

  lemma ServicesPreserved(p: Policy, t: map<string, ServiceMatch>, refs: seq<string>, pk: Packet)
    requires ServiceTableOf(p, t) && ServicesOk(p.services) && Known(t, refs)
    ensures Lookup(t, refs, []).Success?
    ensures R.ServiceIn(Lookup(t, refs, []).value, pk) <==> Sem.ServicesMatch(p.services, refs, pk)
  {
    hide ServiceTableOf, ServicesOk, Lookup, R.ServiceHolds, Sem.ServiceMatches;
    LookupKnown(t, refs, []);
    if ANY !in refs && refs != [] {
      var picked := Picked(t, refs);
      assert [] + picked == picked;
      if m :| m in picked && R.ServiceHolds(m, pk) {
        var i :| 0 <= i < |picked| && picked[i] == m;
        var s := ServiceNamed(p, t, refs[i], pk);
        assert s.name in refs;
      }
      if s :| s in p.services && s.name in refs && Sem.ServiceMatches(s, pk) {
        ServiceFound(p, t, s, pk);
        var i :| 0 <= i < |refs| && refs[i] == s.name;
        assert picked[i] in picked && R.ServiceHolds(picked[i], pk);
      }
    }
  }

  /** No port range of a compiled service is empty. */
  lemma ServicePortsNonEmpty(p: Policy, t: map<string, ServiceMatch>, refs: seq<string>, pk: Packet)
    requires ServiceTableOf(p, t) && ServicesOk(p.services) && Known(t, refs) && Lookup(t, refs, []).Success?
    ensures forall m, r :: m in Lookup(t, refs, []).value && r in m.ports ==> r.start <= r.end
  {
    LookupKnown(t, refs, []);
    if ANY !in refs {
      var picked := Picked(t, refs);
      assert [] + picked == picked;
      forall m, r | m in picked && r in m.ports
        ensures r.start <= r.end
      {
        var i :| 0 <= i < |picked| && picked[i] == m;
        var s := ServiceNamed(p, t, refs[i], pk);
      }
    }
  }

  // ---- rules ----

  lemma RefsKnown(p: Policy, s: Symbols, r: Rule)
    requires WellFormed(p) && TablesOf(p, s) && r in p.rules
    ensures Known(s.zones, r.fromZones) && Known(s.zones, r.toZones)
    ensures Known(s.addrs, r.sourceAddresses) && Known(s.addrs, r.destinationAddresses)
    ensures Known(s.svcs, r.services)
    ensures r.action != ACTION_UNSPECIFIED
  {
    var i :| 0 <= i < |p.rules| && p.rules[i] == r;
    assert RuleOk(p, i);
    KnownZones(p, s, r.fromZones);
    KnownZones(p, s, r.toZones);
    KnownAddresses(p, s, r.sourceAddresses);
    KnownAddresses(p, s, r.destinationAddresses);
    forall n | n in r.services
      ensures n == ANY || n in s.svcs
    {
      if n != ANY {
        var j :| 0 <= j < |p.services| && p.services[j].name == n;
        assert p.services[j] in p.services;
      }
    }
  }

  lemma KnownZones(p: Policy, s: Symbols, refs: seq<string>)
    requires TablesOf(p, s) && ZoneRefsOk(p, refs)
    ensures Known(s.zones, refs)
  {
    forall n | n in refs
      ensures n == ANY || n in s.zones
    {
      if n != ANY {
        var j :| 0 <= j < |p.zones| && p.zones[j].name == n;
        assert p.zones[j] in p.zones;
      }
    }
  }

  lemma KnownAddresses(p: Policy, s: Symbols, refs: seq<string>)
    requires TablesOf(p, s) && AddressRefsOk(p, refs)
    ensures Known(s.addrs, refs)
  {
    forall n | n in refs
      ensures n == ANY || n in s.addrs
    {
      if n != ANY {
        var j :| 0 <= j < |p.addresses| && p.addresses[j].name == n;
        assert p.addresses[j] in p.addresses;
      }
    }
  }

  predicate RulePopulated(p: Policy, r: Rule) {
    Populated(p.zones, r.fromZones) && Populated(p.zones, r.toZones)
  }

  predicate DeclaredAction(action: int) {
    action == ACTION_ALLOW || action == ACTION_DENY || action == ACTION_REJECT
  }

  function ActionFor(d: Sem.Decision): Nft.Action {
    match d
    case Allow => Nft.Accept
    case Deny => Nft.Drop
    case Refuse => Nft.Reject
  }

  /** All references of a rule of a well-formed policy resolve. */
  lemma RefsResolve(p: Policy, s: Symbols, r: Rule)
    requires WellFormed(p) && TablesOf(p, s) && r in p.rules
    ensures Interfaces(s.zones, r.fromZones).Success? && Interfaces(s.zones, r.toZones).Success?
    ensures Lookup(s.addrs, r.sourceAddresses, []).Success? && Lookup(s.addrs, r.destinationAddresses, []).Success?
    ensures Lookup(s.svcs, r.services, []).Success? && r.action != ACTION_UNSPECIFIED
  {
    RefsKnown(p, s, r);
    hide WellFormed, Lookup, Picked, Known, TablesOf;
    LookupKnown(s.zones, r.fromZones, []);
    LookupKnown(s.zones, r.toZones, []);
    LookupKnown(s.addrs, r.sourceAddresses, []);
    LookupKnown(s.addrs, r.destinationAddresses, []);
    LookupKnown(s.svcs, r.services, []);
  }

  /** A rule of a well-formed policy compiles exactly when its action is a declared one; that is all that can fail. */
  lemma RuleCompiles(p: Policy, s: Symbols, r: Rule)
    requires WellFormed(p) && TablesOf(p, s) && r in p.rules
    ensures RuleOf(s, r).Success? <==> DeclaredAction(r.action)
    ensures RuleOf(s, r).Failure? ==> RuleOf(s, r).error == ActionUnset(r.name)
    ensures RuleOf(s, r).Success? ==> RuleOf(s, r).value.name == r.name
    ensures RuleOf(s, r).Success? ==>
              NftRenderer.VerdictOf(RuleOf(s, r).value.action) == ActionFor(Sem.DecisionOf(r.action))
  {
    RefsResolve(p, s, r);
    hide WellFormed, Lookup, TablesOf, Interfaces;
  }

  /** What resolution keeps, part by part; `ir` is the compiled rule. */
  lemma RuleParts(p: Policy, s: Symbols, r: Rule, ir: RuleIR, pk: Packet)
    requires WellFormed(p) && TablesOf(p, s) && r in p.rules && RuleOf(s, r) == Success(ir)
    ensures R.AddrIn(ir.srcPrefixes, pk.src) <==> Sem.AddressesMatch(p.addresses, r.sourceAddresses, pk.src)
    ensures R.AddrIn(ir.dstPrefixes, pk.dst) <==> Sem.AddressesMatch(p.addresses, r.destinationAddresses, pk.dst)
    ensures R.ServiceIn(ir.services, pk) <==> Sem.ServicesMatch(p.services, r.services, pk)
    ensures R.IfaceIn(ir.fromIfaces, pk.iif) <==> Sem.ZonesMatch(p.zones, OpenRefs(p.zones, r.fromZones), pk.iif)
    ensures R.IfaceIn(ir.toIfaces, pk.oif) <==> Sem.ZonesMatch(p.zones, OpenRefs(p.zones, r.toZones), pk.oif)
  {
    RefsKnown(p, s, r);
    AddressesPreserved(p, s.addrs, r.sourceAddresses, pk.src);
    AddressesPreserved(p, s.addrs, r.destinationAddresses, pk.dst);
    ServicesPreserved(p, s.svcs, r.services, pk);
    ZonesOpened(p, s.zones, r.fromZones);
    ZonesOpened(p, s.zones, r.toZones);
  }

  /** The rule with its zone lists opened. */
  function OpenRule(zones: seq<Zone>, r: Rule): Rule {
    r.(fromZones := OpenRefs(zones, r.fromZones), toZones := OpenRefs(zones, r.toZones))
  }

  /** Resolution keeps which packets the opened rule matches; a populated rule is its own opened one. */
  lemma RulePreserved(p: Policy, s: Symbols, r: Rule, ir: RuleIR, pk: Packet)
    requires WellFormed(p) && TablesOf(p, s) && r in p.rules && RuleOf(s, r) == Success(ir)
    ensures R.IRMatches(ir, pk) <==> Sem.RuleMatches(p, OpenRule(p.zones, r), pk)
    ensures RulePopulated(p, r) ==> OpenRule(p.zones, r) == r
  {
    RuleParts(p, s, r, ir, pk);
  }
}
