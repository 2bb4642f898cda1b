/** Name resolution and lowering: from a validated policy to the intermediate form. */
module Compiler {
  import opened Basics
  import opened Net
  import opened PolicyModel
  import opened WellFormedness
  import opened IntermediateForm
  import LinkCompiler
  import Sem = PolicySemantics
  import Validation

  datatype CompileError =
    | InvalidPolicy
    | UnknownReference(name: string)
    | BadCidr
    | ActionUnset(rule: string)
    | ProtocolUnset(service: string)
    | NothingToMonitor

  type Outcome<+T> = Result<T, CompileError>

  /** The three symbol tables of one compilation. */
  datatype Symbols = Symbols(zones: map<string, seq<string>>, addrs: map<string, Prefix>,
                             svcs: map<string, ServiceMatch>)

  // ---- what each step computes ----

  /** Truncation to 16 bits. */
  function U16(x: uint32): uint16 {
    x % 0x1_0000
  }

  /** The referenced objects in order; a wildcard anywhere makes the whole list "match any". */
  function Lookup<V>(table: map<string, V>, refs: seq<string>, found: seq<V>): Outcome<seq<V>> {
    if refs == [] then Success(found)
    else if refs[0] == ANY then Success([])
    else if refs[0] !in table then Failure(UnknownReference(refs[0]))
    else Lookup(table, refs[1..], found + [table[refs[0]]])
  }

  function Interfaces(zones: map<string, seq<string>>, refs: seq<string>): Outcome<seq<string>> {
    var found :- Lookup(zones, refs, []);
    Success(Flatten(found))
  }

  function ActionOf(r: Rule): Outcome<RuleAction> {
    if r.action == ACTION_ALLOW then Success(ActionAllow)
    else if r.action == ACTION_DENY then Success(ActionDeny)
    else if r.action == ACTION_REJECT then Success(ActionReject)
    else Failure(ActionUnset(r.name))
  }

  function RuleOf(s: Symbols, r: Rule): Outcome<RuleIR> {
    var from :- Interfaces(s.zones, r.fromZones);
    var to :- Interfaces(s.zones, r.toZones);
    var src :- Lookup(s.addrs, r.sourceAddresses, []);
    var dst :- Lookup(s.addrs, r.destinationAddresses, []);
    var svcs :- Lookup(s.svcs, r.services, []);
    var action :- ActionOf(r);
    Success(RuleIR(r.name, from, to, src, dst, svcs, action))
  }

  function Enabled(rules: seq<Rule>): seq<Rule> {
    if rules == [] then []
    else if rules[0].disabled then Enabled(rules[1..])
    else [rules[0]] + Enabled(rules[1..])
  }

  function AddressIn(s: Symbols, ref: string): Outcome<Prefix> {
    if ref in s.addrs then Success(s.addrs[ref]) else Failure(UnknownReference(ref))
  }

  function SnatOf(s: Symbols, n: SourceNat): Outcome<SnatIR> {
    var out :- Interfaces(s.zones, [n.toZone]);
    var src :- if n.sourceAddress == "" || n.sourceAddress == ANY then Success(None)
               else var pfx :- AddressIn(s, n.sourceAddress); Success(Some(pfx));
    var to :- if n.masquerade then Success(None)
              else var pfx :- AddressIn(s, n.translatedAddress); Success(Some(pfx.addr));
    Success(SnatIR(n.name, out, src, n.masquerade, to))
  }

  function DnatOf(s: Symbols, n: DestinationNat): Outcome<DnatIR> {
    var ins :- Interfaces(s.zones, [n.fromZone]);
    var svc :- if n.service in s.svcs then Success(s.svcs[n.service]) else Failure(UnknownReference(n.service));
    var dst :- AddressIn(s, n.destinationAddress);
    var to :- AddressIn(s, n.translatedAddress);
    Success(DnatIR(n.name, ins, svc.proto, svc.ports, dst.addr, to.addr, U16(n.translatedPort)))
  }

  function PortRangeOf(p: PortSpec): PortRange {
    PortRange(U16(p.start), if U16(p.end) == 0 then U16(p.start) else U16(p.end))
  }

  function PortRangesOf(ps: seq<PortSpec>): seq<PortRange> {
    seq(|ps|, i requires 0 <= i < |ps| => PortRangeOf(ps[i]))
  }

  function ServiceMatchOf(s: Service): Outcome<ServiceMatch> {
    var proto :- if s.protocol == PROTOCOL_TCP then Success(ProtoTCP)
                 else if s.protocol == PROTOCOL_UDP then Success(ProtoUDP)
                 else if s.protocol == PROTOCOL_ICMP then Success(ProtoICMP)
                 else if s.protocol == PROTOCOL_ANY then Success(ProtoAny)
                 else Failure(ProtocolUnset(s.name));
    Success(ServiceMatch(proto, PortRangesOf(s.ports)))
  }

  function ParseCidr(c: Option<Prefix>): Outcome<Prefix> {
    if c.Some? then Success(c.value) else Failure(BadCidr)
  }

  function RouteOf(r: StaticRoute): Outcome<RouteIR> {
    var dst :- ParseCidr(r.destination);
    if r.via.Malformed? then Failure(BadCidr)
    else Success(RouteIR(dst, if r.via.Hop? then Some(r.via.addr) else None, r.dev, r.metric))
  }

  function PeerOf(q: WireguardPeer): Outcome<WireguardPeerIR> {
    var ips :- Traverse(ParseCidr, q.allowedIps);
    Success(WireguardPeerIR(q.publicKey, q.endpoint, ips, U16(q.keepalive)))
  }

  function TunnelOf(w: WireguardInterface): Outcome<WireguardIR> {
    var address :- ParseCidr(w.address);
    var peers :- Traverse(PeerOf, w.peers);
    Success(WireguardIR(w.name, address, U16(w.listenPort), w.privateKeyFile, peers))
  }

  const POWERS := [128, 64, 32, 16, 8, 4, 2, 1]

  function Octet(n: nat): seq<bool> {
    seq(8, i requires 0 <= i < 8 => (n / POWERS[i]) % 2 == 1)
  }

  function V4Prefix(a: nat, b: nat, c: nat, d: nat, len: nat): Prefix
    requires len <= 32
  {
    Prefix(Addr(V4, Octet(a) + Octet(b) + Octet(c) + Octet(d)), len)
  }

  /** The default home networks, section 3 of RFC 1918. */
  const RFC1918: seq<Prefix> := [V4Prefix(10, 0, 0, 0, 8), V4Prefix(172, 16, 0, 0, 12), V4Prefix(192, 168, 0, 0, 16)]

  function Monitored(p: Policy): seq<string> {
    if p.ids.monitorInterfaces == [] then LinkCompiler.ZoneInterfaces(p.zones) else p.ids.monitorInterfaces
  }

  function IdsOf(p: Policy): Outcome<Option<IdsIR>> {
    if !p.ids.enabled then Success(None)
    else
      var prevent := p.ids.mode == IDS_MODE_PREVENT;
      if !prevent && Monitored(p) == [] then Failure(NothingToMonitor)
      else
        var nets :- Traverse(ParseCidr, p.ids.homeNetworks);
        Success(Some(IdsIR(prevent, Monitored(p), if nets == [] then RFC1918 else nets,
                           if p.ids.ruleFiles == [] then ["local.rules"] else p.ids.ruleFiles,
                           U16(p.ids.queueNum))))
  }

  function ZoneEntry(z: Zone): (string, seq<string>) {
    (z.name, z.interfaces)
  }

  function ZoneEntries(zones: seq<Zone>): seq<(string, seq<string>)> {
    seq(|zones|, i requires 0 <= i < |zones| => ZoneEntry(zones[i]))
  }

  function ZoneTable(zones: seq<Zone>): map<string, seq<string>> {
    TableOf(ZoneEntries(zones))
  }

  function AddressEntry(a: AddressObject): Outcome<(string, Prefix)> {
    var pfx :- ParseCidr(a.cidr);
    Success((a.name, pfx))
  }

  function ServiceEntry(s: Service): Outcome<(string, ServiceMatch)> {
    var m :- ServiceMatchOf(s);
    Success((s.name, m))
  }

  function SymbolsOf(p: Policy): Outcome<Symbols> {
    var addrs :- Traverse(AddressEntry, p.addresses);
    var svcs :- Traverse(ServiceEntry, p.services);
    Success(Symbols(ZoneTable(p.zones), TableOf(addrs), TableOf(svcs)))
  }

  function RoutingOf(p: Policy): Option<RoutingIR> {
    if !p.other.bgp && !p.other.ospf then None else Some(RoutingIR(p.other.bgp, p.other.ospf))
  }

  function RuleBy(s: Symbols): Rule -> Outcome<RuleIR> {
    r => RuleOf(s, r)
  }

  function SnatBy(s: Symbols): SourceNat -> Outcome<SnatIR> {
    n => SnatOf(s, n)
  }

  function DnatBy(s: Symbols): DestinationNat -> Outcome<DnatIR> {
    n => DnatOf(s, n)
  }

  ghost function Lowered(p: Policy): Outcome<IR> {
    var s :- SymbolsOf(p);
    var rules :- Traverse(RuleBy(s), Enabled(p.rules));
    var snat :- Traverse(SnatBy(s), p.snat);
    var dnat :- Traverse(DnatBy(s), p.dnat);
    var routes :- Traverse(RouteOf, p.routes);
    var ids :- IdsOf(p);
    var tunnels :- Traverse(TunnelOf, p.wireguard);
    Success(IR(rules, snat, dnat, routes, ids, RoutingOf(p), tunnels, Sem.IntelOn(p),
               LinkCompiler.NetworkOf(p.zones, p.network, ids)))
  }

  /** Compilation as a whole: nothing that fails validation gets past the front door. */
  ghost function Compiled(p: Policy): Outcome<IR> {
    if WellFormed(p) then Lowered(p) else Failure(InvalidPolicy)
  }

  // ---- the compilation, step by step ----

  class Compilation {
    var zoneIfaces: map<string, seq<string>>
    var addrs: map<string, Prefix>
    var svcs: map<string, ServiceMatch>

    constructor ()
      ensures zoneIfaces == map[] && addrs == map[] && svcs == map[]
    {
      zoneIfaces, addrs, svcs := map[], map[], map[];
    }

    ghost function Table(): Symbols
      reads this
    {
      Symbols(zoneIfaces, addrs, svcs)
    }

    method DefineZones(zones: seq<Zone>)
      requires zoneIfaces == map[]
      modifies this`zoneIfaces
      ensures zoneIfaces == ZoneTable(zones)
    {
      ghost var entries := ZoneEntries(zones);
      for i := 0 to |zones|
        invariant zoneIfaces == TableOf(entries[..i])
      {
        zoneIfaces := zoneIfaces[zones[i].name := zones[i].interfaces];
        assert entries[..i + 1][..i] == entries[..i];
      }
      assert entries[..|zones|] == entries;
    }

    method DefineAddresses(xs: seq<AddressObject>) returns (r: Outcome<()>)
      requires addrs == map[]
      modifies this`addrs
      ensures match Traverse(AddressEntry, xs)
              case Success(entries) => r == Success(()) && addrs == TableOf(entries)
              case Failure(e) => r == Failure(e)
    {
      ghost var done: seq<(string, Prefix)> := [];
      TraverseEnds(AddressEntry, xs);
      for i := 0 to |xs|
        invariant addrs == TableOf(done)
        invariant Traverse(AddressEntry, xs) == After(done, Traverse(AddressEntry, xs[i..]))
      {
        TraverseStep(AddressEntry, xs, i, done);
        if xs[i].cidr.None? {
          return Failure(BadCidr);
        }
        addrs := addrs[xs[i].name := xs[i].cidr.value];
        ghost var next := done + [(xs[i].name, xs[i].cidr.value)];
        assert next[..|next| - 1] == done;
        done := next;
      }
      return Success(());
    }

    method DefineServices(xs: seq<Service>) returns (r: Outcome<()>)
      requires svcs == map[]
      modifies this`svcs
      ensures match Traverse(ServiceEntry, xs)
              case Success(entries) => r == Success(()) && svcs == TableOf(entries)
              case Failure(e) => r == Failure(e)
    {
      ghost var done: seq<(string, ServiceMatch)> := [];
      TraverseEnds(ServiceEntry, xs);
      for i := 0 to |xs|
        invariant svcs == TableOf(done)
        invariant Traverse(ServiceEntry, xs) == After(done, Traverse(ServiceEntry, xs[i..]))
      {
        TraverseStep(ServiceEntry, xs, i, done);
        var m :- CompileService(xs[i]);
        svcs := svcs[xs[i].name := m];
        ghost var next := done + [(xs[i].name, m)];
        assert next[..|next| - 1] == done;
        done := next;
      }
      return Success(());
    }

    /** Zone references to interface names; a wildcard or empty list resolves to no interface at all. */
    method ResolveIfaces(refs: seq<string>) returns (r: Outcome<seq<string>>)
      ensures r == Interfaces(zoneIfaces, refs)
    {
      if |refs| == 0 {
        return Success([]);
      }
      var out: seq<string> := [];
      ghost var found: seq<seq<string>> := [];
      for i := 0 to |refs|
        invariant out == Flatten(found)
        invariant Lookup(zoneIfaces, refs, []) == Lookup(zoneIfaces, refs[i..], found)
      {
        assert refs[i..][1..] == refs[i + 1..];
        if refs[i] == ANY {
          return Success([]);
        }
        if refs[i] !in zoneIfaces {
          return Failure(UnknownReference(refs[i]));
        }
        FlattenSnoc(found, zoneIfaces[refs[i]]);
        found := found + [zoneIfaces[refs[i]]];
        out := out + zoneIfaces[refs[i]];
      }
      return Success(out);
    }

    method ResolvePrefixes(refs: seq<string>) returns (r: Outcome<seq<Prefix>>)
      ensures r == Lookup(addrs, refs, [])
    {
      if |refs| == 0 {
        return Success([]);
      }
      var out: seq<Prefix> := [];
      for i := 0 to |refs|
        invariant Lookup(addrs, refs, []) == Lookup(addrs, refs[i..], out)
      {
        assert refs[i..][1..] == refs[i + 1..];
        if refs[i] == ANY {
          return Success([]);
        }
        if refs[i] !in addrs {
          return Failure(UnknownReference(refs[i]));
        }
        out := out + [addrs[refs[i]]];
      }
      return Success(out);
    }

    method ResolveServices(refs: seq<string>) returns (r: Outcome<seq<ServiceMatch>>)
      ensures r == Lookup(svcs, refs, [])
    {
      var out: seq<ServiceMatch> := [];
      for i := 0 to |refs|
        invariant Lookup(svcs, refs, []) == Lookup(svcs, refs[i..], out)
      {
        assert refs[i..][1..] == refs[i + 1..];
        if refs[i] == ANY {
          return Success([]);
        }
        if refs[i] !in svcs {
          return Failure(UnknownReference(refs[i]));
        }
        out := out + [svcs[refs[i]]];
      }
      return Success(out);
    }

    method CompileRule(r: Rule) returns (out: Outcome<RuleIR>)
      ensures out == RuleOf(Table(), r)
    {
      var from :- ResolveIfaces(r.fromZones);
      var to :- ResolveIfaces(r.toZones);
      var src :- ResolvePrefixes(r.sourceAddresses);
      var dst :- ResolvePrefixes(r.destinationAddresses);
      var services :- ResolveServices(r.services);
      var action :- ActionOf(r);
      return Success(RuleIR(r.name, from, to, src, dst, services, action));
    }

    method CompileRules(rules: seq<Rule>) returns (out: Outcome<seq<RuleIR>>)
      ensures out == Traverse(RuleBy(Table()), Enabled(rules))
    {
      var done: seq<RuleIR> := [];
      ghost var f := RuleBy(Table());
      TraverseEnds(f, Enabled(rules));
      assert rules[0..] == rules && Enabled(rules)[0..] == Enabled(rules);
      for i := 0 to |rules|
        invariant Traverse(f, Enabled(rules)) == After(done, Traverse(f, Enabled(rules[i..])))
      {
        assert rules[i..][1..] == rules[i + 1..];
        if rules[i].disabled {
          continue;
        }
        ghost var left := Enabled(rules[i..]);
        assert left[1..] == Enabled(rules[i + 1..]) && left[0..] == left;
        TraverseStep(f, left, 0, done);
        var rule :- CompileRule(rules[i]);
        done := done + [rule];
      }
      return Success(done);
    }

    method CompileSnat(n: SourceNat) returns (out: Outcome<SnatIR>)
      ensures out == SnatOf(Table(), n)
    {
      var ifaces :- ResolveIfaces([n.toZone]);
      var src: Option<Prefix> := None;
      if n.sourceAddress != "" && n.sourceAddress != ANY {
        if n.sourceAddress !in addrs {
          return Failure(UnknownReference(n.sourceAddress));
        }
        src := Some(addrs[n.sourceAddress]);
      }
      var to: Option<Addr> := None;
      if !n.masquerade {
        if n.translatedAddress !in addrs {
          return Failure(UnknownReference(n.translatedAddress));
        }
        to := Some(addrs[n.translatedAddress].addr);
      }
      return Success(SnatIR(n.name, ifaces, src, n.masquerade, to));
    }

    method CompileDnat(n: DestinationNat) returns (out: Outcome<DnatIR>)
      ensures out == DnatOf(Table(), n)
    {
      var ifaces :- ResolveIfaces([n.fromZone]);
      if n.service !in svcs {
        return Failure(UnknownReference(n.service));
      }
      var m := svcs[n.service];
      if n.destinationAddress !in addrs {
        return Failure(UnknownReference(n.destinationAddress));
      }
      var dst := addrs[n.destinationAddress];
      if n.translatedAddress !in addrs {
        return Failure(UnknownReference(n.translatedAddress));
      }
      var to := addrs[n.translatedAddress];
      return Success(DnatIR(n.name, ifaces, m.proto, m.ports, dst.addr, to.addr, U16(n.translatedPort)));
    }

    method CompileNat(p: Policy) returns (out: Outcome<(seq<SnatIR>, seq<DnatIR>)>)
      ensures out == (var s :- Traverse(SnatBy(Table()), p.snat);
                      var d :- Traverse(DnatBy(Table()), p.dnat);
                      Success((s, d)))
    {
      var snat: seq<SnatIR> := [];
      ghost var f := SnatBy(Table());
      TraverseEnds(f, p.snat);
      for i := 0 to |p.snat|
        invariant Traverse(f, p.snat) == After(snat, Traverse(f, p.snat[i..]))
      {
        TraverseStep(f, p.snat, i, snat);
        var n :- CompileSnat(p.snat[i]);
        snat := snat + [n];
      }
      var dnat: seq<DnatIR> := [];
      ghost var g := DnatBy(Table());
      TraverseEnds(g, p.dnat);
      for i := 0 to |p.dnat|
        invariant Traverse(g, p.dnat) == After(dnat, Traverse(g, p.dnat[i..]))
      {
        TraverseStep(g, p.dnat, i, dnat);
        var n :- CompileDnat(p.dnat[i]);
        dnat := dnat + [n];
      }
      return Success((snat, dnat));
    }
  }

  method CompileService(s: Service) returns (out: Outcome<ServiceMatch>)
    ensures out == ServiceMatchOf(s)
  {
    var proto: Proto;
    if s.protocol == PROTOCOL_TCP {
      proto := ProtoTCP;
    } else if s.protocol == PROTOCOL_UDP {
      proto := ProtoUDP;
    } else if s.protocol == PROTOCOL_ICMP {
      proto := ProtoICMP;
    } else if s.protocol == PROTOCOL_ANY {
      proto := ProtoAny;
    } else {
      return Failure(ProtocolUnset(s.name));
    }
    var ports: seq<PortRange> := [];
    for i := 0 to |s.ports|
      invariant |ports| == i && forall k :: 0 <= k < i ==> ports[k] == PortRangeOf(s.ports[k])
    {
      var start, end := U16(s.ports[i].start), U16(s.ports[i].end);
      if end == 0 {
        end := start;
      }
      ports := ports + [PortRange(start, end)];
    }
    assert ports == PortRangesOf(s.ports);
    return Success(ServiceMatch(proto, ports));
  }

  /** Parse a list of prefixes, failing at the first that does not parse. */
  method ParseCidrs(cs: seq<Option<Prefix>>) returns (out: Outcome<seq<Prefix>>)
    ensures out == Traverse(ParseCidr, cs)
  {
    var done: seq<Prefix> := [];
    TraverseEnds(ParseCidr, cs);
    for i := 0 to |cs|
      invariant Traverse(ParseCidr, cs) == After(done, Traverse(ParseCidr, cs[i..]))
    {
      TraverseStep(ParseCidr, cs, i, done);
      var pfx :- ParseCidr(cs[i]);
      done := done + [pfx];
    }
    return Success(done);
  }

  method CompileIds(p: Policy) returns (out: Outcome<Option<IdsIR>>)
    ensures out == IdsOf(p)
  {
    if !p.ids.enabled {
      return Success(None);
    }
    var prevent := p.ids.mode == IDS_MODE_PREVENT;
    var interfaces := p.ids.monitorInterfaces;
    if |interfaces| == 0 {
      for i := 0 to |p.zones|
        invariant interfaces + LinkCompiler.ZoneInterfaces(p.zones[i..]) == LinkCompiler.ZoneInterfaces(p.zones)
      {
        LinkCompiler.ZoneInterfacesFrom(p.zones, i);
        interfaces := interfaces + p.zones[i].interfaces;
      }
    }
    assert interfaces == Monitored(p);
    if !prevent && |interfaces| == 0 {
      return Failure(NothingToMonitor);
    }
    var nets :- ParseCidrs(p.ids.homeNetworks);
    if |nets| == 0 {
      nets := RFC1918;
    }
    var ruleFiles := p.ids.ruleFiles;
    if |ruleFiles| == 0 {
      ruleFiles := ["local.rules"];
    }
    return Success(Some(IdsIR(prevent, interfaces, nets, ruleFiles, U16(p.ids.queueNum))));
  }

  method CompileRoutes(rs: seq<StaticRoute>) returns (out: Outcome<seq<RouteIR>>)
    ensures out == Traverse(RouteOf, rs)
  {
    var done: seq<RouteIR> := [];
    TraverseEnds(RouteOf, rs);
    for i := 0 to |rs|
      invariant Traverse(RouteOf, rs) == After(done, Traverse(RouteOf, rs[i..]))
    {
      TraverseStep(RouteOf, rs, i, done);
      var route :- RouteOf(rs[i]);
      done := done + [route];
    }
    return Success(done);
  }

  method CompileTunnel(w: WireguardInterface) returns (out: Outcome<WireguardIR>)
    ensures out == TunnelOf(w)
  {
    var address :- ParseCidr(w.address);
    var peers: seq<WireguardPeerIR> := [];
    TraverseEnds(PeerOf, w.peers);
    for i := 0 to |w.peers|
      invariant Traverse(PeerOf, w.peers) == After(peers, Traverse(PeerOf, w.peers[i..]))
    {
      TraverseStep(PeerOf, w.peers, i, peers);
      var ips :- ParseCidrs(w.peers[i].allowedIps);
      peers := peers + [WireguardPeerIR(w.peers[i].publicKey, w.peers[i].endpoint, ips, U16(w.peers[i].keepalive))];
    }
    return Success(WireguardIR(w.name, address, U16(w.listenPort), w.privateKeyFile, peers));
  }

  method CompileTunnels(ws: seq<WireguardInterface>) returns (out: Outcome<seq<WireguardIR>>)
    ensures out == Traverse(TunnelOf, ws)
  {
    var done: seq<WireguardIR> := [];
    TraverseEnds(TunnelOf, ws);
    for i := 0 to |ws|
      invariant Traverse(TunnelOf, ws) == After(done, Traverse(TunnelOf, ws[i..]))
    {
      TraverseStep(TunnelOf, ws, i, done);
      var t :- CompileTunnel(ws[i]);
      done := done + [t];
    }
    return Success(done);
  }

  method IntelSwitch(p: Policy) returns (on: bool)
    ensures on <==> Sem.IntelOn(p)
  {
    if p.intel.None? {
      return false;
    }
    var intel := p.intel.value;
    on := |intel.customFeeds| > 0;
    for i := 0 to |intel.feeds|
      invariant on <==> intel.customFeeds != [] || exists k :: 0 <= k < i && intel.feeds[k].enabled
    {
      if intel.feeds[i].enabled {
        on := true;
        break;
      }
    }
  }

  method Compile(p: Policy) returns (out: Outcome<IR>)
    ensures out == Compiled(p)
  {
    var errs := Validation.Validate(Some(p));
    if |errs| > 0 {
      return Failure(InvalidPolicy);
    }
    var c := new Compilation();
    c.DefineZones(p.zones);
    var _ :- c.DefineAddresses(p.addresses);
    var _ :- c.DefineServices(p.services);
    var rules :- c.CompileRules(p.rules);
    var translations :- c.CompileNat(p);
    var routes :- CompileRoutes(p.routes);
    var ids :- CompileIds(p);
    var tunnels :- CompileTunnels(p.wireguard);
    var network := LinkCompiler.CompileNetwork(p.zones, p.network, ids);
    var intel := IntelSwitch(p);
    return Success(IR(rules, translations.0, translations.1, routes, ids, RoutingOf(p), tunnels, intel, network));
  }
}
