/**
  The accumulating validator: it walks the policy once, collects symbol tables as it goes, and
  appends a message for each problem instead of stopping at the first.
 */
module Validation {
  import opened Basics
  import opened Net
  import opened PolicyModel
  import opened WellFormedness
  import Registry

  datatype Subject =
    | ThePolicy | TheZone | TheAddress | TheService | TheRule | TheSourceNat | TheDestinationNat
    | TheRoute | TheIds | TheWireguard | TheFeed | TheNetwork | AnotherSection

  datatype Fault =
    | Missing | EmptyName | ReservedName | InvalidName | Duplicate
    | EmptyInterface | InterfaceTaken(ifc: string, owner: string)
    | InvalidCidr | PortOutOfRange | InvalidPortRange | PortsNotAllowed | ProtocolUnset | ActionUnset
    | UnknownZone(zone: string) | UnknownAddress(address: string) | UnknownService(service: string)
    | MasqueradeWithAddress | NoTranslation | NotAHost(ref: string) | NotTcpOrUdp(protocolOf: string)
    | NoNextHop | InvalidNextHop | ModeUnset | NotARelativePath | QueueOutOfRange
    | InvalidKey | NoAllowedIps | InvalidEndpoint | KeepaliveOutOfRange | NotAnAbsolutePath
    | UnknownFeed | LicenceForbids | InvalidUrl | RefreshTooShort | MtuOutOfRange | Reported

  /** One entry of the report: what kind of object, which one, and what is wrong with it. */
  datatype Problem = Problem(subject: Subject, name: string, fault: Fault)

  /** What a report names: kind and name of every object it complains about. */
  ghost function Named(errs: seq<Problem>): set<(Subject, string)> {
    set e | e in errs :: (e.subject, e.name)
  }

  /** Problems are only ever added. */
  ghost predicate Grew(was: seq<Problem>, now: seq<Problem>) {
    was <= now && Named(was) <= Named(now)
  }

  lemma OneMore(errs: seq<Problem>, e: Problem)
    ensures Named(errs + [e]) == Named(errs) + {(e.subject, e.name)}
    ensures Grew(errs, errs + [e])
  {
    assert e in errs + [e] && forall x :: x in errs + [e] <==> x in errs || x == e;
  }

  /** The report names the zone, or an earlier one that it shares an interface with. */
  ghost predicate ZoneReported(errs: seq<Problem>, zs: seq<Zone>, i: nat)
    requires i < |zs|
  {
    || (TheZone, zs[i].name) in Named(errs)
    || exists j, c ::
         0 <= j < i && c in zs[j].interfaces && c in zs[i].interfaces && (TheZone, zs[j].name) in Named(errs)
  }

  /**
    Every malformed object, rule and translation is named in the report, or, for a zone, one it shares
    an interface with.
   */
  ghost predicate ObjectsReported(errs: seq<Problem>, p: Policy) {
    && (forall i :: 0 <= i < |p.zones| && !ZoneOk(p.zones, i) ==> ZoneReported(errs, p.zones, i))
    && (forall i :: 0 <= i < |p.addresses| && !AddressOk(p.addresses, i) ==>
        (TheAddress, p.addresses[i].name) in Named(errs))
    && (forall i :: 0 <= i < |p.services| && !ServiceOk(p.services, i) ==>
        (TheService, p.services[i].name) in Named(errs))
    && (forall i :: 0 <= i < |p.rules| && !RuleOk(p, i) ==> (TheRule, p.rules[i].name) in Named(errs))
    && (forall i :: 0 <= i < |p.snat| && !SnatOk(p, i) ==> (TheSourceNat, p.snat[i].name) in Named(errs))
    && (forall i :: 0 <= i < |p.dnat| && !DnatOk(p, i) ==> (TheDestinationNat, p.dnat[i].name) in Named(errs))
  }

  /** So is every malformed tunnel, feed and override; the rest is reported by section. */
  ghost predicate SectionsReported(errs: seq<Problem>, p: Policy) {
    && (!RoutesOk(p) ==> (TheRoute, "") in Named(errs))
    && (forall i :: 0 <= i < |p.wireguard| && !WireguardOk(p.wireguard, i) ==>
          (TheWireguard, p.wireguard[i].name) in Named(errs))
    && (!IdsOk(p) ==> exists name :: (TheIds, name) in Named(errs))
    && (p.intel.Some? ==> FeedsReported(errs, p.intel.value))
    && (p.network.Some? ==> MtusReported(errs, p.network.value))
    && (forall k :: 0 <= k < |p.other.problems| ==> (AnotherSection, p.other.problems[k]) in Named(errs))
  }

  ghost predicate FeedsReported(errs: seq<Problem>, n: Intel) {
    && (forall i :: 0 <= i < |n.feeds| && !FeedOk(n, i) ==> (TheFeed, n.feeds[i].name) in Named(errs))
    && (forall i :: 0 <= i < |n.customFeeds| && !CustomFeedOk(n, i) ==> (TheFeed, n.customFeeds[i].name) in Named(errs))
    && (0 < n.refreshIntervalMinutes < 5 ==> (TheFeed, "") in Named(errs))
  }

  ghost predicate MtusReported(errs: seq<Problem>, n: Network) {
    && (n.mtu != 0 && !(MIN_MTU <= n.mtu <= MAX_MTU) ==> (TheNetwork, "") in Named(errs))
    && (forall i :: 0 <= i < |n.interfaceMtus| && !InterfaceMtuOk(n, i) ==>
          (TheNetwork, n.interfaceMtus[i].name) in Named(errs))
  }

  lemma ObjectsStillReported(was: seq<Problem>, now: seq<Problem>, p: Policy)
    requires Grew(was, now) && ObjectsReported(was, p)
    ensures ObjectsReported(now, p)
  {
    hide ZoneOk, AddressOk, ServiceOk, RuleOk, SnatOk, DnatOk, Named;
  }

  class Validator {
    var errs: seq<Problem>
    var zones: set<string>
    var addresses: map<string, Prefix>
    var services: map<string, Service>

    constructor ()
      ensures errs == [] && zones == {} && addresses == map[] && services == map[]
    {
      errs, zones, addresses, services := [], {}, map[], map[];
    }

    method Complain(kind: Subject, name: string, fault: Fault)
      modifies this`errs
      ensures errs == old(errs) + [Problem(kind, name, fault)]
      ensures Grew(old(errs), errs) && (kind, name) in Named(errs)
    {
      OneMore(errs, Problem(kind, name, fault));
      errs := errs + [Problem(kind, name, fault)];
    }

    /** One message exactly when the name is not acceptable. */
    method CheckName(kind: Subject, name: string) returns (ok: bool)
      modifies this`errs
      ensures ok <==> GoodName(name)
      ensures ok ==> errs == old(errs) && name != ""
      ensures !ok ==> (kind, name) in Named(errs)
      ensures Grew(old(errs), errs) && |errs| == |old(errs)| + if ok then 0 else 1
    {
      if name == "" {
        Complain(kind, name, EmptyName);
        return false;
      }
      if name == ANY {
        Complain(kind, name, ReservedName);
        return false;
      }
      if !MatchesNameRE(name) {
        Complain(kind, name, InvalidName);
        return false;
      }
      return true;
    }

    /** The k-th interface is empty, listed before, or taken. */
    static ghost predicate Clash(ifcs: seq<string>, taken: set<string>, k: nat)
      requires k < |ifcs|
    {
      ifcs[k] == "" || ifcs[k] in ifcs[..k] || ifcs[k] in taken
    }

    /** Claim the interfaces of zone i: each must be named and owned by nobody yet. */
    method CollectInterfaces(zs: seq<Zone>, i: nat, owned: map<string, string>) returns (owner: map<string, string>)
      requires i < |zs|
      requires errs == [] ==> forall c :: c in owned <==> exists j :: 0 <= j < i && c in zs[j].interfaces
      modifies this`errs
      ensures Grew(old(errs), errs)
      ensures errs == [] <==> old(errs) == [] && forall k :: 0 <= k < |zs[i].interfaces| ==> InterfaceOk(zs, i, k)
      ensures errs == [] ==> forall c :: c in owner <==> exists j :: 0 <= j <= i && c in zs[j].interfaces
      ensures owned.Keys <= owner.Keys && forall c :: c in zs[i].interfaces && c != "" ==> c in owner
      ensures (exists k :: 0 <= k < |zs[i].interfaces| && Clash(zs[i].interfaces, owned.Keys, k)) ==>
                (TheZone, zs[i].name) in Named(errs)
    {
      var z := zs[i];
      owner := owned;
      for k := 0 to |z.interfaces|
        invariant Grew(old(errs), errs)
        invariant errs == [] <==> old(errs) == [] && forall m :: 0 <= m < k ==> InterfaceOk(zs, i, m)
        invariant errs == [] ==> forall c :: c in owner <==> c in owned || c in z.interfaces[..k]
        invariant owned.Keys <= owner.Keys && forall c :: c in z.interfaces[..k] && c != "" ==> c in owner
        invariant (exists m :: 0 <= m < k && Clash(z.interfaces, owned.Keys, m)) ==> (TheZone, z.name) in Named(errs)
      {
        var ifc := z.interfaces[k];
        ghost var fine := InterfaceOk(zs, i, k);
        assert z.interfaces[..k + 1] == z.interfaces[..k] + [ifc];
        if ifc == "" {
          Complain(TheZone, z.name, EmptyInterface);
          continue;
        }
        if ifc in owner {
          Complain(TheZone, z.name, InterfaceTaken(ifc, owner[ifc]));
          continue;
        }
        owner := owner[ifc := z.name];
      }
      assert z.interfaces[..|z.interfaces|] == z.interfaces;
    }

    static lemma StillReported(was: seq<Problem>, now: seq<Problem>, zs: seq<Zone>, n: nat)
      requires n <= |zs| && Grew(was, now) && forall i :: 0 <= i < n && !ZoneOk(zs, i) ==> ZoneReported(was, zs, i)
      ensures forall i :: 0 <= i < n && !ZoneOk(zs, i) ==> ZoneReported(now, zs, i)
    {
      hide ZoneOk;
    }

    static lemma ZoneIsReported(errs: seq<Problem>, zs: seq<Zone>, i: nat, taken: set<string>)
      requires i < |zs| && GoodName(zs[i].name)
      requires forall j :: 0 <= j < i && zs[j].name == zs[i].name ==> (TheZone, zs[j].name) in Named(errs)
      requires forall j, c :: 0 <= j < i && c in zs[j].interfaces && c != "" ==>
                 c in taken || (TheZone, zs[j].name) in Named(errs)
      requires (exists k :: 0 <= k < |zs[i].interfaces| && Clash(zs[i].interfaces, taken, k)) ==>
                 (TheZone, zs[i].name) in Named(errs)
      ensures !ZoneOk(zs, i) ==> ZoneReported(errs, zs, i)
    {
      hide GoodName, Named;
      if k :| 0 <= k < |zs[i].interfaces| && !InterfaceOk(zs, i, k) {
        var c := zs[i].interfaces[k];
        if !Clash(zs[i].interfaces, taken, k) {
          var j :| 0 <= j < i && c in zs[j].interfaces;
          assert c in zs[i].interfaces && (TheZone, zs[j].name) in Named(errs);
        }
      }
    }

    method CollectZones(zs: seq<Zone>)
      requires zones == {}
      modifies this`errs, this`zones
      ensures Grew(old(errs), errs)
      ensures errs == [] <==> old(errs) == [] && (ZonesOk(zs))
      ensures errs == [] ==> "" !in zones && forall n :: n in zones <==> IsZone(zs, n)
      ensures forall n :: n in zones ==> IsZone(zs, n)
      ensures forall i :: 0 <= i < |zs| && !ZoneOk(zs, i) ==> ZoneReported(errs, zs, i)
    {
      var owner: map<string, string> := map[];
      for i := 0 to |zs|
        invariant Grew(old(errs), errs)
        invariant errs == [] <==> old(errs) == [] && (forall j :: 0 <= j < i ==> ZoneOk(zs, j))
        invariant "" !in zones
        invariant errs == [] ==> forall n :: n in zones <==> exists j :: 0 <= j < i && zs[j].name == n
        invariant errs == [] ==> forall c :: c in owner <==> exists j :: 0 <= j < i && c in zs[j].interfaces
        invariant forall n :: n in zones ==> exists j :: 0 <= j < i && zs[j].name == n
        invariant forall j :: 0 <= j < i ==> (TheZone, zs[j].name) in Named(errs) || zs[j].name in zones
        invariant forall j, c :: 0 <= j < i && c in zs[j].interfaces && c != "" ==>
                    c in owner || (TheZone, zs[j].name) in Named(errs)
        invariant forall j :: 0 <= j < i && !ZoneOk(zs, j) ==> ZoneReported(errs, zs, j)
      {
        var z := zs[i];
        ghost var ok, was, taken := ZoneOk(zs, i), errs, owner.Keys;
        var good := CheckName(TheZone, z.name);
        if !good {
          StillReported(was, errs, zs, i);
          continue;
        }
        if z.name in zones {
          Complain(TheZone, z.name, Duplicate);
          StillReported(was, errs, zs, i);
          continue;
        }
        zones := zones + {z.name};
        owner := CollectInterfaces(zs, i, owner);
        StillReported(was, errs, zs, i);
        ZoneIsReported(errs, zs, i, taken);
      }
    }

    /** Some address object of that name has that prefix. */
    static ghost predicate HasCidr(xs: seq<AddressObject>, name: string, cidr: Prefix) {
      exists j :: 0 <= j < |xs| && xs[j].name == name && xs[j].cidr == Some(cidr)
    }

    method CollectAddresses(xs: seq<AddressObject>)
      requires addresses == map[]
      modifies this`errs, this`addresses
      ensures Grew(old(errs), errs)
      ensures errs == [] <==> old(errs) == [] && (AddressesOk(xs))
      ensures errs == [] ==> "" !in addresses && forall n :: n in addresses <==> IsAddress(xs, n)
      ensures errs == [] ==> forall j :: 0 <= j < |xs| ==>
                xs[j].name in addresses && Some(addresses[xs[j].name]) == xs[j].cidr
      ensures "" !in addresses && forall n :: n in addresses ==> HasCidr(xs, n, addresses[n])
      ensures forall i :: 0 <= i < |xs| && !AddressOk(xs, i) ==> (TheAddress, xs[i].name) in Named(errs)
    {
      hide Named, GoodName, HasCidr;
      for i := 0 to |xs|
        invariant Grew(old(errs), errs)
        invariant errs == [] <==> old(errs) == [] && (forall j :: 0 <= j < i ==> AddressOk(xs, j))
        invariant forall n :: n in addresses ==> exists j :: 0 <= j < i && xs[j].name == n
        invariant errs == [] ==> forall j :: 0 <= j < i ==>
                    xs[j].name in addresses && Some(addresses[xs[j].name]) == xs[j].cidr
        invariant "" !in addresses && forall n :: n in addresses ==> HasCidr(xs, n, addresses[n])
        invariant forall j :: 0 <= j < i ==> (TheAddress, xs[j].name) in Named(errs) || xs[j].name in addresses
        invariant forall j :: 0 <= j < i && !AddressOk(xs, j) ==> (TheAddress, xs[j].name) in Named(errs)
      {
        var a := xs[i];
        ghost var ok := AddressOk(xs, i);
        var good := CheckName(TheAddress, a.name);
        if !good {
          continue;
        }
        if a.name in addresses {
          Complain(TheAddress, a.name, Duplicate);
          continue;
        }
        if a.cidr.None? {
          Complain(TheAddress, a.name, InvalidCidr);
          continue;
        }
        AnAddress(xs, i);
        addresses := addresses[a.name := a.cidr.value];
      }
    }

    static lemma AnAddress(xs: seq<AddressObject>, i: nat)
      requires i < |xs| && xs[i].cidr.Some?
      ensures HasCidr(xs, xs[i].name, xs[i].cidr.value)
    {
    }

    method CheckPorts(s: Service)
      modifies this`errs
      ensures Grew(old(errs), errs)
      ensures errs == [] <==> old(errs) == [] && (forall k :: 0 <= k < |s.ports| ==> PortOk(s.ports[k]))
      ensures !(forall k :: 0 <= k < |s.ports| ==> PortOk(s.ports[k])) ==> (TheService, s.name) in Named(errs)
    {
      for k := 0 to |s.ports|
        invariant Grew(old(errs), errs)
        invariant errs == [] <==> old(errs) == [] && (forall m :: 0 <= m < k ==> PortOk(s.ports[m]))
        invariant !(forall m :: 0 <= m < k ==> PortOk(s.ports[m])) ==> (TheService, s.name) in Named(errs)
      {
        var start, end := s.ports[k].start, s.ports[k].end;
        if start == 0 || start > 65535 {
          Complain(TheService, s.name, PortOutOfRange);
        }
        if end != 0 && (end > 65535 || end < start) {
          Complain(TheService, s.name, InvalidPortRange);
        }
      }
    }

    method CheckShape(s: Service)
      modifies this`errs
      ensures Grew(old(errs), errs)
      ensures errs == [] <==> old(errs) == [] && ShapeOk(s)
      ensures !ShapeOk(s) ==> (TheService, s.name) in Named(errs)
    {
      if s.protocol == PROTOCOL_TCP || s.protocol == PROTOCOL_UDP {
        CheckPorts(s);
      } else if s.protocol == PROTOCOL_ICMP || s.protocol == PROTOCOL_ANY {
        if |s.ports| > 0 {
          Complain(TheService, s.name, PortsNotAllowed);
        }
      } else {
        Complain(TheService, s.name, ProtocolUnset);
      }
    }

    method CollectServices(xs: seq<Service>)
      requires services == map[]
      modifies this`errs, this`services
      ensures Grew(old(errs), errs)
      ensures errs == [] <==> old(errs) == [] && (ServicesOk(xs))
      ensures errs == [] ==> forall n :: n in services <==> IsService(xs, n)
      ensures forall n :: n in services ==> n == services[n].name && services[n] in xs
      ensures forall i :: 0 <= i < |xs| && !ServiceOk(xs, i) ==> (TheService, xs[i].name) in Named(errs)
      ensures errs == [] ==> forall j :: 0 <= j < |xs| ==> xs[j].name in services && services[xs[j].name] == xs[j]
    {
      hide Named, GoodName, ShapeOk;
      for i := 0 to |xs|
        invariant Grew(old(errs), errs)
        invariant errs == [] <==> old(errs) == [] && (forall j :: 0 <= j < i ==> ServiceOk(xs, j))
        invariant errs == [] ==> forall n :: n in services <==> exists j :: 0 <= j < i && xs[j].name == n
        invariant forall n :: n in services ==> n == services[n].name && services[n] in xs
        invariant forall j :: 0 <= j < i ==> (TheService, xs[j].name) in Named(errs) || xs[j].name in services
        invariant forall j :: 0 <= j < i && !ServiceOk(xs, j) ==> (TheService, xs[j].name) in Named(errs)
        invariant errs == [] ==> forall j :: 0 <= j < i ==> xs[j].name in services && services[xs[j].name] == xs[j]
      {
        var s := xs[i];
        ghost var ok := ServiceOk(xs, i);
        var good := CheckName(TheService, s.name);
        if !good {
          continue;
        }
        if s.name in services {
          Complain(TheService, s.name, Duplicate);
          continue;
        }
        CheckShape(s);
        services := services[s.name := s];
      }
    }

    method CheckZoneRefs(kind: Subject, name: string, refs: seq<string>)
      modifies this`errs
      ensures Grew(old(errs), errs)
      ensures errs == [] <==> old(errs) == [] && (forall r :: r in refs ==> r == ANY || r in zones)
      ensures !(forall r :: r in refs ==> r == ANY || r in zones) ==> (kind, name) in Named(errs)
    {
      for k := 0 to |refs|
        invariant Grew(old(errs), errs)
        invariant errs == [] <==> old(errs) == [] && (forall m :: 0 <= m < k ==> refs[m] == ANY || refs[m] in zones)
        invariant !(forall m :: 0 <= m < k ==> refs[m] == ANY || refs[m] in zones) ==> (kind, name) in Named(errs)
      {
        if refs[k] != ANY && refs[k] !in zones {
          Complain(kind, name, UnknownZone(refs[k]));
        }
      }
    }

    method CheckAddressRefs(kind: Subject, name: string, refs: seq<string>)
      modifies this`errs
      ensures Grew(old(errs), errs)
      ensures errs == [] <==> old(errs) == [] && (forall r :: r in refs ==> r == ANY || r in addresses)
      ensures !(forall r :: r in refs ==> r == ANY || r in addresses) ==> (kind, name) in Named(errs)
    {
      for k := 0 to |refs|
        invariant Grew(old(errs), errs)
        invariant errs == [] <==> old(errs) == [] && (forall m :: 0 <= m < k ==> refs[m] == ANY || refs[m] in addresses)
        invariant !(forall m :: 0 <= m < k ==> refs[m] == ANY || refs[m] in addresses) ==> (kind, name) in Named(errs)
      {
        if refs[k] != ANY && refs[k] !in addresses {
          Complain(kind, name, UnknownAddress(refs[k]));
        }
      }
    }

    method CheckServiceRefs(kind: Subject, name: string, refs: seq<string>)
      modifies this`errs
      ensures Grew(old(errs), errs)
      ensures errs == [] <==> old(errs) == [] && (forall r :: r in refs ==> r == ANY || r in services)
      ensures !(forall r :: r in refs ==> r == ANY || r in services) ==> (kind, name) in Named(errs)
    {
      for k := 0 to |refs|
        invariant Grew(old(errs), errs)
        invariant errs == [] <==> old(errs) == [] && (forall m :: 0 <= m < k ==> refs[m] == ANY || refs[m] in services)
        invariant !(forall m :: 0 <= m < k ==> refs[m] == ANY || refs[m] in services) ==> (kind, name) in Named(errs)
      {
        if refs[k] != ANY && refs[k] !in services {
          Complain(kind, name, UnknownService(refs[k]));
        }
      }
    }

    /** The tables hold exactly the objects of p. */
    ghost predicate TablesOf(p: Policy)
      reads this`zones, this`addresses, this`services
    {
      && "" !in zones && "" !in addresses
      && (forall n :: n in zones <==> IsZone(p.zones, n))
      && (forall n :: n in addresses <==> IsAddress(p.addresses, n))
      && (forall j :: 0 <= j < |p.addresses| ==>
            p.addresses[j].name in addresses && Some(addresses[p.addresses[j].name]) == p.addresses[j].cidr)
      && (forall n :: n in services <==> IsService(p.services, n))
      && (forall j :: 0 <= j < |p.services| ==>
            p.services[j].name in services && services[p.services[j].name] == p.services[j])
    }

    /** Whatever is in the tables is in the policy: this holds even after problems. */
    ghost predicate TablesFrom(p: Policy)
      reads this`zones, this`addresses, this`services
    {
      && (forall n :: n in zones ==> IsZone(p.zones, n))
      && (forall n :: n in addresses ==> HasCidr(p.addresses, n, addresses[n]))
      && (forall n :: n in services ==> n == services[n].name && services[n] in p.services)
    }

    /** What a rule needs besides a good and new name. */
    static ghost predicate RefersWell(p: Policy, r: Rule) {
      && r.action != ACTION_UNSPECIFIED
      && ZoneRefsOk(p, r.fromZones) && ZoneRefsOk(p, r.toZones)
      && AddressRefsOk(p, r.sourceAddresses) && AddressRefsOk(p, r.destinationAddresses)
      && ServiceRefsOk(p, r.services)
    }

    method CheckRule(p: Policy, r: Rule)
      requires TablesFrom(p) && (errs == [] ==> TablesOf(p))
      modifies this`errs
      ensures Grew(old(errs), errs)
      ensures errs == [] <==> old(errs) == [] && RefersWell(p, r)
      ensures !RefersWell(p, r) ==> (TheRule, r.name) in Named(errs)
    {
      hide Named;
      if r.action == ACTION_UNSPECIFIED {
        Complain(TheRule, r.name, ActionUnset);
      }
      CheckZoneRefs(TheRule, r.name, r.fromZones);
      CheckZoneRefs(TheRule, r.name, r.toZones);
      CheckAddressRefs(TheRule, r.name, r.sourceAddresses);
      CheckAddressRefs(TheRule, r.name, r.destinationAddresses);
      CheckServiceRefs(TheRule, r.name, r.services);
    }

    method CheckRules(p: Policy)
      requires TablesFrom(p) && (errs == [] ==> TablesOf(p))
      modifies this`errs
      ensures Grew(old(errs), errs)
      ensures errs == [] <==> old(errs) == [] && (RulesOk(p))
      ensures forall i :: 0 <= i < |p.rules| && !RuleOk(p, i) ==> (TheRule, p.rules[i].name) in Named(errs)
    {
      hide Named, GoodName, TablesFrom, TablesOf, ZoneRefsOk, AddressRefsOk, ServiceRefsOk;
      var seen: set<string> := {};
      for i := 0 to |p.rules|
        invariant Grew(old(errs), errs)
        invariant errs == [] <==> old(errs) == [] && (forall j :: 0 <= j < i ==> RuleOk(p, j))
        invariant errs == [] ==> forall n :: n in seen <==> exists j :: 0 <= j < i && p.rules[j].name == n
        invariant forall j :: 0 <= j < i ==> (TheRule, p.rules[j].name) in Named(errs) || p.rules[j].name in seen
        invariant forall j :: 0 <= j < i && !RuleOk(p, j) ==> (TheRule, p.rules[j].name) in Named(errs)
      {
        var r := p.rules[i];
        ghost var ok := RuleOk(p, i);
        var good := CheckName(TheRule, r.name);
        if !good {
          continue;
        }
        if r.name in seen {
          Complain(TheRule, r.name, Duplicate);
          continue;
        }
        seen := seen + {r.name};
        CheckRule(p, r);
      }
    }

    predicate HostAddress(ref: string)
      reads this`addresses
    {
      ref in addresses && IsSingleIP(addresses[ref])
    }

    /** The shape of the entry, judged by the symbol tables alone. */
    ghost predicate SnatResolves(s: SourceNat)
      reads this`zones, this`addresses, this`services
    {
      && (s.toZone == ANY || (s.toZone != "" && s.toZone in zones))
      && (s.sourceAddress == "" || s.sourceAddress == ANY || s.sourceAddress in addresses)
      && (if s.masquerade then s.translatedAddress == ""
          else s.translatedAddress != "" && HostAddress(s.translatedAddress))
    }

    lemma SnatResolvesOnlyOk(p: Policy, s: SourceNat)
      requires TablesFrom(p) && SnatResolves(s)
      ensures SnatShapeOk(p, s)
    {
    }

    lemma SnatResolvesIffOk(p: Policy, s: SourceNat)
      requires TablesOf(p)
      ensures SnatResolves(s) <==> SnatShapeOk(p, s)
    {
    }

    method CheckSnatShape(s: SourceNat)
      modifies this`errs
      ensures Grew(old(errs), errs)
      ensures errs == [] <==> old(errs) == [] && SnatResolves(s)
      ensures !SnatResolves(s) ==> (TheSourceNat, s.name) in Named(errs)
    {
      if s.toZone == "" || (s.toZone != ANY && s.toZone !in zones) {
        Complain(TheSourceNat, s.name, UnknownZone(s.toZone));
      }
      if s.sourceAddress != "" {
        CheckAddressRefs(TheSourceNat, s.name, [s.sourceAddress]);
      }
      if s.masquerade && s.translatedAddress != "" {
        Complain(TheSourceNat, s.name, MasqueradeWithAddress);
      } else if !s.masquerade && s.translatedAddress == "" {
        Complain(TheSourceNat, s.name, NoTranslation);
      } else if s.translatedAddress != "" && !HostAddress(s.translatedAddress) {
        Complain(TheSourceNat, s.name, NotAHost(s.translatedAddress));
      }
    }

    method CheckSnatEntry(p: Policy, s: SourceNat)
      requires TablesFrom(p) && (errs == [] ==> TablesOf(p))
      modifies this`errs
      ensures Grew(old(errs), errs)
      ensures errs == [] <==> old(errs) == [] && SnatShapeOk(p, s)
      ensures !SnatShapeOk(p, s) ==> (TheSourceNat, s.name) in Named(errs)
    {
      CheckSnatShape(s);
      if SnatResolves(s) {
        SnatResolvesOnlyOk(p, s);
      }
      if TablesOf(p) {
        SnatResolvesIffOk(p, s);
      }
    }

    method CheckSnat(p: Policy)
      requires TablesFrom(p) && (errs == [] ==> TablesOf(p))
      modifies this`errs
      ensures Grew(old(errs), errs)
      ensures errs == [] <==> old(errs) == [] && (forall i :: 0 <= i < |p.snat| ==> SnatOk(p, i))
      ensures forall i :: 0 <= i < |p.snat| && !SnatOk(p, i) ==> (TheSourceNat, p.snat[i].name) in Named(errs)
    {
      hide Named, GoodName, SnatShapeOk, TablesFrom, TablesOf;
      var seen: set<string> := {};
      for i := 0 to |p.snat|
        invariant Grew(old(errs), errs)
        invariant errs == [] <==> old(errs) == [] && (forall j :: 0 <= j < i ==> SnatOk(p, j))
        invariant errs == [] ==> forall n :: n in seen <==> exists j :: 0 <= j < i && p.snat[j].name == n
        invariant forall j :: 0 <= j < i ==> (TheSourceNat, p.snat[j].name) in Named(errs) || p.snat[j].name in seen
        invariant forall j :: 0 <= j < i && !SnatOk(p, j) ==> (TheSourceNat, p.snat[j].name) in Named(errs)
      {
        var s := p.snat[i];
        ghost var ok := SnatOk(p, i);
        var good := CheckName(TheSourceNat, s.name);
        if !good {
          continue;
        }
        if s.name in seen {
          Complain(TheSourceNat, s.name, Duplicate);
          continue;
        }
        seen := seen + {s.name};
        CheckSnatEntry(p, s);
      }
    }

    /** The names of the entry, judged by the symbol tables alone. */
    ghost predicate DnatNames(d: DestinationNat)
      reads this`zones, this`services
    {
      && (d.fromZone == ANY || (d.fromZone != "" && d.fromZone in zones))
      && d.service in services
      && (services[d.service].protocol == PROTOCOL_TCP || services[d.service].protocol == PROTOCOL_UDP)
    }

    ghost predicate DnatTarget(d: DestinationNat)
      reads this`addresses
    {
      HostAddress(d.destinationAddress) && HostAddress(d.translatedAddress) && d.translatedPort <= 65535
    }

    lemma DnatResolvesOnlyOk(p: Policy, d: DestinationNat)
      requires TablesFrom(p) && DnatNames(d) && DnatTarget(d)
      ensures DnatShapeOk(p, d)
    {
      var s := services[d.service];
      var j :| 0 <= j < |p.services| && p.services[j] == s;
      assert IsPortService(p.services, d.service);
    }

    lemma DnatResolvesIffOk(p: Policy, d: DestinationNat)
      requires TablesOf(p)
      ensures DnatNames(d) && DnatTarget(d) <==> DnatShapeOk(p, d)
    {
    }

    method CheckDnatNames(d: DestinationNat)
      modifies this`errs
      ensures Grew(old(errs), errs)
      ensures errs == [] <==> old(errs) == [] && DnatNames(d)
      ensures !DnatNames(d) ==> (TheDestinationNat, d.name) in Named(errs)
    {
      if d.fromZone == "" || (d.fromZone != ANY && d.fromZone !in zones) {
        Complain(TheDestinationNat, d.name, UnknownZone(d.fromZone));
      }
      if d.service !in services {
        Complain(TheDestinationNat, d.name, UnknownService(d.service));
      } else if services[d.service].protocol != PROTOCOL_TCP && services[d.service].protocol != PROTOCOL_UDP {
        Complain(TheDestinationNat, d.name, NotTcpOrUdp(d.service));
      }
    }

    method CheckDnatTarget(d: DestinationNat)
      modifies this`errs
      ensures Grew(old(errs), errs)
      ensures errs == [] <==> old(errs) == [] && DnatTarget(d)
      ensures !DnatTarget(d) ==> (TheDestinationNat, d.name) in Named(errs)
    {
      if !HostAddress(d.destinationAddress) {
        Complain(TheDestinationNat, d.name, NotAHost(d.destinationAddress));
      }
      if !HostAddress(d.translatedAddress) {
        Complain(TheDestinationNat, d.name, NotAHost(d.translatedAddress));
      }
      if d.translatedPort > 65535 {
        Complain(TheDestinationNat, d.name, PortOutOfRange);
      }
    }

    method CheckDnatShape(p: Policy, d: DestinationNat)
      requires TablesFrom(p) && (errs == [] ==> TablesOf(p))
      modifies this`errs
      ensures Grew(old(errs), errs)
      ensures errs == [] <==> old(errs) == [] && DnatShapeOk(p, d)
      ensures !DnatShapeOk(p, d) ==> (TheDestinationNat, d.name) in Named(errs)
    {
      CheckDnatNames(d);
      CheckDnatTarget(d);
      if DnatNames(d) && DnatTarget(d) {
        DnatResolvesOnlyOk(p, d);
      }
      if TablesOf(p) {
        DnatResolvesIffOk(p, d);
      }
    }

    method CheckDnat(p: Policy)
      requires TablesFrom(p) && (errs == [] ==> TablesOf(p))
      modifies this`errs
      ensures Grew(old(errs), errs)
      ensures errs == [] <==> old(errs) == [] && (forall i :: 0 <= i < |p.dnat| ==> DnatOk(p, i))
      ensures forall i :: 0 <= i < |p.dnat| && !DnatOk(p, i) ==> (TheDestinationNat, p.dnat[i].name) in Named(errs)
    {
      hide Named, GoodName, DnatShapeOk, TablesFrom, TablesOf;
      var seen: set<string> := {};
      for i := 0 to |p.dnat|
        invariant Grew(old(errs), errs)
        invariant errs == [] <==> old(errs) == [] && (forall j :: 0 <= j < i ==> DnatOk(p, j))
        invariant errs == [] ==> forall n :: n in seen <==> exists j :: 0 <= j < i && p.dnat[j].name == n
        invariant forall j :: 0 <= j < i ==>
                    (TheDestinationNat, p.dnat[j].name) in Named(errs) || p.dnat[j].name in seen
        invariant forall j :: 0 <= j < i && !DnatOk(p, j) ==> (TheDestinationNat, p.dnat[j].name) in Named(errs)
      {
        var d := p.dnat[i];
        ghost var ok := DnatOk(p, i);
        var good := CheckName(TheDestinationNat, d.name);
        if !good {
          continue;
        }
        if d.name in seen {
          Complain(TheDestinationNat, d.name, Duplicate);
          continue;
        }
        seen := seen + {d.name};
        CheckDnatShape(p, d);
      }
    }

    method CheckRoutes(p: Policy)
      modifies this`errs
      ensures Grew(old(errs), errs)
      ensures errs == [] <==> old(errs) == [] && (RoutesOk(p))
      ensures !RoutesOk(p) ==> (TheRoute, "") in Named(errs)
    {
      for i := 0 to |p.routes|
        invariant Grew(old(errs), errs)
        invariant errs == [] <==> old(errs) == [] && (forall j :: 0 <= j < i ==> RouteOk(p.routes[j]))
        invariant (exists j :: 0 <= j < i && !RouteOk(p.routes[j])) ==> (TheRoute, "") in Named(errs)
      {
        var r := p.routes[i];
        if r.destination.None? {
          Complain(TheRoute, "", InvalidCidr);
        }
        if r.via == Absent && r.dev == "" {
          Complain(TheRoute, "", NoNextHop);
        }
        if r.via == Malformed {
          Complain(TheRoute, "", InvalidNextHop);
        }
      }
    }

    method CheckIds(p: Policy)
      modifies this`errs
      ensures Grew(old(errs), errs)
      ensures errs == [] <==> old(errs) == [] && (IdsOk(p))
      ensures !IdsOk(p) ==> exists name :: (TheIds, name) in Named(errs)
    {
      if !p.ids.enabled {
        return;
      }
      if p.ids.mode == IDS_MODE_UNSPECIFIED {
        Complain(TheIds, "", ModeUnset);
      }
      ghost var base := errs;
      for k := 0 to |p.ids.homeNetworks|
        invariant Grew(base, errs)
        invariant errs == [] <==> base == [] && forall m :: 0 <= m < k ==> p.ids.homeNetworks[m].Some?
        invariant (exists m :: 0 <= m < k && p.ids.homeNetworks[m].None?) ==> (TheIds, "") in Named(errs)
      {
        if p.ids.homeNetworks[k].None? {
          Complain(TheIds, "", InvalidCidr);
        }
      }
      ghost var base' := errs;
      for k := 0 to |p.ids.ruleFiles|
        invariant Grew(base', errs)
        invariant errs == [] <==> base' == [] && forall m :: 0 <= m < k ==> RuleFileOk(p.ids.ruleFiles[m])
        invariant forall m :: 0 <= m < k && !RuleFileOk(p.ids.ruleFiles[m]) ==>
                    (TheIds, p.ids.ruleFiles[m]) in Named(errs)
      {
        if !RuleFileOk(p.ids.ruleFiles[k]) {
          Complain(TheIds, p.ids.ruleFiles[k], NotARelativePath);
        }
      }
      if p.ids.queueNum > 65535 {
        Complain(TheIds, "", QueueOutOfRange);
      }
    }

    method CheckPeers(w: WireguardInterface)
      modifies this`errs
      ensures Grew(old(errs), errs)
      ensures errs == [] <==> old(errs) == [] && (forall k :: 0 <= k < |w.peers| ==> PeerOk(w.peers[k]))
      ensures !(forall k :: 0 <= k < |w.peers| ==> PeerOk(w.peers[k])) ==> (TheWireguard, w.name) in Named(errs)
    {
      hide Named;
      for k := 0 to |w.peers|
        invariant Grew(old(errs), errs)
        invariant errs == [] <==> old(errs) == [] && (forall m :: 0 <= m < k ==> PeerOk(w.peers[m]))
        invariant !(forall m :: 0 <= m < k ==> PeerOk(w.peers[m])) ==> (TheWireguard, w.name) in Named(errs)
      {
        var q := w.peers[k];
        if !q.keyOk {
          Complain(TheWireguard, w.name, InvalidKey);
        }
        if |q.allowedIps| == 0 {
          Complain(TheWireguard, w.name, NoAllowedIps);
        }
        ghost var base := errs;
        for n := 0 to |q.allowedIps|
          invariant Grew(base, errs)
          invariant errs == [] <==> base == [] && forall m :: 0 <= m < n ==> q.allowedIps[m].Some?
          invariant (exists m :: 0 <= m < n && q.allowedIps[m].None?) ==> (TheWireguard, w.name) in Named(errs)
        {
          if q.allowedIps[n].None? {
            Complain(TheWireguard, w.name, InvalidCidr);
          }
        }
        if q.endpoint != "" && !q.endpointOk {
          Complain(TheWireguard, w.name, InvalidEndpoint);
        }
        if q.keepalive > 65535 {
          Complain(TheWireguard, w.name, KeepaliveOutOfRange);
        }
      }
    }

    method CheckWireguard(p: Policy)
      modifies this`errs
      ensures Grew(old(errs), errs)
      ensures errs == [] <==> old(errs) == [] && (TunnelsOk(p.wireguard))
      ensures forall i :: 0 <= i < |p.wireguard| && !WireguardOk(p.wireguard, i) ==>
                (TheWireguard, p.wireguard[i].name) in Named(errs)
    {
      hide Named, DeviceNameOk, PeerOk;
      var seen: set<string> := {};
      for i := 0 to |p.wireguard|
        invariant Grew(old(errs), errs)
        invariant errs == [] <==> old(errs) == [] && (forall j :: 0 <= j < i ==> WireguardOk(p.wireguard, j))
        invariant errs == [] ==> forall n :: n in seen <==> exists j :: 0 <= j < i && p.wireguard[j].name == n
        invariant forall j :: 0 <= j < i ==>
                    (TheWireguard, p.wireguard[j].name) in Named(errs) || p.wireguard[j].name in seen
        invariant forall j :: 0 <= j < i && !WireguardOk(p.wireguard, j) ==>
                    (TheWireguard, p.wireguard[j].name) in Named(errs)
      {
        var w := p.wireguard[i];
        ghost var ok := WireguardOk(p.wireguard, i);
        if !DeviceNameOk(w.name) {
          Complain(TheWireguard, w.name, InvalidName);
          continue;
        }
        if w.name in seen {
          Complain(TheWireguard, w.name, Duplicate);
          continue;
        }
        seen := seen + {w.name};
        if w.address.None? {
          Complain(TheWireguard, w.name, InvalidCidr);
        }
        if w.listenPort > 65535 {
          Complain(TheWireguard, w.name, PortOutOfRange);
        }
        if w.privateKeyFile == "" || w.privateKeyFile[0] != '/' {
          Complain(TheWireguard, w.name, NotAnAbsolutePath);
        }
        CheckPeers(w);
      }
    }

    method CheckIntel(n: Intel)
      modifies this`errs
      ensures Grew(old(errs), errs)
      ensures errs == [] <==> old(errs) == [] && (IntelOk(n))
      ensures forall i :: 0 <= i < |n.feeds| && !FeedOk(n, i) ==> (TheFeed, n.feeds[i].name) in Named(errs)
      ensures forall i :: 0 <= i < |n.customFeeds| && !CustomFeedOk(n, i) ==>
                (TheFeed, n.customFeeds[i].name) in Named(errs)
      ensures 0 < n.refreshIntervalMinutes < 5 ==> (TheFeed, "") in Named(errs)
    {
      hide Named, GoodName;
      var seen: set<string> := {};
      for i := 0 to |n.feeds|
        invariant Grew(old(errs), errs)
        invariant errs == [] <==> old(errs) == [] && (forall j :: 0 <= j < i ==> FeedOk(n, j))
        invariant errs == [] ==> forall s :: s in seen <==> exists j :: 0 <= j < i && n.feeds[j].name == s
        invariant forall j :: 0 <= j < i ==> (TheFeed, n.feeds[j].name) in Named(errs) || n.feeds[j].name in seen
        invariant forall j :: 0 <= j < i && !FeedOk(n, j) ==> (TheFeed, n.feeds[j].name) in Named(errs)
        invariant forall s :: s in seen ==> Registry.Lookup(s).Some?
      {
        var fe := n.feeds[i];
        ghost var ok := FeedOk(n, i);
        var f := Registry.Lookup(fe.name);
        if f.None? {
          Complain(TheFeed, fe.name, UnknownFeed);
          continue;
        }
        if fe.name in seen {
          Complain(TheFeed, fe.name, Duplicate);
          continue;
        }
        seen := seen + {fe.name};
        if !fe.enabled {
          continue;
        }
        if !Registry.MayEnable(f.value, n.commercialUse) {
          Complain(TheFeed, fe.name, LicenceForbids);
        }
      }
      ghost var base, feeds := errs, seen;
      for i := 0 to |n.customFeeds|
        invariant Grew(base, errs)
        invariant errs == [] <==> base == [] && forall j :: 0 <= j < i ==> CustomFeedOk(n, j)
        invariant errs == [] ==>
                    forall s :: s in seen <==> s in feeds || exists j :: 0 <= j < i && n.customFeeds[j].name == s
        invariant forall j :: 0 <= j < i ==>
                    (TheFeed, n.customFeeds[j].name) in Named(errs) || n.customFeeds[j].name in seen
        invariant forall j :: 0 <= j < i && !CustomFeedOk(n, j) ==> (TheFeed, n.customFeeds[j].name) in Named(errs)
      {
        var c := n.customFeeds[i];
        ghost var ok := CustomFeedOk(n, i);
        var good := CheckName(TheFeed, c.name);
        if !good {
          continue;
        }
        if Registry.Lookup(c.name).Some? || c.name in seen {
          Complain(TheFeed, c.name, Duplicate);
          continue;
        }
        seen := seen + {c.name};
        if !c.urlOk {
          Complain(TheFeed, c.name, InvalidUrl);
        }
      }
      if n.refreshIntervalMinutes != 0 && n.refreshIntervalMinutes < 5 {
        Complain(TheFeed, "", RefreshTooShort);
      }
    }

    method CheckNetwork(n: Network)
      modifies this`errs
      ensures Grew(old(errs), errs)
      ensures errs == [] <==> old(errs) == [] && (NetworkOk(n))
      ensures n.mtu != 0 && !(MIN_MTU <= n.mtu <= MAX_MTU) ==> (TheNetwork, "") in Named(errs)
      ensures forall i :: 0 <= i < |n.interfaceMtus| && !InterfaceMtuOk(n, i) ==>
                (TheNetwork, n.interfaceMtus[i].name) in Named(errs)
    {
      if n.mtu != 0 && (n.mtu < MIN_MTU || n.mtu > MAX_MTU) {
        Complain(TheNetwork, "", MtuOutOfRange);
      }
      ghost var base := errs;
      var seen: set<string> := {};
      for i := 0 to |n.interfaceMtus|
        invariant Grew(base, errs)
        invariant errs == [] <==> base == [] && forall j :: 0 <= j < i ==> InterfaceMtuOk(n, j)
        invariant errs == [] ==> forall s :: s in seen <==> exists j :: 0 <= j < i && n.interfaceMtus[j].name == s
        invariant forall j :: 0 <= j < i ==>
                    (TheNetwork, n.interfaceMtus[j].name) in Named(errs) || n.interfaceMtus[j].name in seen
        invariant forall j :: 0 <= j < i && !InterfaceMtuOk(n, j) ==>
                    (TheNetwork, n.interfaceMtus[j].name) in Named(errs)
      {
        var m := n.interfaceMtus[i];
        ghost var ok := InterfaceMtuOk(n, i);
        if m.name == "" {
          Complain(TheNetwork, "", EmptyInterface);
          continue;
        }
        if m.name in seen {
          Complain(TheNetwork, m.name, Duplicate);
          continue;
        }
        seen := seen + {m.name};
        if m.mtu < MIN_MTU || m.mtu > MAX_MTU {
          Complain(TheNetwork, m.name, MtuOutOfRange);
        }
      }
    }

    method CollectObjects(p: Policy)
      requires errs == [] && zones == {} && addresses == map[] && services == map[]
      modifies this
      ensures TablesFrom(p) && (errs == [] ==> TablesOf(p))
      ensures errs == [] <==> ZonesOk(p.zones) && AddressesOk(p.addresses) && ServicesOk(p.services)
      ensures forall i :: 0 <= i < |p.zones| && !ZoneOk(p.zones, i) ==> ZoneReported(errs, p.zones, i)
      ensures forall i :: 0 <= i < |p.addresses| && !AddressOk(p.addresses, i) ==>
                (TheAddress, p.addresses[i].name) in Named(errs)
      ensures forall i :: 0 <= i < |p.services| && !ServiceOk(p.services, i) ==>
                (TheService, p.services[i].name) in Named(errs)
    {
      hide Named, ZoneOk, AddressOk, ServiceOk, ZoneReported;
      CollectZones(p.zones);
      ghost var was := errs;
      CollectAddresses(p.addresses);
      CollectServices(p.services);
      StillReported(was, errs, p.zones, |p.zones|);
    }

    /** The objects, and the rules and translations that refer to them. */
    method CheckObjects(p: Policy)
      requires errs == [] && zones == {} && addresses == map[] && services == map[]
      modifies this
      ensures errs == [] <==>
              && ZonesOk(p.zones) && AddressesOk(p.addresses) && ServicesOk(p.services)
              && RulesOk(p) && NatOk(p)
      ensures ObjectsReported(errs, p)
    {
      hide Named, ZoneOk, AddressOk, ServiceOk, RuleOk, SnatOk, DnatOk, ZoneReported, TablesFrom, TablesOf;
      CollectObjects(p);
      ghost var was := errs;
      CheckRules(p);
      CheckSnat(p);
      CheckDnat(p);
      StillReported(was, errs, p.zones, |p.zones|);
    }

    method ReportOthers(problems: seq<string>)
      modifies this`errs
      ensures Grew(old(errs), errs)
      ensures errs == [] <==> old(errs) == [] && problems == []
      ensures forall k :: 0 <= k < |problems| ==> (AnotherSection, problems[k]) in Named(errs)
    {
      for k := 0 to |problems|
        invariant Grew(old(errs), errs)
        invariant errs == [] <==> old(errs) == [] && k == 0
        invariant forall m :: 0 <= m < k ==> (AnotherSection, problems[m]) in Named(errs)
      {
        Complain(AnotherSection, problems[k], Reported);
      }
    }

    /** The sections that stand by themselves. */
    method CheckSections(p: Policy)
      modifies this`errs
      ensures Grew(old(errs), errs)
      ensures errs == [] <==>
              && old(errs) == [] && RoutesOk(p) && IdsOk(p) && TunnelsOk(p.wireguard)
              && (p.intel.Some? ==> IntelOk(p.intel.value)) && (p.network.Some? ==> NetworkOk(p.network.value))
              && p.other.problems == []
      ensures SectionsReported(errs, p)
    {
      hide Named, RouteOk, IdsOk, WireguardOk, FeedOk, CustomFeedOk, InterfaceMtuOk;
      CheckRoutes(p);
      CheckIds(p);
      CheckWireguard(p);
      if p.intel.Some? {
        CheckIntel(p.intel.value);
      }
      if p.network.Some? {
        CheckNetwork(p.network.value);
      }
      ReportOthers(p.other.problems);
    }
  }

  /**
    Problems are reported exactly for the policies that are not well-formed, and the report does not
    stop at the first: every malformed entry is named in it. None is the nil policy.
   */
  method Validate(candidate: Option<Policy>) returns (errs: seq<Problem>)
    ensures errs == [] <==> candidate.Some? && WellFormed(candidate.value)
    ensures candidate.Some? ==> ObjectsReported(errs, candidate.value) && SectionsReported(errs, candidate.value)
  {
    hide ObjectsReported, SectionsReported, Named;
    if candidate.None? {
      return [Problem(ThePolicy, "", Missing)];
    }
    var p := candidate.value;
    var v := new Validator();
    v.CheckObjects(p);
    ghost var was := v.errs;
    v.CheckSections(p);
    ObjectsStillReported(was, v.errs, p);
    return v.errs;
  }
}
