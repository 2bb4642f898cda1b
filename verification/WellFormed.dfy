/**
  When a policy is well-formed, said entry by entry: an entry may look at the entries before it
  (names and interfaces must be new) and at the objects it refers to.
 */
module WellFormedness {
  import opened Net
  import opened PolicyModel
  import Registry

  // ---- names ----

  predicate IsAlnum(c: char) {
    'a' <= c <= 'z' || '0' <= c <= '9'
  }

  /** ^[a-z0-9]([a-z0-9_-]{0,62}[a-z0-9])?$ */
  predicate MatchesNameRE(s: string) {
    && 1 <= |s| <= 64
    && IsAlnum(s[0]) && IsAlnum(s[|s| - 1])
    && forall i :: 0 <= i < |s| ==> IsAlnum(s[i]) || s[i] == '_' || s[i] == '-'
  }

  predicate GoodName(s: string) {
    s != "" && s != ANY && MatchesNameRE(s)
  }

  // ---- references ----

  ghost predicate IsZone(zs: seq<Zone>, name: string) {
    exists j :: 0 <= j < |zs| && zs[j].name == name
  }

  ghost predicate IsAddress(xs: seq<AddressObject>, name: string) {
    exists j :: 0 <= j < |xs| && xs[j].name == name
  }

  ghost predicate IsHost(xs: seq<AddressObject>, name: string) {
    exists j :: 0 <= j < |xs| && xs[j].name == name && xs[j].cidr.Some? && IsSingleIP(xs[j].cidr.value)
  }

  ghost predicate IsService(xs: seq<Service>, name: string) {
    exists j :: 0 <= j < |xs| && xs[j].name == name
  }

  ghost predicate IsPortService(xs: seq<Service>, name: string) {
    exists j ::
      0 <= j < |xs| && xs[j].name == name && (xs[j].protocol == PROTOCOL_TCP || xs[j].protocol == PROTOCOL_UDP)
  }

  ghost predicate ZoneRefsOk(p: Policy, refs: seq<string>) {
    forall r :: r in refs ==> r == ANY || IsZone(p.zones, r)
  }

  ghost predicate AddressRefsOk(p: Policy, refs: seq<string>) {
    forall r :: r in refs ==> r == ANY || IsAddress(p.addresses, r)
  }

  ghost predicate ServiceRefsOk(p: Policy, refs: seq<string>) {
    forall r :: r in refs ==> r == ANY || IsService(p.services, r)
  }

  // ---- sections ----

  ghost predicate InterfaceOk(zs: seq<Zone>, i: nat, k: nat)
    requires i < |zs| && k < |zs[i].interfaces|
  {
    var ifc := zs[i].interfaces[k];
    && ifc != ""
    && ifc !in zs[i].interfaces[..k]
    && forall j :: 0 <= j < i ==> ifc !in zs[j].interfaces
  }

  ghost predicate ZoneOk(zs: seq<Zone>, i: nat)
    requires i < |zs|
  {
    && GoodName(zs[i].name)
    && (forall j :: 0 <= j < i ==> zs[j].name != zs[i].name)
    && forall k :: 0 <= k < |zs[i].interfaces| ==> InterfaceOk(zs, i, k)
  }

  ghost predicate ZonesOk(zs: seq<Zone>) {
    forall i :: 0 <= i < |zs| ==> ZoneOk(zs, i)
  }

  ghost predicate AddressOk(xs: seq<AddressObject>, i: nat)
    requires i < |xs|
  {
    && GoodName(xs[i].name)
    && (forall j :: 0 <= j < i ==> xs[j].name != xs[i].name)
    && xs[i].cidr.Some?
  }

  ghost predicate AddressesOk(xs: seq<AddressObject>) {
    forall i :: 0 <= i < |xs| ==> AddressOk(xs, i)
  }

  predicate PortOk(p: PortSpec) {
    && 1 <= p.start <= 65535
    && (p.end == 0 || p.start <= p.end <= 65535)
  }

  ghost predicate ShapeOk(s: Service) {
    || ((s.protocol == PROTOCOL_TCP || s.protocol == PROTOCOL_UDP)
        && forall k :: 0 <= k < |s.ports| ==> PortOk(s.ports[k]))
    || ((s.protocol == PROTOCOL_ICMP || s.protocol == PROTOCOL_ANY) && s.ports == [])
  }

  ghost predicate ServiceOk(xs: seq<Service>, i: nat)
    requires i < |xs|
  {
    && GoodName(xs[i].name)
    && (forall j :: 0 <= j < i ==> xs[j].name != xs[i].name)
    && ShapeOk(xs[i])
  }

  ghost predicate ServicesOk(xs: seq<Service>) {
    forall i :: 0 <= i < |xs| ==> ServiceOk(xs, i)
  }

  ghost predicate RuleOk(p: Policy, i: nat)
    requires i < |p.rules|
  {
    var r := p.rules[i];
    && GoodName(r.name)
    && (forall j :: 0 <= j < i ==> p.rules[j].name != r.name)
    && r.action != ACTION_UNSPECIFIED
    && ZoneRefsOk(p, r.fromZones) && ZoneRefsOk(p, r.toZones)
    && AddressRefsOk(p, r.sourceAddresses) && AddressRefsOk(p, r.destinationAddresses)
    && ServiceRefsOk(p, r.services)
  }

  ghost predicate RulesOk(p: Policy) {
    forall i :: 0 <= i < |p.rules| ==> RuleOk(p, i)
  }

  ghost predicate SnatShapeOk(p: Policy, s: SourceNat) {
    && (s.toZone == ANY || IsZone(p.zones, s.toZone))
    && (s.sourceAddress == "" || s.sourceAddress == ANY || IsAddress(p.addresses, s.sourceAddress))
    && (if s.masquerade then s.translatedAddress == "" else IsHost(p.addresses, s.translatedAddress))
  }

  ghost predicate SnatOk(p: Policy, i: nat)
    requires i < |p.snat|
  {
    && GoodName(p.snat[i].name)
    && (forall j :: 0 <= j < i ==> p.snat[j].name != p.snat[i].name)
    && SnatShapeOk(p, p.snat[i])
  }

  ghost predicate DnatShapeOk(p: Policy, d: DestinationNat) {
    && (d.fromZone == ANY || IsZone(p.zones, d.fromZone))
    && IsPortService(p.services, d.service)
    && IsHost(p.addresses, d.destinationAddress)
    && IsHost(p.addresses, d.translatedAddress)
    && d.translatedPort <= 65535
  }

  ghost predicate DnatOk(p: Policy, i: nat)
    requires i < |p.dnat|
  {
    && GoodName(p.dnat[i].name)
    && (forall j :: 0 <= j < i ==> p.dnat[j].name != p.dnat[i].name)
    && DnatShapeOk(p, p.dnat[i])
  }

  ghost predicate NatOk(p: Policy) {
    && (forall i :: 0 <= i < |p.snat| ==> SnatOk(p, i))
    && (forall i :: 0 <= i < |p.dnat| ==> DnatOk(p, i))
  }

  predicate RouteOk(r: StaticRoute) {
    && r.destination.Some?
    && !r.via.Malformed?
    && (r.via.Hop? || r.dev != "")
  }

  ghost predicate RoutesOk(p: Policy) {
    forall i :: 0 <= i < |p.routes| ==> RouteOk(p.routes[i])
  }

  /** A relative path that stays inside the rules directory. */
  predicate RuleFileOk(f: string) {
    && f != "" && f[0] != '/'
    && forall i :: 0 <= i < |f| - 1 ==> !(f[i] == '.' && f[i + 1] == '.')
  }

  ghost predicate IdsOk(p: Policy) {
    p.ids.enabled ==>
      && p.ids.mode != IDS_MODE_UNSPECIFIED
      && (forall k :: 0 <= k < |p.ids.homeNetworks| ==> p.ids.homeNetworks[k].Some?)
      && (forall k :: 0 <= k < |p.ids.ruleFiles| ==> RuleFileOk(p.ids.ruleFiles[k]))
      && p.ids.queueNum <= 65535
  }

  predicate PeerOk(q: WireguardPeer) {
    && q.keyOk
    && q.allowedIps != [] && (forall k :: 0 <= k < |q.allowedIps| ==> q.allowedIps[k].Some?)
    && (q.endpoint == "" || q.endpointOk)
    && q.keepalive <= 65535
  }

  predicate DeviceNameOk(s: string) {
    && 1 <= |s| <= 15
    && forall i :: 0 <= i < |s| ==> s[i] != ' ' && s[i] != '/' && s[i] != '\t'
  }

  ghost predicate WireguardOk(ws: seq<WireguardInterface>, i: nat)
    requires i < |ws|
  {
    var w := ws[i];
    && DeviceNameOk(w.name)
    && (forall j :: 0 <= j < i ==> ws[j].name != w.name)
    && w.address.Some?
    && w.listenPort <= 65535
    && w.privateKeyFile != "" && w.privateKeyFile[0] == '/'
    && forall k :: 0 <= k < |w.peers| ==> PeerOk(w.peers[k])
  }

  ghost predicate TunnelsOk(ws: seq<WireguardInterface>) {
    forall i :: 0 <= i < |ws| ==> WireguardOk(ws, i)
  }

  ghost predicate FeedOk(n: Intel, i: nat)
    requires i < |n.feeds|
  {
    var f := Registry.Lookup(n.feeds[i].name);
    && f.Some?
    && (forall j :: 0 <= j < i ==> n.feeds[j].name != n.feeds[i].name)
    && (n.feeds[i].enabled ==> Registry.MayEnable(f.value, n.commercialUse))
  }

  ghost predicate CustomFeedOk(n: Intel, i: nat)
    requires i < |n.customFeeds|
  {
    var c := n.customFeeds[i];
    && GoodName(c.name)
    && Registry.Lookup(c.name).None?
    && (forall j :: 0 <= j < i ==> n.customFeeds[j].name != c.name)
    && c.urlOk
  }

  ghost predicate IntelOk(n: Intel) {
    && (forall i :: 0 <= i < |n.feeds| ==> FeedOk(n, i))
    && (forall i :: 0 <= i < |n.customFeeds| ==> CustomFeedOk(n, i))
    && (n.refreshIntervalMinutes == 0 || n.refreshIntervalMinutes >= 5)
  }

  // The IPv6 minimum (section 5 of RFC 8200) to the common jumbo-frame maximum.
  const MIN_MTU := 1280
  const MAX_MTU := 9600

  ghost predicate InterfaceMtuOk(n: Network, i: nat)
    requires i < |n.interfaceMtus|
  {
    var m := n.interfaceMtus[i];
    && m.name != ""
    && (forall j :: 0 <= j < i ==> n.interfaceMtus[j].name != m.name)
    && MIN_MTU <= m.mtu <= MAX_MTU
  }

  ghost predicate NetworkOk(n: Network) {
    && (n.mtu == 0 || MIN_MTU <= n.mtu <= MAX_MTU)
    && forall i :: 0 <= i < |n.interfaceMtus| ==> InterfaceMtuOk(n, i)
  }

  ghost predicate WellFormed(p: Policy) {
    && ZonesOk(p.zones) && AddressesOk(p.addresses) && ServicesOk(p.services)
    && RulesOk(p) && NatOk(p) && RoutesOk(p) && IdsOk(p) && TunnelsOk(p.wireguard)
    && (p.intel.Some? ==> IntelOk(p.intel.value))
    && (p.network.Some? ==> NetworkOk(p.network.value))
    && p.other.problems == []
  }

  /** The policy of a fresh node is well-formed. */
  lemma EmptyPolicyWellFormed()
    ensures WellFormed(EMPTY_POLICY)
  {
  }
}
