/**
  What a policy means, read off the names an operator wrote: no symbol tables, no interfaces
  lists, no families. This is the reference the compiled ruleset is compared with.
 */
module PolicySemantics {
  import opened Net
  import opened PolicyModel

  datatype Decision = Allow | Deny | Refuse

  /** An empty list and the word "any" are both wildcards. */
  predicate Wild(refs: seq<string>) {
    refs == [] || ANY in refs
  }

  predicate InNamedZone(zones: seq<Zone>, refs: seq<string>, ifc: string) {
    exists z :: z in zones && z.name in refs && ifc in z.interfaces
  }

  predicate ZonesMatch(zones: seq<Zone>, refs: seq<string>, ifc: string) {
    Wild(refs) || InNamedZone(zones, refs, ifc)
  }

  predicate Covers(a: AddressObject, addr: Addr) {
    a.cidr.Some? && Contains(a.cidr.value, addr)
  }

  predicate AddressesMatch(objects: seq<AddressObject>, refs: seq<string>, addr: Addr) {
    Wild(refs) || exists a :: a in objects && a.name in refs && Covers(a, addr)
  }

  predicate PortMatches(p: PortSpec, port: nat) {
    if p.end == 0 then port == p.start else p.start <= port <= p.end
  }

  predicate ServiceMatches(s: Service, pk: Packet) {
    if s.protocol == PROTOCOL_TCP then
      pk.proto == TCP && (s.ports == [] || exists p :: p in s.ports && PortMatches(p, pk.dport))
    else if s.protocol == PROTOCOL_UDP then
      pk.proto == UDP && (s.ports == [] || exists p :: p in s.ports && PortMatches(p, pk.dport))
    else if s.protocol == PROTOCOL_ICMP then
      pk.proto == ICMP || pk.proto == ICMPV6
    else
      s.protocol == PROTOCOL_ANY
  }

  predicate ServicesMatch(services: seq<Service>, refs: seq<string>, pk: Packet) {
    Wild(refs) || exists s :: s in services && s.name in refs && ServiceMatches(s, pk)
  }

  predicate RuleMatches(p: Policy, r: Rule, pk: Packet) {
    && ZonesMatch(p.zones, r.fromZones, pk.iif)
    && ZonesMatch(p.zones, r.toZones, pk.oif)
    && AddressesMatch(p.addresses, r.sourceAddresses, pk.src)
    && AddressesMatch(p.addresses, r.destinationAddresses, pk.dst)
    && ServicesMatch(p.services, r.services, pk)
  }

  function DecisionOf(action: int): Decision {
    if action == ACTION_ALLOW then Allow else if action == ACTION_REJECT then Refuse else Deny
  }

  /** Rules in list order, the first enabled one that matches wins, and no match is a denial. */
  function FirstMatch(p: Policy, rules: seq<Rule>, pk: Packet): Decision {
    if rules == [] then Deny
    else if !rules[0].disabled && RuleMatches(p, rules[0], pk) then DecisionOf(rules[0].action)
    else FirstMatch(p, rules[1..], pk)
  }

  predicate IntelOn(p: Policy) {
    && p.intel.Some?
    && (p.intel.value.customFeeds != [] || exists f :: f in p.intel.value.feeds && f.enabled)
  }

  predicate Blocked(p: Policy, b: Blocklist, pk: Packet) {
    IntelOn(p) && (Listed(b, pk.src) || Listed(b, pk.dst))
  }

  /** The whole decision on a forwarded packet. */
  function Decide(p: Policy, b: Blocklist, pk: Packet): Decision {
    if pk.ct == Established || pk.ct == Related then Allow
    else if pk.ct == Invalid then Deny
    else if Blocked(p, b, pk) then Deny
    else FirstMatch(p, p.rules, pk)
  }

  // ---- network address translation ----

  datatype Rewrite =
    | Untouched
    | NewDestination(dst: Addr, port: nat)
    | NewSource(src: Addr)
    | Masqueraded

  predicate ZoneMatches(zones: seq<Zone>, ref: string, ifc: string) {
    ZonesMatch(zones, [ref], ifc)
  }

  /** `ref` names a host object, and `a` is that host. */
  predicate NamesHost(p: Policy, ref: string, a: Addr) {
    exists o :: o in p.addresses && o.name == ref && o.cidr.Some? && o.cidr.value.addr == a
  }

  /** The entry selects the packet and `to` is where it sends it; a translation cannot change the family. */
  predicate DnatSelects(p: Policy, d: DestinationNat, pk: Packet, to: Addr) {
    && ZoneMatches(p.zones, d.fromZone, pk.iif)
    && NamesHost(p, d.destinationAddress, pk.dst)
    && (exists s :: s in p.services && s.name == d.service && ServiceMatches(s, pk))
    && NamesHost(p, d.translatedAddress, to)
    && to.family == FamilyOf(pk)
  }

  predicate SnatSelects(p: Policy, s: SourceNat, pk: Packet) {
    && ZoneMatches(p.zones, s.toZone, pk.oif)
    && (s.sourceAddress == "" || AddressesMatch(p.addresses, [s.sourceAddress], pk.src))
  }

  /** How destination NAT may treat a packet: by its first entry that selects it. */
  ghost predicate DnatOutcome(p: Policy, entries: seq<DestinationNat>, pk: Packet, out: Rewrite) {
    if entries == [] then out == Untouched
    else if exists to :: DnatSelects(p, entries[0], pk, to) then
      exists to :: DnatSelects(p, entries[0], pk, to)
        && out == NewDestination(to, if entries[0].translatedPort == 0 then pk.dport else entries[0].translatedPort)
    else DnatOutcome(p, entries[1..], pk, out)
  }

  /** How source NAT may treat a packet: by its first entry that selects it and can translate its family. */
  ghost predicate SnatOutcome(p: Policy, entries: seq<SourceNat>, pk: Packet, out: Rewrite) {
    if entries == [] then out == Untouched
    else if SnatSelects(p, entries[0], pk) && entries[0].masquerade then out == Masqueraded
    else if SnatSelects(p, entries[0], pk)
            && exists to :: NamesHost(p, entries[0].translatedAddress, to) && to.family == FamilyOf(pk) then
      exists to :: NamesHost(p, entries[0].translatedAddress, to) && to.family == FamilyOf(pk) && out == NewSource(to)
    else SnatOutcome(p, entries[1..], pk, out)
  }
}
