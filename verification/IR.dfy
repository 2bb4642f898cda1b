/** The resolved form of a policy that the renderers consume. An empty list means "match any". */
module IntermediateForm {
  import opened Basics
  import opened Net
  import opened PolicyModel

  type uint16 = x: int | 0 <= x < 0x1_0000

  datatype Proto = ProtoTCP | ProtoUDP | ProtoICMP | ProtoAny

  /** Inclusive on both ends. */
  datatype PortRange = PortRange(start: uint16, end: uint16)

  datatype ServiceMatch = ServiceMatch(proto: Proto, ports: seq<PortRange>)

  datatype RuleAction = ActionAllow | ActionDeny | ActionReject

  datatype RuleIR = RuleIR(name: string, fromIfaces: seq<string>, toIfaces: seq<string>,
                           srcPrefixes: seq<Prefix>, dstPrefixes: seq<Prefix>,
                           services: seq<ServiceMatch>, action: RuleAction)

  /** `translateTo` is meaningful only when `masquerade` is off. */
  datatype SnatIR = SnatIR(name: string, outIfaces: seq<string>, srcPrefix: Option<Prefix>,
                           masquerade: bool, translateTo: Option<Addr>)

  /** `toPort == 0` keeps the original port. */
  datatype DnatIR = DnatIR(name: string, inIfaces: seq<string>, proto: Proto, ports: seq<PortRange>,
                           matchDst: Addr, translateTo: Addr, toPort: uint16)

  datatype RouteIR = RouteIR(destination: Prefix, via: Option<Addr>, dev: string, metric: uint32)

  datatype IdsIR = IdsIR(prevent: bool, interfaces: seq<string>, homeNets: seq<Prefix>,
                         ruleFiles: seq<string>, queueNum: uint16)

  datatype RoutingIR = RoutingIR(bgp: bool, ospf: bool)

  datatype WireguardPeerIR = WireguardPeerIR(publicKey: string, endpoint: string,
                                             allowedIps: seq<Prefix>, keepalive: uint16)

  datatype WireguardIR = WireguardIR(name: string, address: Prefix, listenPort: uint16,
                                     privateKeyFile: string, peers: seq<WireguardPeerIR>)

  datatype LinkIR = LinkIR(ifc: string, mtu: uint32)

  datatype NetworkIR = NetworkIR(links: seq<LinkIR>, clampMss: bool, offloadOff: seq<string>, maxMtu: uint32)

  datatype IR = IR(rules: seq<RuleIR>, snat: seq<SnatIR>, dnat: seq<DnatIR>, routes: seq<RouteIR>,
                   ids: Option<IdsIR>, routing: Option<RoutingIR>, wireguard: seq<WireguardIR>,
                   intel: bool, network: Option<NetworkIR>)
}
