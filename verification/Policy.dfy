/** The declarative policy an operator writes, field by field. */
module PolicyModel {
  import opened Basics
  import opened Net

  /** The reserved wildcard reference. */
  const ANY := "any"

  type uint32 = x: int | 0 <= x < 0x1_0000_0000

  // Enumerations travel as 32-bit integers, so a value outside the declared ones can arrive.
  const PROTOCOL_TCP := 1
  const PROTOCOL_UDP := 2
  const PROTOCOL_ICMP := 3
  const PROTOCOL_ANY := 4

  const ACTION_UNSPECIFIED := 0
  const ACTION_ALLOW := 1
  const ACTION_DENY := 2
  const ACTION_REJECT := 3

  const IDS_MODE_UNSPECIFIED := 0
  const IDS_MODE_DETECT := 1
  const IDS_MODE_PREVENT := 2

  datatype Zone = Zone(name: string, interfaces: seq<string>)

  /** `cidr` is what the prefix parser makes of the text: None when it refuses it. */
  datatype AddressObject = AddressObject(name: string, cidr: Option<Prefix>)

  /** `end == 0` stands for a single port. */
  datatype PortSpec = PortSpec(start: uint32, end: uint32)

  datatype Service = Service(name: string, protocol: int, ports: seq<PortSpec>)

  datatype Rule = Rule(name: string,
                       fromZones: seq<string>, toZones: seq<string>,
                       sourceAddresses: seq<string>, destinationAddresses: seq<string>,
                       services: seq<string>,
                       action: int, disabled: bool)

  datatype SourceNat = SourceNat(name: string, toZone: string, sourceAddress: string,
                                 masquerade: bool, translatedAddress: string)

  datatype DestinationNat = DestinationNat(name: string, fromZone: string, service: string,
                                           destinationAddress: string, translatedAddress: string,
                                           translatedPort: uint32)

  datatype NextHop = Absent | Malformed | Hop(addr: Addr)

  datatype StaticRoute = StaticRoute(destination: Option<Prefix>, via: NextHop, dev: string, metric: uint32)

  datatype Ids = Ids(enabled: bool, mode: int, monitorInterfaces: seq<string>,
                     homeNetworks: seq<Option<Prefix>>, ruleFiles: seq<string>, queueNum: uint32)

  datatype FeedEnable = FeedEnable(name: string, enabled: bool)

  /** `urlOk` is the URL parser's answer to "is this http(s) with a host?". */
  datatype CustomFeed = CustomFeed(name: string, urlOk: bool)

  datatype Intel = Intel(feeds: seq<FeedEnable>, customFeeds: seq<CustomFeed>,
                         commercialUse: bool, refreshIntervalMinutes: uint32)

  datatype InterfaceMtu = InterfaceMtu(name: string, mtu: uint32)

  datatype Network = Network(mtu: uint32, interfaceMtus: seq<InterfaceMtu>,
                             clampMss: bool, manageNicOffloads: bool)

  /** `keyOk` and `endpointOk` are the base64 and host:port parsers' answers. */
  datatype WireguardPeer = WireguardPeer(publicKey: string, keyOk: bool,
                                         endpoint: string, endpointOk: bool,
                                         allowedIps: seq<Option<Prefix>>, keepalive: uint32)

  datatype WireguardInterface = WireguardInterface(name: string, address: Option<Prefix>, listenPort: uint32,
                                                   privateKeyFile: string, peers: seq<WireguardPeer>)

  /** The sections this model does not open: what their checks complain about, and which protocols are on. */
  datatype OtherSections = OtherSections(problems: seq<string>, bgp: bool, ospf: bool)

  datatype Policy = Policy(zones: seq<Zone>, addresses: seq<AddressObject>, services: seq<Service>,
                           rules: seq<Rule>, snat: seq<SourceNat>, dnat: seq<DestinationNat>,
                           routes: seq<StaticRoute>, ids: Ids, wireguard: seq<WireguardInterface>,
                           intel: Option<Intel>, network: Option<Network>, other: OtherSections)

  /** What a fresh node runs. */
  const EMPTY_POLICY: Policy :=
    Policy([], [], [], [], [], [], [], Ids(false, 0, [], [], [], 0), [], None, None, OtherSections([], false, false))
}
