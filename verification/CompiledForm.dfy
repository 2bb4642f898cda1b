/**
  The compiled form, section by section and field by field, in terms of the policy it was compiled from.
  Rules and NAT entries are left out here: what they compile to is known by what it does to packets. So
  are routes and links, which have theorems of their own.
 */
module CompiledForm {
  import opened Basics
  import opened Compiler
  import opened IntermediateForm
  import opened Net
  import opened PolicyModel
  import opened Text
  import opened WellFormedness
  import Frr
  import LinkCompiler
  import RenderOutcome
  import Suricata

  // ---- tunnels ----

  /** The prefixes are the parsed ones, in order. */
  predicate Parsed(cs: seq<Option<Prefix>>, nets: seq<Prefix>) {
    |nets| == |cs| && forall k :: 0 <= k < |cs| ==> cs[k] == Some(nets[k])
  }

  predicate PeerIs(q: WireguardPeer, x: WireguardPeerIR) {
    && x.publicKey == q.publicKey && x.endpoint == q.endpoint && x.keepalive == q.keepalive
    && x.allowedIps != [] && Parsed(q.allowedIps, x.allowedIps)
  }

  predicate TunnelIs(w: WireguardInterface, x: WireguardIR) {
    && x.name == w.name && w.address == Some(x.address)
    && x.listenPort == w.listenPort && x.privateKeyFile == w.privateKeyFile
    && |x.peers| == |w.peers| && forall k :: 0 <= k < |w.peers| ==> PeerIs(w.peers[k], x.peers[k])
  }

  lemma NetsParsed(cs: seq<Option<Prefix>>)
    requires Traverse(ParseCidr, cs).Success?
    ensures Parsed(cs, Traverse(ParseCidr, cs).value)
  {
    TraverseElements(ParseCidr, cs);
    var nets := Traverse(ParseCidr, cs).value;
    forall k | 0 <= k < |cs|
      ensures cs[k] == Some(nets[k])
    {
      assert ParseCidr(cs[k]) == Success(nets[k]);
    }
  }

  lemma PeerCompiled(q: WireguardPeer, x: WireguardPeerIR)
    requires PeerOk(q) && PeerOf(q) == Success(x) && U16(q.keepalive) == q.keepalive
    ensures PeerIs(q, x)
  {
    NetsParsed(q.allowedIps);
  }

  lemma TunnelCompiled(ws: seq<WireguardInterface>, i: nat, x: WireguardIR)
    requires i < |ws| && WireguardOk(ws, i) && TunnelOf(ws[i]) == Success(x)
    requires U16(ws[i].listenPort) == ws[i].listenPort
    requires forall q :: q in ws[i].peers ==> U16(q.keepalive) == q.keepalive
    ensures TunnelIs(ws[i], x)
  {
    var peers := ws[i].peers;
    TraverseElements(PeerOf, peers);
    forall k | 0 <= k < |peers|
      ensures PeerIs(peers[k], x.peers[k])
    {
      assert peers[k] in peers && PeerOk(peers[k]);
      PeerCompiled(peers[k], x.peers[k]);
    }
  }

  /** Every tunnel and every peer is the policy's, no number cut short. */
  lemma TunnelsAre(p: Policy)
    requires Compiled(p).Success?
    ensures var xs := Compiled(p).value.wireguard;
            |xs| == |p.wireguard| && forall i :: 0 <= i < |xs| ==> TunnelIs(p.wireguard[i], xs[i])
  {
    SectionsCompiled(p);
    RenderOutcome.ConversionsLossless(p);
    hide Compiled, TunnelOf;
    var xs := Compiled(p).value.wireguard;
    TraverseElements(TunnelOf, p.wireguard);
    forall i | 0 <= i < |xs|
      ensures TunnelIs(p.wireguard[i], xs[i])
    {
      assert p.wireguard[i] in p.wireguard && WireguardOk(p.wireguard, i);
      assert TunnelOf(p.wireguard[i]) == Success(xs[i]);
      TunnelCompiled(p.wireguard, i, xs[i]);
    }
  }

  lemma SectionsCompiled(p: Policy)
    requires Compiled(p).Success?
    ensures WellFormed(p)
    ensures Traverse(TunnelOf, p.wireguard) == Success(Compiled(p).value.wireguard)
    ensures IdsOf(p) == Success(Compiled(p).value.ids)
    ensures Compiled(p).value.routing == RoutingOf(p)
    ensures Compiled(p).value.network == LinkCompiler.NetworkOf(p.zones, p.network, Compiled(p).value.ids)
  {
    hide SymbolsOf, IdsOf, WellFormed;
  }

  // ---- inspection ----

  /** The value of the first n bits, the first one weighing most. */
  function BitsOf(bits: seq<bool>, n: nat): nat
    requires n <= |bits|
  {
    if n == 0 then 0 else 2 * BitsOf(bits, n - 1) + if bits[n - 1] then 1 else 0
  }

  function ByteOf(bits: seq<bool>): nat {
    BitsOf(bits, |bits|)
  }

  /** The k-th number of a dotted IPv4 address. */
  function Quad(a: Addr, k: nat): nat
    requires a.family == V4 && k < 4
  {
    ByteOf(a.bits[8 * k..8 * k + 8])
  }

  /** An address of private use: 10/8, 172.16/12 or 192.168/16 (section 3 of RFC 1918). */
  predicate IsPrivate(a: Addr) {
    && a.family == V4
    && (Quad(a, 0) == 10
        || (Quad(a, 0) == 172 && 16 <= Quad(a, 1) <= 31)
        || (Quad(a, 0) == 192 && Quad(a, 1) == 168))
  }

  lemma ByteIs(b: seq<bool>)
    requires |b| == 8
    ensures ByteOf(b) == (if b[0] then 128 else 0) + (if b[1] then 64 else 0) + (if b[2] then 32 else 0)
                         + (if b[3] then 16 else 0) + (if b[4] then 8 else 0) + (if b[5] then 4 else 0)
                         + (if b[6] then 2 else 0) + (if b[7] then 1 else 0)
  {
    assert BitsOf(b, 0) == 0 && BitsOf(b, 1) == if b[0] then 1 else 0;
    assert BitsOf(b, 2) == (if b[0] then 2 else 0) + (if b[1] then 1 else 0);
    assert BitsOf(b, 4) == 4 * BitsOf(b, 2) + (if b[2] then 2 else 0) + (if b[3] then 1 else 0);
    assert BitsOf(b, 6) == 4 * BitsOf(b, 4) + (if b[4] then 2 else 0) + (if b[5] then 1 else 0);
    assert BitsOf(b, 8) == 4 * BitsOf(b, 6) + (if b[6] then 2 else 0) + (if b[7] then 1 else 0);
  }

  /** The numbers that the default networks are written with. */
  predicate IsWritten(n: nat) {
    n == 10 || n == 16 || n == 168 || n == 172 || n == 192
  }

  function Written(n: nat): seq<bool> {
    if n == 10 then [false, false, false, false, true, false, true, false]
    else if n == 16 then [false, false, false, true, false, false, false, false]
    else if n == 168 then [true, false, true, false, true, false, false, false]
    else if n == 172 then [true, false, true, false, true, true, false, false]
    else [true, true, false, false, false, false, false, false]
  }

  lemma OctetBit(n: nat, i: nat)
    requires IsWritten(n) && i < 8
    ensures Octet(n)[i] == Written(n)[i]
  {
    assert POWERS[0] == 128 && POWERS[1] == 64 && POWERS[2] == 32 && POWERS[3] == 16;
    assert POWERS[4] == 8 && POWERS[5] == 4 && POWERS[6] == 2 && POWERS[7] == 1;
  }

  lemma OctetValue(n: nat)
    requires IsWritten(n)
    ensures ByteOf(Octet(n)) == n
  {
    forall i | 0 <= i < 8
      ensures Octet(n)[i] == Written(n)[i]
    {
      OctetBit(n, i);
    }
    assert Octet(n) == Written(n);
    hide Octet;
    ByteIs(Written(n));
    hide ByteOf;
  }

  /** Eight bits are those of n exactly if their value is n. */
  lemma OctetIs(b: seq<bool>, n: nat)
    requires |b| == 8 && IsWritten(n)
    ensures b == Octet(n) <==> ByteOf(b) == n
  {
    ByteIs(b);
    ByteIs(Octet(n));
    OctetValue(n);
    hide ByteOf, Octet;
    var o := Octet(n);
    if ByteOf(b) == ByteOf(o) {
      assert b[0] == o[0] && b[1] == o[1] && b[2] == o[2] && b[3] == o[3];
      assert b[4] == o[4] && b[5] == o[5] && b[6] == o[6] && b[7] == o[7];
      assert forall i :: 0 <= i < 8 ==> b[i] == o[i];
    }
  }

  lemma NetBits(a: nat, b: nat, len: nat)
    requires len <= 32
    ensures V4Prefix(a, b, 0, 0, len).addr.bits[0..8] == Octet(a)
    ensures V4Prefix(a, b, 0, 0, len).addr.bits[8..16] == Octet(b)
  {
  }

  /** Two strings agree on their first bits exactly if they do on the first eight, and on those after. */
  lemma BitsSplit(x: seq<bool>, y: seq<bool>, len: nat)
    requires |x| == |y| == 32 && 8 <= len <= 16
    ensures x[..len] == y[..len] <==> x[0..8] == y[0..8] && x[8..16][..len - 8] == y[8..16][..len - 8]
  {
    assert x[..len] == x[0..8] + x[8..16][..len - 8];
    assert y[..len] == y[0..8] + y[8..16][..len - 8];
    assert x[0..8] == x[..len][..8] && x[8..16][..len - 8] == x[..len][8..];
    assert y[0..8] == y[..len][..8] && y[8..16][..len - 8] == y[..len][8..];
  }

  lemma TopNibble(b: seq<bool>, c: seq<bool>)
    requires |b| == |c| == 8 && ByteOf(c) == 16
    ensures b[..4] == c[..4] <==> 16 <= ByteOf(b) <= 31
  {
    ByteIs(b);
    ByteIs(c);
    hide ByteOf;
    assert !c[0] && !c[1] && !c[2] && c[3];
    assert b[..4] == c[..4] <==> b[0] == c[0] && b[1] == c[1] && b[2] == c[2] && b[3] == c[3];
  }

  lemma FirstByte(a: Addr, n: nat)
    requires a.family == V4 && IsWritten(n)
    ensures Contains(V4Prefix(n, 0, 0, 0, 8), a) <==> Quad(a, 0) == n
  {
    NetBits(n, 0, 8);
    BitsSplit(a.bits, V4Prefix(n, 0, 0, 0, 8).addr.bits, 8);
    OctetIs(a.bits[0..8], n);
    hide ByteOf, Octet;
  }

  lemma TwoBytes(a: Addr, n: nat, m: nat)
    requires a.family == V4 && IsWritten(n) && IsWritten(m)
    ensures Contains(V4Prefix(n, m, 0, 0, 16), a) <==> Quad(a, 0) == n && Quad(a, 1) == m
  {
    NetBits(n, m, 16);
    var net := V4Prefix(n, m, 0, 0, 16).addr.bits;
    BitsSplit(a.bits, net, 16);
    OctetIs(a.bits[0..8], n);
    OctetIs(a.bits[8..16], m);
    hide ByteOf, Octet;
    assert a.bits[8..16][..8] == a.bits[8..16] && net[8..16][..8] == net[8..16];
  }

  lemma TwelveBits(a: Addr, n: nat)
    requires a.family == V4 && IsWritten(n)
    ensures Contains(V4Prefix(n, 16, 0, 0, 12), a) <==> Quad(a, 0) == n && 16 <= Quad(a, 1) <= 31
  {
    NetBits(n, 16, 12);
    BitsSplit(a.bits, V4Prefix(n, 16, 0, 0, 12).addr.bits, 12);
    OctetIs(a.bits[0..8], n);
    OctetValue(16);
    TopNibble(a.bits[8..16], Octet(16));
    hide ByteOf, Octet;
  }

  /** What an inspector that is given no home networks takes for its own: the addresses of private use. */
  lemma DefaultNets(a: Addr)
    ensures (exists k :: 0 <= k < |RFC1918| && Contains(RFC1918[k], a)) <==> IsPrivate(a)
  {
    assert |RFC1918| == 3 && RFC1918[0].addr.family == V4 && RFC1918[1].addr.family == V4;
    assert RFC1918[2].addr.family == V4;
    if a.family == V4 {
      FirstByte(a, 10);
      TwelveBits(a, 172);
      TwoBytes(a, 192, 168);
    }
    hide ByteOf, Octet, Contains, Quad;
    assert (exists k :: 0 <= k < |RFC1918| && Contains(RFC1918[k], a))
           <==> Contains(RFC1918[0], a) || Contains(RFC1918[1], a) || Contains(RFC1918[2], a);
  }

  function ZoneLists(zones: seq<Zone>): seq<seq<string>> {
    seq(|zones|, i requires 0 <= i < |zones| => zones[i].interfaces)
  }

  /** The interfaces the policy wants monitored: those it names, or else every zone's, zone by zone. */
  function Watched(p: Policy): seq<string> {
    if p.ids.monitorInterfaces == [] then Flatten(ZoneLists(p.zones)) else p.ids.monitorInterfaces
  }

  /** The compiled inspection section, in the policy's terms. */
  predicate IdsIs(p: Policy, x: IdsIR) {
    && (x.prevent <==> p.ids.mode == IDS_MODE_PREVENT)
    && x.interfaces == Watched(p)
    && (p.ids.homeNetworks != [] ==> Parsed(p.ids.homeNetworks, x.homeNets))
    && (p.ids.homeNetworks == [] ==> x.homeNets == RFC1918)
    && x.ruleFiles == (if p.ids.ruleFiles == [] then ["local.rules"] else p.ids.ruleFiles)
    && x.queueNum == p.ids.queueNum
    && (!x.prevent ==> x.interfaces != [])
  }

  lemma {:induction false} ZonesFlattened(zones: seq<Zone>)
    ensures LinkCompiler.ZoneInterfaces(zones) == Flatten(ZoneLists(zones))
  {
    if zones != [] {
      ZonesFlattened(zones[1..]);
      assert ZoneLists(zones)[1..] == ZoneLists(zones[1..]);
    }
  }

  lemma IdsParts(p: Policy, x: IdsIR)
    requires WellFormed(p) && IdsOf(p) == Success(Some(x)) && U16(p.ids.queueNum) == p.ids.queueNum
    ensures IdsIs(p, x)
  {
    ZonesFlattened(p.zones);
    NetsParsed(p.ids.homeNetworks);
    hide WellFormed, LinkCompiler.ZoneInterfaces, Flatten, ZoneLists, RFC1918;
  }

  /** There is one exactly if the policy turns inspection on. */
  lemma IdsAre(p: Policy)
    requires Compiled(p).Success?
    ensures Compiled(p).value.ids.Some? <==> p.ids.enabled
    ensures p.ids.enabled ==> IdsIs(p, Compiled(p).value.ids.value)
  {
    SectionsCompiled(p);
    RenderOutcome.ConversionsLossless(p);
    ZonesFlattened(p.zones);
    if p.ids.enabled {
      IdsParts(p, Compiled(p).value.ids.value);
    }
    hide Compiled, LinkCompiler.ZoneInterfaces, IdsIs, Watched;
  }

  /**
    What the inspector is told: its home networks are the policy's, or else those of private use; and it
    takes its packets from the queue, or from every interface the policy wants watched.
   */
  lemma InspectorTold(p: Policy, t: Suricata.Template)
    requires Compiled(p).Success? && p.ids.enabled
    ensures var ls := Suricata.LinesOf(Compiled(p).value.ids, Compiled(p).value.network, t);
            && Suricata.Artifact(Compiled(p).value.ids, Compiled(p).value.network, t) == Unlines(ls)
            && (exists nets :: Suricata.NamesHome(ls, nets)
                  && if p.ids.homeNetworks == [] then nets == RFC1918 else Parsed(p.ids.homeNetworks, nets))
            && (p.ids.mode == IDS_MODE_PREVENT ==> Suricata.HasPair(ls, "nfq:", "  mode: accept"))
            && (p.ids.mode != IDS_MODE_PREVENT ==>
                  Watched(p) != [] && forall k :: 0 <= k < |Watched(p)| ==> Suricata.Captures(ls, Watched(p)[k], k))
  {
    IdsAre(p);
    var ids := Compiled(p).value.ids.value;
    assert ids.homeNets != [];
    Suricata.FileSays(ids, Compiled(p).value.network, t);
    hide Compiled, Suricata.LinesOf, Suricata.NamesHome, Suricata.Captures, Suricata.HasPair, Watched, Unlines;
  }

  /** Walking these path components from a directory depth levels down never leads above the top one. */
  predicate NeverAbove(components: seq<string>, depth: nat)
    decreases |components|
  {
    components == []
    || (if components[0] == ".." then depth > 0 && NeverAbove(components[1..], depth - 1)
        else if components[0] == "." || components[0] == "" then NeverAbove(components[1..], depth)
        else NeverAbove(components[1..], depth + 1))
  }

  /** A relative path that leads to something inside the directory it starts from. */
  predicate StaysInside(path: string) {
    path != "" && path[0] != '/' && NeverAbove(Split(path, '/'), 0)
  }

  predicate NoTwoDots(f: string) {
    forall i :: 0 <= i < |f| - 1 ==> !(f[i] == '.' && f[i + 1] == '.')
  }

  lemma {:induction false} PiecesHaveNoTwoDots(f: string)
    requires NoTwoDots(f)
    ensures forall c :: c in Split(f, '/') ==> NoTwoDots(c)
    ensures Split(f, '/')[0] <= f
  {
    if f != "" {
      assert NoTwoDots(f[1..]);
      PiecesHaveNoTwoDots(f[1..]);
      var rest := Split(f[1..], '/');
      if f[0] != '/' {
        var first := [f[0]] + rest[0];
        assert first <= f;
        assert forall i :: 0 <= i < |first| ==> first[i] == f[i];
      }
    }
  }

  lemma {:induction false} WalksDown(components: seq<string>, depth: nat)
    requires forall c :: c in components ==> c != ".."
    ensures NeverAbove(components, depth)
    decreases |components|
  {
    if components != [] {
      assert components[0] in components && forall c :: c in components[1..] ==> c in components;
      var next := if components[0] == "." || components[0] == "" then depth else depth + 1;
      WalksDown(components[1..], next);
    }
  }

  /** No rule file of a compiled policy leads out of the rules directory. */
  lemma RuleFilesStayInside(p: Policy)
    requires Compiled(p).Success? && p.ids.enabled
    ensures forall f :: f in Compiled(p).value.ids.value.ruleFiles ==> StaysInside(f)
  {
    IdsAre(p);
    SectionsCompiled(p);
    GivenFilesAre(p);
    hide Compiled, WellFormed, Parsed, Watched, StaysInside;
    forall f | f in Compiled(p).value.ids.value.ruleFiles
      ensures StaysInside(f)
    {
      assert f in p.ids.ruleFiles || f == "local.rules";
      InsideIfNoTwoDots(f);
    }
  }

  lemma GivenFilesAre(p: Policy)
    requires WellFormed(p) && p.ids.enabled
    ensures forall f :: f in p.ids.ruleFiles ==> f != "" && f[0] != '/' && NoTwoDots(f)
    ensures NoTwoDots("local.rules")
  {
    forall f | f in p.ids.ruleFiles
      ensures f != "" && f[0] != '/' && NoTwoDots(f)
    {
      var k :| 0 <= k < |p.ids.ruleFiles| && p.ids.ruleFiles[k] == f;
      assert RuleFileOk(p.ids.ruleFiles[k]);
    }
  }

  lemma InsideIfNoTwoDots(f: string)
    requires f != "" && f[0] != '/' && NoTwoDots(f)
    ensures StaysInside(f)
  {
    PiecesHaveNoTwoDots(f);
    forall c | c in Split(f, '/')
      ensures c != ".."
    {
      assert !NoTwoDots("..") by {
        assert ".."[0] == '.' && ".."[1] == '.';
      }
    }
    WalksDown(Split(f, '/'), 0);
  }

  // ---- routing ----

  /** The routing engine is told of a protocol's daemon exactly if the policy turns the protocol on. */
  lemma DaemonsAre(p: Policy, body: string)
    requires Compiled(p).Success?
    ensures var daemons := Frr.FirstMarker(ScanLines(Frr.Artifact(Compiled(p).value.routing, body)));
            && ("bgpd" in daemons <==> p.other.bgp) && ("ospfd" in daemons <==> p.other.ospf)
            && (forall d :: d in daemons ==> d == "bgpd" || d == "ospfd") && NoDup(daemons)
  {
    SectionsCompiled(p);
    Frr.MarkerRoundTrip(Compiled(p).value.routing, body);
    hide Compiled, Frr.Artifact, Frr.FirstMarker, ScanLines;
  }

  // ---- network ----

  /** Offloads are turned off on the monitored interfaces, when the policy asks for it and inspection only detects. */
  function OffloadFree(p: Policy): seq<string> {
    if p.network.Some? && p.network.value.manageNicOffloads && p.ids.enabled && p.ids.mode != IDS_MODE_PREVENT
    then Watched(p) else []
  }

  /** The network section: there is one exactly if some link, the clamp or some offload is to be set. */
  lemma NetworkIs(p: Policy)
    requires Compiled(p).Success?
    ensures var x := Compiled(p).value.network;
            && (p.network.None? ==> x.None?)
            && (p.network.Some? ==>
                  var n, links := p.network.value, LinkCompiler.LinksOf(p.zones, p.network.value);
                  && (x.None? <==> links == [] && !n.clampMss && OffloadFree(p) == [])
                  && (x.Some? ==> x.value.links == links && x.value.clampMss == n.clampMss
                                  && x.value.offloadOff == OffloadFree(p)))
  {
    SectionsCompiled(p);
    IdsAre(p);
    hide Compiled, LinkCompiler.LinksOf, Watched;
  }
}
