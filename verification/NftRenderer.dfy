/** From the intermediate form to the ruleset. */
module NftRenderer {
  import opened Basics
  import opened Net
  import opened IntermediateForm
  import opened Nft

  datatype RenderError =
    | FamiliesDisjoint(rule: string)
    | NotTcpOrUdp(entry: string)
    | NoPorts(entry: string)

  type Rendering<+T> = Result<T, RenderError>

  /** Which address-family variant of a rule line to emit. */
  datatype Variant = AnyFamily | Only(family: Family)

  // ---- what each step computes ----

  function OfFamily(ps: seq<Prefix>, f: Family): seq<Prefix> {
    if ps == [] then []
    else if ps[0].addr.family == f then [ps[0]] + OfFamily(ps[1..], f)
    else OfFamily(ps[1..], f)
  }

  /** A side constrains family f unless it lists prefixes of the other family only. */
  predicate Admits(ps: seq<Prefix>, f: Family) {
    ps == [] || OfFamily(ps, f) != []
  }

  function Variants(r: RuleIR): seq<Variant> {
    if r.srcPrefixes == [] && r.dstPrefixes == [] then [AnyFamily]
    else
      (if Admits(r.srcPrefixes, V4) && Admits(r.dstPrefixes, V4) then [Only(V4)] else [])
      + (if Admits(r.srcPrefixes, V6) && Admits(r.dstPrefixes, V6) then [Only(V6)] else [])
  }

  function ServiceList(r: RuleIR): seq<ServiceMatch> {
    if r.services == [] then [ServiceMatch(ProtoAny, [])] else r.services
  }

  function Opt(c: bool, m: Match): seq<Match> {
    if c then [m] else []
  }

  function PortMatch(proto: nat, ports: seq<PortRange>): seq<Match> {
    if ports == [] then [L4proto([proto])] else [Dport(proto, ports)]
  }

  function ServiceMatches(m: ServiceMatch, v: Variant): seq<Match> {
    match m.proto
    case ProtoTCP => PortMatch(TCP, m.ports)
    case ProtoUDP => PortMatch(UDP, m.ports)
    case ProtoICMP =>
      [L4proto(match v case Only(V4) => [ICMP] case Only(V6) => [ICMPV6] case AnyFamily => [ICMP, ICMPV6])]
    case ProtoAny => []
  }

  function AddressMatches(r: RuleIR, v: Variant): seq<Match> {
    match v
    case AnyFamily => []
    case Only(f) =>
      var src, dst := OfFamily(r.srcPrefixes, f), OfFamily(r.dstPrefixes, f);
      Opt(src != [], Saddr(f, src)) + Opt(dst != [], Daddr(f, dst))
  }

  function VerdictOf(a: RuleAction): Action {
    match a
    case ActionAllow => Accept
    case ActionReject => Reject
    case ActionDeny => Drop
  }

  function LineOf(r: RuleIR, v: Variant, svc: ServiceMatch): Stmt {
    Stmt(Opt(r.fromIfaces != [], Iifname(r.fromIfaces)) + Opt(r.toIfaces != [], Oifname(r.toIfaces))
         + AddressMatches(r, v) + ServiceMatches(svc, v),
         VerdictOf(r.action))
  }

  function LinesOfVariant(r: RuleIR, v: Variant, svcs: seq<ServiceMatch>): seq<Stmt> {
    seq(|svcs|, i requires 0 <= i < |svcs| => LineOf(r, v, svcs[i]))
  }

  function LinesOfVariants(r: RuleIR, vs: seq<Variant>, svcs: seq<ServiceMatch>): seq<Stmt> {
    if vs == [] then [] else LinesOfVariant(r, vs[0], svcs) + LinesOfVariants(r, vs[1..], svcs)
  }

  /** One line per address family and service that can apply. */
  function LinesOf(r: RuleIR): Rendering<seq<Stmt>> {
    if Variants(r) == [] then Failure(FamiliesDisjoint(r.name))
    else Success(LinesOfVariants(r, Variants(r), ServiceList(r)))
  }

  function HostMatch(a: Addr): seq<Prefix> {
    [Prefix(a, Width(a.family))]
  }

  function DnatLineOf(d: DnatIR): Rendering<Stmt> {
    if d.proto != ProtoTCP && d.proto != ProtoUDP then Failure(NotTcpOrUdp(d.name))
    else if d.ports == [] then Failure(NoPorts(d.name))
    else Success(Stmt(Opt(d.inIfaces != [], Iifname(d.inIfaces))
                      + [Daddr(d.matchDst.family, HostMatch(d.matchDst)),
                         Dport(if d.proto == ProtoUDP then UDP else TCP, d.ports)],
                      Dnat(d.translateTo, d.toPort)))
  }

  function SnatLineOf(s: SnatIR): Stmt {
    Stmt(Opt(s.outIfaces != [], Oifname(s.outIfaces))
         + (if s.srcPrefix.Some? then [Saddr(s.srcPrefix.value.addr.family, [s.srcPrefix.value])] else []),
         if s.masquerade then Masquerade else if s.translateTo.Some? then Snat(s.translateTo.value) else Continue)
  }

  /** What comes before the rules: inspection, MSS clamping, connection tracking, blocklists. */
  function Prelude(ir: IR): seq<Stmt> {
    (if ir.ids.Some? && ir.ids.value.prevent then [Stmt([], Queue(ir.ids.value.queueNum))] else [])
    + (if ir.network.Some? && ir.network.value.clampMss then [Stmt([TcpSyn], Continue)] else [])
    + [Stmt([CtState([Established, Related])], Accept), Stmt([CtState([Invalid])], Drop)]
    + (if ir.intel then [Stmt([SaddrListed(V4)], Drop), Stmt([DaddrListed(V4)], Drop),
                         Stmt([SaddrListed(V6)], Drop), Stmt([DaddrListed(V6)], Drop)] else [])
  }

  function ForwardOf(ir: IR): Rendering<seq<Stmt>> {
    var blocks :- Traverse(LinesOf, ir.rules);
    Success(Prelude(ir) + Flatten(blocks) + [Stmt([], Continue)])
  }

  function SnatLinesOf(ns: seq<SnatIR>): seq<Stmt> {
    seq(|ns|, i requires 0 <= i < |ns| => SnatLineOf(ns[i]))
  }

  function RulesetOf(ir: IR): Rendering<Ruleset> {
    var forward :- ForwardOf(ir);
    var dnat :- Traverse(DnatLineOf, ir.dnat);
    Success(Ruleset(ir.intel, forward,
                    if ir.dnat == [] then None else Some(dnat),
                    if ir.snat == [] then None else Some(SnatLinesOf(ir.snat))))
  }

  // ---- the renderer, step by step ----

  method SplitFamily(ps: seq<Prefix>) returns (v4: seq<Prefix>, v6: seq<Prefix>)
    ensures v4 == OfFamily(ps, V4) && v6 == OfFamily(ps, V6)
  {
    v4, v6 := [], [];
    for i := 0 to |ps|
      invariant v4 + OfFamily(ps[i..], V4) == OfFamily(ps, V4)
      invariant v6 + OfFamily(ps[i..], V6) == OfFamily(ps, V6)
    {
      assert ps[i..][1..] == ps[i + 1..];
      if ps[i].addr.family == V4 {
        v4 := v4 + [ps[i]];
      } else {
        v6 := v6 + [ps[i]];
      }
    }
  }

  method ServicePart(m: ServiceMatch, v: Variant) returns (parts: seq<Match>)
    ensures parts == ServiceMatches(m, v)
  {
    if m.proto == ProtoTCP || m.proto == ProtoUDP {
      var proto := if m.proto == ProtoUDP then UDP else TCP;
      if |m.ports| == 0 {
        return [L4proto([proto])];
      }
      return [Dport(proto, m.ports)];
    }
    if m.proto == ProtoICMP {
      match v {
        case Only(V4) => return [L4proto([ICMP])];
        case Only(V6) => return [L4proto([ICMPV6])];
        case AnyFamily => return [L4proto([ICMP, ICMPV6])];
      }
    }
    return [];
  }

  method IfacePart(r: RuleIR) returns (parts: seq<Match>)
    ensures parts == Opt(r.fromIfaces != [], Iifname(r.fromIfaces)) + Opt(r.toIfaces != [], Oifname(r.toIfaces))
  {
    parts := [];
    if |r.fromIfaces| > 0 {
      parts := parts + [Iifname(r.fromIfaces)];
    }
    if |r.toIfaces| > 0 {
      parts := parts + [Oifname(r.toIfaces)];
    }
  }

  method AddressPart(f: Family, src: seq<Prefix>, dst: seq<Prefix>) returns (parts: seq<Match>)
    ensures parts == Opt(src != [], Saddr(f, src)) + Opt(dst != [], Daddr(f, dst))
  {
    parts := [];
    if |src| > 0 {
      parts := parts + [Saddr(f, src)];
    }
    if |dst| > 0 {
      parts := parts + [Daddr(f, dst)];
    }
  }

  /** One line, part by part. */
  method RuleLine(r: RuleIR, v: Variant, svc: ServiceMatch,
                  src4: seq<Prefix>, src6: seq<Prefix>, dst4: seq<Prefix>, dst6: seq<Prefix>) returns (line: Stmt)
    requires src4 == OfFamily(r.srcPrefixes, V4) && src6 == OfFamily(r.srcPrefixes, V6)
    requires dst4 == OfFamily(r.dstPrefixes, V4) && dst6 == OfFamily(r.dstPrefixes, V6)
    ensures line == LineOf(r, v, svc)
  {
    var ifaces := IfacePart(r);
    var addrs: seq<Match> := [];
    match v {
      case Only(V4) => addrs := AddressPart(V4, src4, dst4);
      case Only(V6) => addrs := AddressPart(V6, src6, dst6);
      case AnyFamily =>
    }
    var service := ServicePart(svc, v);
    return Stmt(ifaces + addrs + service, VerdictOf(r.action));
  }

  method ChooseVariants(r: RuleIR, src4: seq<Prefix>, src6: seq<Prefix>, dst4: seq<Prefix>, dst6: seq<Prefix>)
    returns (variants: seq<Variant>)
    requires src4 == OfFamily(r.srcPrefixes, V4) && src6 == OfFamily(r.srcPrefixes, V6)
    requires dst4 == OfFamily(r.dstPrefixes, V4) && dst6 == OfFamily(r.dstPrefixes, V6)
    ensures variants == Variants(r)
  {
    if |r.srcPrefixes| == 0 && |r.dstPrefixes| == 0 {
      return [AnyFamily];
    }
    variants := [];
    if (|r.srcPrefixes| == 0 || |src4| > 0) && (|r.dstPrefixes| == 0 || |dst4| > 0) {
      variants := variants + [Only(V4)];
    }
    if (|r.srcPrefixes| == 0 || |src6| > 0) && (|r.dstPrefixes| == 0 || |dst6| > 0) {
      variants := variants + [Only(V6)];
    }
  }

  method VariantLines(r: RuleIR, v: Variant, services: seq<ServiceMatch>,
                      src4: seq<Prefix>, src6: seq<Prefix>, dst4: seq<Prefix>, dst6: seq<Prefix>)
    returns (lines: seq<Stmt>)
    requires src4 == OfFamily(r.srcPrefixes, V4) && src6 == OfFamily(r.srcPrefixes, V6)
    requires dst4 == OfFamily(r.dstPrefixes, V4) && dst6 == OfFamily(r.dstPrefixes, V6)
    ensures lines == LinesOfVariant(r, v, services)
  {
    lines := [];
    ghost var all := LinesOfVariant(r, v, services);
    for k := 0 to |services|
      invariant lines == all[..k]
    {
      var line := RuleLine(r, v, services[k], src4, src6, dst4, dst6);
      assert line == all[k];
      lines := lines + [line];
    }
  }

  lemma VariantsFrom(r: RuleIR, vs: seq<Variant>, svcs: seq<ServiceMatch>, i: nat)
    requires i < |vs|
    ensures LinesOfVariants(r, vs[i..], svcs) == LinesOfVariant(r, vs[i], svcs) + LinesOfVariants(r, vs[i + 1..], svcs)
  {
    assert vs[i..][1..] == vs[i + 1..];
  }

  method AllVariantLines(r: RuleIR, variants: seq<Variant>, services: seq<ServiceMatch>,
                         src4: seq<Prefix>, src6: seq<Prefix>, dst4: seq<Prefix>, dst6: seq<Prefix>)
    returns (lines: seq<Stmt>)
    requires src4 == OfFamily(r.srcPrefixes, V4) && src6 == OfFamily(r.srcPrefixes, V6)
    requires dst4 == OfFamily(r.dstPrefixes, V4) && dst6 == OfFamily(r.dstPrefixes, V6)
    ensures lines == LinesOfVariants(r, variants, services)
  {
    lines := [];
    ghost var all := LinesOfVariants(r, variants, services);
    assert variants[0..] == variants && [] + all == all;
    for i := 0 to |variants|
      invariant lines + LinesOfVariants(r, variants[i..], services) == all
    {
      VariantsFrom(r, variants, services, i);
      ghost var rest := LinesOfVariants(r, variants[i + 1..], services);
      MoveBrackets(lines, LinesOfVariant(r, variants[i], services), rest, all);
      var more := VariantLines(r, variants[i], services, src4, src6, dst4, dst6);
      lines := lines + more;
    }
    assert variants[|variants|..] == [] && lines + [] == lines;
  }

  method RuleLines(r: RuleIR) returns (out: Rendering<seq<Stmt>>)
    ensures out == LinesOf(r)
  {
    var src4, src6 := SplitFamily(r.srcPrefixes);
    var dst4, dst6 := SplitFamily(r.dstPrefixes);
    var variants := ChooseVariants(r, src4, src6, dst4, dst6);
    if |variants| == 0 {
      return Failure(FamiliesDisjoint(r.name));
    }
    var services := r.services;
    if |services| == 0 {
      services := [ServiceMatch(ProtoAny, [])];
    }
    var lines := AllVariantLines(r, variants, services, src4, src6, dst4, dst6);
    return Success(lines);
  }

  method DnatLine(d: DnatIR) returns (out: Rendering<Stmt>)
    ensures out == DnatLineOf(d)
  {
    var parts: seq<Match> := [];
    if |d.inIfaces| > 0 {
      parts := parts + [Iifname(d.inIfaces)];
    }
    parts := parts + [Daddr(d.matchDst.family, HostMatch(d.matchDst))];
    var proto := TCP;
    if d.proto == ProtoUDP {
      proto := UDP;
    } else if d.proto != ProtoTCP {
      return Failure(NotTcpOrUdp(d.name));
    }
    if |d.ports| == 0 {
      return Failure(NoPorts(d.name));
    }
    parts := parts + [Dport(proto, d.ports)];
    assert parts == Opt(d.inIfaces != [], Iifname(d.inIfaces))
                    + [Daddr(d.matchDst.family, HostMatch(d.matchDst)), Dport(proto, d.ports)];
    return Success(Stmt(parts, Dnat(d.translateTo, d.toPort)));
  }

  method SnatLine(s: SnatIR) returns (line: Stmt)
    ensures line == SnatLineOf(s)
  {
    var parts: seq<Match> := [];
    if |s.outIfaces| > 0 {
      parts := parts + [Oifname(s.outIfaces)];
    }
    if s.srcPrefix.Some? {
      parts := parts + [Saddr(s.srcPrefix.value.addr.family, [s.srcPrefix.value])];
    }
    if s.masquerade {
      return Stmt(parts, Masquerade);
    }
    return Stmt(parts, if s.translateTo.Some? then Snat(s.translateTo.value) else Continue);
  }

  method RenderPrelude(ir: IR) returns (chain: seq<Stmt>)
    ensures chain == Prelude(ir)
  {
    chain := [];
    if ir.ids.Some? && ir.ids.value.prevent {
      chain := chain + [Stmt([], Queue(ir.ids.value.queueNum))];
    }
    if ir.network.Some? && ir.network.value.clampMss {
      chain := chain + [Stmt([TcpSyn], Continue)];
    }
    chain := chain + [Stmt([CtState([Established, Related])], Accept), Stmt([CtState([Invalid])], Drop)];
    if ir.intel {
      chain := chain + [Stmt([SaddrListed(V4)], Drop), Stmt([DaddrListed(V4)], Drop),
                        Stmt([SaddrListed(V6)], Drop), Stmt([DaddrListed(V6)], Drop)];
    }
  }

  method RenderRules(rules: seq<RuleIR>) returns (out: Rendering<seq<Stmt>>)
    ensures out == (var blocks :- Traverse(LinesOf, rules); Success(Flatten(blocks)))
  {
    var chain: seq<Stmt> := [];
    ghost var blocks: seq<seq<Stmt>> := [];
    TraverseEnds(LinesOf, rules);
    for i := 0 to |rules|
      invariant chain == Flatten(blocks)
      invariant Traverse(LinesOf, rules) == After(blocks, Traverse(LinesOf, rules[i..]))
    {
      TraverseStep(LinesOf, rules, i, blocks);
      var lines :- RuleLines(rules[i]);
      FlattenSnoc(blocks, lines);
      blocks := blocks + [lines];
      chain := chain + lines;
    }
    return Success(chain);
  }

  method RenderForward(ir: IR) returns (out: Rendering<seq<Stmt>>)
    ensures out == ForwardOf(ir)
  {
    var chain := RenderPrelude(ir);
    var rules :- RenderRules(ir.rules);
    return Success(chain + rules + [Stmt([], Continue)]);
  }

  method RenderDnat(ds: seq<DnatIR>) returns (out: Rendering<seq<Stmt>>)
    ensures out == Traverse(DnatLineOf, ds)
  {
    var lines: seq<Stmt> := [];
    TraverseEnds(DnatLineOf, ds);
    for i := 0 to |ds|
      invariant Traverse(DnatLineOf, ds) == After(lines, Traverse(DnatLineOf, ds[i..]))
    {
      TraverseStep(DnatLineOf, ds, i, lines);
      var line :- DnatLine(ds[i]);
      lines := lines + [line];
    }
    return Success(lines);
  }

  method RenderSnat(ns: seq<SnatIR>) returns (lines: seq<Stmt>)
    ensures lines == SnatLinesOf(ns)
  {
    lines := [];
    for i := 0 to |ns|
      invariant lines == SnatLinesOf(ns)[..i]
    {
      var line := SnatLine(ns[i]);
      lines := lines + [line];
    }
  }

  method Render(ir: IR) returns (out: Rendering<Ruleset>)
    ensures out == RulesetOf(ir)
  {
    var forward :- RenderForward(ir);
    var prerouting: Option<seq<Stmt>> := None;
    if |ir.dnat| > 0 {
      var dnat :- RenderDnat(ir.dnat);
      prerouting := Some(dnat);
    }
    var postrouting: Option<seq<Stmt>> := None;
    if |ir.snat| > 0 {
      var snat := RenderSnat(ir.snat);
      postrouting := Some(snat);
    }
    return Success(Ruleset(ir.intel, forward, prerouting, postrouting));
  }
}
