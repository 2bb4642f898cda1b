/** A resolved rule and the block of lines it expands to match the same packets. */
module RuleExpansion {
  import opened Basics
  import opened Net
  import opened IntermediateForm
  import opened Nft
  import opened NftRenderer

  // ---- the meaning of a resolved rule ----

  predicate IfaceIn(names: seq<string>, ifc: string) {
    names == [] || ifc in names
  }

  predicate AddrIn(ps: seq<Prefix>, a: Addr) {
    ps == [] || InPrefixes(ps, a)
  }

  predicate ServiceHolds(m: ServiceMatch, pk: Packet) {
    match m.proto
    case ProtoTCP => pk.proto == TCP && (m.ports == [] || InPorts(m.ports, pk.dport))
    case ProtoUDP => pk.proto == UDP && (m.ports == [] || InPorts(m.ports, pk.dport))
    case ProtoICMP => pk.proto == ICMP || pk.proto == ICMPV6
    case ProtoAny => true
  }

  predicate ServiceIn(ms: seq<ServiceMatch>, pk: Packet) {
    ms == [] || exists m :: m in ms && ServiceHolds(m, pk)
  }

  predicate IRMatches(r: RuleIR, pk: Packet) {
    && IfaceIn(r.fromIfaces, pk.iif) && IfaceIn(r.toIfaces, pk.oif)
    && AddrIn(r.srcPrefixes, pk.src) && AddrIn(r.dstPrefixes, pk.dst)
    && ServiceIn(r.services, pk)
  }

  // ---- one line ----

  predicate Applies(v: Variant, pk: Packet) {
    match v
    case AnyFamily => true
    case Only(f) => FamilyOf(pk) == f
  }

  lemma {:induction false} OfFamilyMembers(ps: seq<Prefix>, f: Family)
    ensures forall p :: p in OfFamily(ps, f) <==> p in ps && p.addr.family == f
  {
    if ps != [] {
      OfFamilyMembers(ps[1..], f);
      assert ps == [ps[0]] + ps[1..];
    }
  }

  lemma OfFamilySameAddresses(ps: seq<Prefix>, a: Addr)
    ensures InPrefixes(OfFamily(ps, a.family), a) <==> InPrefixes(ps, a)
  {
    OfFamilyMembers(ps, a.family);
  }

  lemma AllHoldConcat(a: seq<Match>, c: seq<Match>, pk: Packet, b: Blocklist)
    ensures AllHold(a + c, pk, b) <==> AllHold(a, pk, b) && AllHold(c, pk, b)
  {
    forall m
      ensures m in a + c <==> m in a || m in c
    {
    }
  }

  lemma AllHoldOpt(c: bool, m: Match, pk: Packet, b: Blocklist)
    ensures AllHold(Opt(c, m), pk, b) <==> (c ==> Holds(m, pk, b))
  {
    if c {
      assert m in Opt(c, m);
    }
  }

  /** The address part of a family's line: for packets of that family it says what the rule says. */
  lemma AddressPartExact(r: RuleIR, f: Family, pk: Packet, b: Blocklist)
    requires Only(f) in Variants(r)
    ensures AllHold(AddressMatches(r, Only(f)), pk, b) <==>
              FamilyOf(pk) == f && AddrIn(r.srcPrefixes, pk.src) && AddrIn(r.dstPrefixes, pk.dst)
  {
    var src, dst := OfFamily(r.srcPrefixes, f), OfFamily(r.dstPrefixes, f);
    AllHoldConcat(Opt(src != [], Saddr(f, src)), Opt(dst != [], Daddr(f, dst)), pk, b);
    AllHoldOpt(src != [], Saddr(f, src), pk, b);
    AllHoldOpt(dst != [], Daddr(f, dst), pk, b);
    assert Admits(r.srcPrefixes, f) && Admits(r.dstPrefixes, f);
    if FamilyOf(pk) == f {
      OfFamilySameAddresses(r.srcPrefixes, pk.src);
      OfFamilySameAddresses(r.dstPrefixes, pk.dst);
    }
  }

  lemma ServicePartExact(m: ServiceMatch, v: Variant, pk: Packet, b: Blocklist)
    requires Applies(v, pk) && IcmpOwnFamily(pk)
    ensures AllHold(ServiceMatches(m, v), pk, b) <==> ServiceHolds(m, pk)
  {
    var parts := ServiceMatches(m, v);
    if parts != [] {
      assert parts == [parts[0]] && parts[0] in parts;
      assert AllHold(parts, pk, b) <==> Holds(parts[0], pk, b);
    }
  }

  lemma LineHolds(r: RuleIR, v: Variant, m: ServiceMatch, pk: Packet, b: Blocklist)
    ensures AllHold(LineOf(r, v, m).matches, pk, b) <==>
              && IfaceIn(r.fromIfaces, pk.iif) && IfaceIn(r.toIfaces, pk.oif)
              && AllHold(AddressMatches(r, v), pk, b) && AllHold(ServiceMatches(m, v), pk, b)
  {
    var from, to := Opt(r.fromIfaces != [], Iifname(r.fromIfaces)), Opt(r.toIfaces != [], Oifname(r.toIfaces));
    AllHoldConcat(from + to + AddressMatches(r, v), ServiceMatches(m, v), pk, b);
    AllHoldConcat(from + to, AddressMatches(r, v), pk, b);
    AllHoldConcat(from, to, pk, b);
    AllHoldOpt(r.fromIfaces != [], Iifname(r.fromIfaces), pk, b);
    AllHoldOpt(r.toIfaces != [], Oifname(r.toIfaces), pk, b);
  }

  /** A line decides a packet exactly when the packet is of its family and meets the rule with that service. */
  lemma LineExact(r: RuleIR, v: Variant, m: ServiceMatch, pk: Packet, b: Blocklist)
    requires v in Variants(r) && IcmpOwnFamily(pk)
    ensures Decides(LineOf(r, v, m), pk, b) <==>
              && Applies(v, pk)
              && IfaceIn(r.fromIfaces, pk.iif) && IfaceIn(r.toIfaces, pk.oif)
              && AddrIn(r.srcPrefixes, pk.src) && AddrIn(r.dstPrefixes, pk.dst)
              && ServiceHolds(m, pk)
  {
    LineHolds(r, v, m, pk, b);
    match v {
      case AnyFamily =>
        assert r.srcPrefixes == [] && r.dstPrefixes == [];
      case Only(f) =>
        AddressPartExact(r, f, pk, b);
    }
    if Applies(v, pk) {
      ServicePartExact(m, v, pk, b);
    }
  }

  // ---- the whole block ----

  lemma {:induction false} LineIsListed(r: RuleIR, vs: seq<Variant>, svcs: seq<ServiceMatch>, i: nat, k: nat)
    requires i < |vs| && k < |svcs|
    ensures LineOf(r, vs[i], svcs[k]) in LinesOfVariants(r, vs, svcs)
  {
    var first := LinesOfVariant(r, vs[0], svcs);
    if i == 0 {
      assert first[k] in first;
    } else {
      LineIsListed(r, vs[1..], svcs, i - 1, k);
    }
  }

  lemma {:induction false} ListedIsLine(r: RuleIR, vs: seq<Variant>, svcs: seq<ServiceMatch>, s: Stmt)
    returns (i: nat, k: nat)
    requires s in LinesOfVariants(r, vs, svcs)
    ensures i < |vs| && k < |svcs| && s == LineOf(r, vs[i], svcs[k])
  {
    var first := LinesOfVariant(r, vs[0], svcs);
    if s in first {
      i := 0;
      k :| 0 <= k < |first| && first[k] == s;
    } else {
      i, k := ListedIsLine(r, vs[1..], svcs, s);
      i := i + 1;
    }
  }

  lemma {:induction false} LineCount(r: RuleIR, vs: seq<Variant>, svcs: seq<ServiceMatch>)
    ensures |LinesOfVariants(r, vs, svcs)| == |vs| * |svcs|
  {
    if vs != [] {
      LineCount(r, vs[1..], svcs);
      assert |vs| * |svcs| == |svcs| + (|vs| - 1) * |svcs|;
    }
  }

  /** If both sides admit the packet's addresses, there is a line for the packet's family. */
  lemma VariantForPacket(r: RuleIR, pk: Packet) returns (i: nat)
    requires AddrIn(r.srcPrefixes, pk.src) && AddrIn(r.dstPrefixes, pk.dst)
    ensures i < |Variants(r)| && Applies(Variants(r)[i], pk)
  {
    var f := FamilyOf(pk);
    OfFamilyMembers(r.srcPrefixes, f);
    OfFamilyMembers(r.dstPrefixes, f);
    if r.srcPrefixes == [] && r.dstPrefixes == [] {
      return 0;
    }
    if r.srcPrefixes != [] {
      var p :| p in r.srcPrefixes && Contains(p, pk.src);
      assert p in OfFamily(r.srcPrefixes, f);
    }
    if r.dstPrefixes != [] {
      var p :| p in r.dstPrefixes && Contains(p, pk.dst);
      assert p in OfFamily(r.dstPrefixes, f);
    }
    assert Admits(r.srcPrefixes, f) && Admits(r.dstPrefixes, f);
    assert Only(f) in Variants(r);
    i :| 0 <= i < |Variants(r)| && Variants(r)[i] == Only(f);
  }

  /** Some line of the block decides a packet exactly when the rule matches it. */
  lemma ExpansionExact(r: RuleIR, pk: Packet, b: Blocklist)
    requires LinesOf(r).Success? && IcmpOwnFamily(pk)
    ensures SomeDecides(LinesOf(r).value, pk, b) <==> IRMatches(r, pk)
  {
    var lines := LinesOf(r).value;
    if SomeDecides(lines, pk, b) {
      var s :| s in lines && Decides(s, pk, b);
      DecidedMatches(r, s, pk, b);
    }
    if IRMatches(r, pk) {
      var s := MatchedHasLine(r, pk, b);
    }
  }

  lemma DecidedMatches(r: RuleIR, s: Stmt, pk: Packet, b: Blocklist)
    requires LinesOf(r).Success? && IcmpOwnFamily(pk)
    requires s in LinesOf(r).value && Decides(s, pk, b)
    ensures IRMatches(r, pk)
  {
    var i, k := ListedIsLine(r, Variants(r), ServiceList(r), s);
    LineExact(r, Variants(r)[i], ServiceList(r)[k], pk, b);
    if r.services != [] {
      assert ServiceList(r)[k] in r.services;
    }
  }

  lemma MatchedHasLine(r: RuleIR, pk: Packet, b: Blocklist) returns (s: Stmt)
    requires LinesOf(r).Success? && IcmpOwnFamily(pk) && IRMatches(r, pk)
    ensures s in LinesOf(r).value && Decides(s, pk, b)
  {
    var i := VariantForPacket(r, pk);
    var k := 0;
    if r.services != [] {
      var m :| m in r.services && ServiceHolds(m, pk);
      k :| 0 <= k < |r.services| && r.services[k] == m;
    }
    s := LineOf(r, Variants(r)[i], ServiceList(r)[k]);
    LineExact(r, Variants(r)[i], ServiceList(r)[k], pk, b);
    LineIsListed(r, Variants(r), ServiceList(r), i, k);
  }

  /** The line names at least one address of family f. */
  predicate ConstrainsFamily(s: Stmt, f: Family) {
    exists m :: m in s.matches && ((m.Saddr? || m.Daddr?) && m.family == f && m.prefixes != []
                                   && forall p :: p in m.prefixes ==> p.addr.family == f)
  }

  /**
    The shape of a block: families times services lines, all with the rule's verdict, and each
    family line constrains an address of its own family, so it cannot catch the other one's packets.
   */
  lemma ExpansionShape(r: RuleIR)
    requires LinesOf(r).Success?
    ensures |LinesOf(r).value| == |Variants(r)| * (if r.services == [] then 1 else |r.services|)
    ensures 1 <= |Variants(r)| <= 2
    ensures forall s :: s in LinesOf(r).value ==> s.action == VerdictOf(r.action)
    ensures r.srcPrefixes != [] || r.dstPrefixes != [] ==>
              forall s :: s in LinesOf(r).value ==> ConstrainsFamily(s, V4) || ConstrainsFamily(s, V6)
  {
    LineCount(r, Variants(r), ServiceList(r));
    forall s | s in LinesOf(r).value
      ensures s.action == VerdictOf(r.action)
      ensures r.srcPrefixes != [] || r.dstPrefixes != [] ==> ConstrainsFamily(s, V4) || ConstrainsFamily(s, V6)
    {
      var i, k := ListedIsLine(r, Variants(r), ServiceList(r), s);
      if r.srcPrefixes != [] || r.dstPrefixes != [] {
        FamilyLineConstrained(r, Variants(r)[i].family, ServiceList(r)[k]);
      }
    }
  }

  lemma FamilyLineConstrained(r: RuleIR, f: Family, m: ServiceMatch)
    requires Only(f) in Variants(r)
    ensures ConstrainsFamily(LineOf(r, Only(f), m), f)
  {
    var src, dst := OfFamily(r.srcPrefixes, f), OfFamily(r.dstPrefixes, f);
    OfFamilyMembers(r.srcPrefixes, f);
    OfFamilyMembers(r.dstPrefixes, f);
    assert r.srcPrefixes != [] || r.dstPrefixes != [];
    var part := AddressMatches(r, Only(f));
    var line := LineOf(r, Only(f), m);
    forall x | x in part
      ensures x in line.matches
    {
    }
    if src != [] {
      assert Saddr(f, src) in part;
    } else {
      assert Daddr(f, dst) in part;
    }
  }

  // ---- the chain ----

  /** First match over resolved rules. */
  function FirstMatchIR(rules: seq<RuleIR>, policy: Action, pk: Packet): Action {
    if rules == [] then policy
    else if IRMatches(rules[0], pk) then VerdictOf(rules[0].action)
    else FirstMatchIR(rules[1..], policy, pk)
  }

  /** Concatenating the blocks preserves first-match. */
  lemma {:induction false} BlocksFirstMatch(rules: seq<RuleIR>, blocks: seq<seq<Stmt>>, policy: Action, pk: Packet,
                                            b: Blocklist)
    requires Traverse(LinesOf, rules) == Success(blocks) && IcmpOwnFamily(pk)
    ensures Run(Flatten(blocks), policy, pk, b) == FirstMatchIR(rules, policy, pk)
  {
    if rules != [] {
      BlocksFirstMatch(rules[1..], blocks[1..], policy, pk, b);
      ExpansionExact(rules[0], pk, b);
      ExpansionShape(rules[0]);
      RunUniform(blocks[0], VerdictOf(rules[0].action), Run(Flatten(blocks[1..]), policy, pk, b), pk, b);
      RunConcat(blocks[0], Flatten(blocks[1..]), policy, pk, b);
    }
  }
}
