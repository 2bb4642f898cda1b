/** Addresses, prefixes and packets, as far as a ruleset can see them. */
module Net {

  datatype Family = V4 | V6

  function Width(f: Family): nat {
    if f == V4 then 32 else 128
  }

  datatype RawAddr = Addr(family: Family, bits: seq<bool>)

  /** An address is a string of bits whose length is fixed by its family. */
  type Addr = a: RawAddr | |a.bits| == Width(a.family) witness Addr(V4, seq(32, i => false))

  datatype RawPrefix = Prefix(addr: Addr, len: nat)

  /** CIDR notation: host bits below the length are kept but never compared. */
  type Prefix = p: RawPrefix | p.len <= Width(p.addr.family)
    witness Prefix(Addr(V4, seq(32, i => false)), 0)

  /** Bit-prefix containment, section 3.1 of RFC 4632 and section 2.3 of RFC 4291. */
  predicate Contains(p: Prefix, a: Addr) {
    && a.family == p.addr.family
    && a.bits[..p.len] == p.addr.bits[..p.len]
  }

  predicate IsSingleIP(p: Prefix) {
    p.len == Width(p.addr.family)
  }

  /** A single-host prefix contains its own address and nothing else. */
  lemma SingleIPContains(p: Prefix, a: Addr)
    requires IsSingleIP(p)
    ensures Contains(p, a) <==> a == p.addr
  {
    assert p.addr.bits[..p.len] == p.addr.bits;
    if a.family == p.addr.family {
      assert a.bits[..p.len] == a.bits;
    }
  }

  datatype CtState = New | Established | Related | Invalid | Untracked

  // IANA protocol numbers.
  const TCP: nat := 6
  const UDP: nat := 17
  const ICMP: nat := 1
  const ICMPV6: nat := 58

  datatype RawPacket = Packet(iif: string, oif: string, src: Addr, dst: Addr, proto: nat, dport: nat, ct: CtState)

  /** A packet has one IP header, so both its addresses are of one family. */
  type Packet = p: RawPacket | p.src.family == p.dst.family
    witness Packet("", "", Addr(V4, seq(32, i => false)), Addr(V4, seq(32, i => false)), 0, 0, New)

  function FamilyOf(p: Packet): Family {
    p.src.family
  }

  /** ICMP travels under the protocol number of its own IP version. */
  predicate IcmpOwnFamily(p: Packet) {
    && (p.proto == ICMP ==> FamilyOf(p) == V4)
    && (p.proto == ICMPV6 ==> FamilyOf(p) == V6)
  }

  /** The contents of the two dynamic blocklist sets. */
  datatype Blocklist = Blocklist(v4: set<Prefix>, v6: set<Prefix>)

  predicate Listed(b: Blocklist, a: Addr) {
    exists p :: p in (if a.family == V4 then b.v4 else b.v6) && Contains(p, a)
  }
}
