/**
  The target language: chains of statements, each a list of matches and an action, evaluated the
  way the kernel evaluates an inet-family base chain.
 */
module Nft {
  import opened Basics
  import opened Net
  import opened IntermediateForm

  datatype Match =
    | Iifname(names: seq<string>)
    | Oifname(names: seq<string>)
    | Saddr(family: Family, prefixes: seq<Prefix>)
    | Daddr(family: Family, prefixes: seq<Prefix>)
    | L4proto(protos: seq<nat>)
    | Dport(proto: nat, ports: seq<PortRange>)
    | CtState(states: seq<CtState>)
    | SaddrListed(family: Family)
    | DaddrListed(family: Family)
    | TcpSyn

  datatype Action =
    | Continue        // counters, logging, MSS clamping: no decision
    | Accept | Drop | Reject
    | Queue(num: nat)
    | Dnat(dst: Addr, port: nat)
    | Snat(src: Addr)
    | Masquerade

  datatype Stmt = Stmt(matches: seq<Match>, action: Action)

  datatype Ruleset = Ruleset(intelSets: bool, forward: seq<Stmt>,
                             prerouting: Option<seq<Stmt>>, postrouting: Option<seq<Stmt>>)

  predicate InPrefixes(ps: seq<Prefix>, a: Addr) {
    exists p :: p in ps && Contains(p, a)
  }

  predicate InPorts(ports: seq<PortRange>, port: nat) {
    exists r :: r in ports && r.start <= port <= r.end
  }

  /** In an inet table an `ip` or `ip6` match also demands that IP version, and a `tcp` or `udp` match that protocol. */
  predicate Holds(m: Match, pk: Packet, b: Blocklist) {
    match m
    case Iifname(names) => pk.iif in names
    case Oifname(names) => pk.oif in names
    case Saddr(f, ps) => FamilyOf(pk) == f && InPrefixes(ps, pk.src)
    case Daddr(f, ps) => FamilyOf(pk) == f && InPrefixes(ps, pk.dst)
    case L4proto(protos) => pk.proto in protos
    case Dport(proto, ports) => pk.proto == proto && InPorts(ports, pk.dport)
    case CtState(states) => pk.ct in states
    case SaddrListed(f) => FamilyOf(pk) == f && Listed(b, pk.src)
    case DaddrListed(f) => FamilyOf(pk) == f && Listed(b, pk.dst)
    case TcpSyn => pk.proto == TCP
  }

  predicate AllHold(ms: seq<Match>, pk: Packet, b: Blocklist) {
    forall m :: m in ms ==> Holds(m, pk, b)
  }

  /** Does the statement end the evaluation? A translation to the other family leaves the packet alone. */
  predicate Decides(s: Stmt, pk: Packet, b: Blocklist) {
    && AllHold(s.matches, pk, b)
    && (match s.action
        case Continue => false
        case Dnat(to, _) => to.family == FamilyOf(pk)
        case Snat(to) => to.family == FamilyOf(pk)
        case _ => true)
  }

  /** The action of the first statement that decides, or the chain's policy. */
  function Run(chain: seq<Stmt>, policy: Action, pk: Packet, b: Blocklist): Action {
    if chain == [] then policy
    else if Decides(chain[0], pk, b) then chain[0].action
    else Run(chain[1..], policy, pk, b)
  }

  predicate SomeDecides(chain: seq<Stmt>, pk: Packet, b: Blocklist) {
    exists s :: s in chain && Decides(s, pk, b)
  }

  lemma {:induction false} RunConcat(a: seq<Stmt>, c: seq<Stmt>, policy: Action, pk: Packet, b: Blocklist)
    ensures Run(a + c, policy, pk, b) == Run(a, Run(c, policy, pk, b), pk, b)
  {
    if a == [] {
      assert a + c == c;
    } else {
      assert (a + c)[1..] == a[1..] + c;
      RunConcat(a[1..], c, policy, pk, b);
    }
  }

  /** A block of statements that share one action acts like a single statement. */
  lemma {:induction false} RunUniform(block: seq<Stmt>, action: Action, policy: Action, pk: Packet, b: Blocklist)
    requires forall s :: s in block ==> s.action == action
    ensures Run(block, policy, pk, b) == if SomeDecides(block, pk, b) then action else policy
  {
    if block != [] {
      assert block[0] in block;
      RunUniform(block[1..], action, policy, pk, b);
      if SomeDecides(block[1..], pk, b) {
        var s :| s in block[1..] && Decides(s, pk, b);
        assert s in block;
      }
      if SomeDecides(block, pk, b) && !Decides(block[0], pk, b) {
        var s :| s in block && Decides(s, pk, b);
        assert s in block[1..];
      }
    }
  }
}
