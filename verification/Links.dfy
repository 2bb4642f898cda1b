/** The global network section: which interfaces get which MTU, in which order. */
module LinkCompiler {
  import opened Basics
  import opened PolicyModel
  import opened WellFormedness
  import opened IntermediateForm

  function ZoneInterfaces(zones: seq<Zone>): seq<string> {
    if zones == [] then [] else zones[0].interfaces + ZoneInterfaces(zones[1..])
  }

  function MtuEntry(m: InterfaceMtu): (string, uint32) {
    (m.name, m.mtu)
  }

  function Overrides(ms: seq<InterfaceMtu>): map<string, uint32> {
    TableOf(seq(|ms|, i requires 0 <= i < |ms| => MtuEntry(ms[i])))
  }

  function MtuOf(name: string, global: uint32, override: map<string, uint32>): uint32 {
    if name in override then override[name] else global
  }

  /** Links for the interfaces not seen before, in order of first appearance. */
  function ZoneLinks(names: seq<string>, global: uint32, override: map<string, uint32>,
                     seen: set<string>): seq<LinkIR> {
    if names == [] then []
    else if names[0] in seen then ZoneLinks(names[1..], global, override, seen)
    else [LinkIR(names[0], MtuOf(names[0], global, override))]
         + ZoneLinks(names[1..], global, override, seen + {names[0]})
  }

  function ExtraLinks(ms: seq<InterfaceMtu>, seen: set<string>): seq<LinkIR> {
    if ms == [] then []
    else if ms[0].name in seen then ExtraLinks(ms[1..], seen)
    else [LinkIR(ms[0].name, ms[0].mtu)] + ExtraLinks(ms[1..], seen + {ms[0].name})
  }

  function MaxMtu(links: seq<LinkIR>): uint32 {
    if links == [] then 0
    else
      var m := MaxMtu(links[..|links| - 1]);
      if links[|links| - 1].mtu > m then links[|links| - 1].mtu else m
  }

  function CoveredBy(zones: seq<Zone>, n: Network): seq<string> {
    if n.mtu == 0 then [] else ZoneInterfaces(zones)
  }

  ghost function LinksOf(zones: seq<Zone>, n: Network): seq<LinkIR> {
    var covered := CoveredBy(zones, n);
    ZoneLinks(covered, n.mtu, Overrides(n.interfaceMtus), {})
    + ExtraLinks(n.interfaceMtus, Elems(covered))
  }

  ghost function NetworkOf(zones: seq<Zone>, network: Option<Network>, ids: Option<IdsIR>): Option<NetworkIR> {
    if network.None? then None
    else
      var n := network.value;
      var links := LinksOf(zones, n);
      var offload := if n.manageNicOffloads && ids.Some? && !ids.value.prevent then ids.value.interfaces else [];
      if links == [] && !n.clampMss && offload == [] then None
      else Some(NetworkIR(links, n.clampMss, offload, MaxMtu(links)))
  }

  lemma {:induction false} ZoneInterfacesFrom(zones: seq<Zone>, i: nat)
    requires i < |zones|
    ensures ZoneInterfaces(zones[i..]) == zones[i].interfaces + ZoneInterfaces(zones[i + 1..])
  {
    assert zones[i..][1..] == zones[i + 1..];
  }

  method CompileOverrides(ms: seq<InterfaceMtu>) returns (override: map<string, uint32>)
    ensures override == Overrides(ms)
  {
    override := map[];
    ghost var entries := seq(|ms|, i requires 0 <= i < |ms| => MtuEntry(ms[i]));
    for i := 0 to |ms|
      invariant override == TableOf(entries[..i])
    {
      override := override[ms[i].name := ms[i].mtu];
      assert entries[..i + 1][..i] == entries[..i];
    }
    assert entries[..|ms|] == entries;
  }

  lemma ZoneLinksFirst(names: seq<string>, global: uint32, override: map<string, uint32>, seen: set<string>)
    requires names != []
    ensures ZoneLinks(names, global, override, seen) ==
            if names[0] in seen then ZoneLinks(names[1..], global, override, seen)
            else
              var link := LinkIR(names[0], MtuOf(names[0], global, override));
              [link] + ZoneLinks(names[1..], global, override, seen + {names[0]})
  {
  }

  lemma {:induction false} ZoneLinksConcat(a: seq<string>, b: seq<string>,
                                           global: uint32, override: map<string, uint32>, seen: set<string>)
    ensures ZoneLinks(a + b, global, override, seen)
         == ZoneLinks(a, global, override, seen) + ZoneLinks(b, global, override, seen + Elems(a))
  {
    if a == [] {
      assert a + b == b && seen + Elems(a) == seen;
    } else {
      ZoneLinksFirst(a + b, global, override, seen);
      ZoneLinksFirst(a, global, override, seen);
      hide ZoneLinks, MtuOf;
      assert (a + b)[1..] == a[1..] + b && (a + b)[0] == a[0];
      var seen' := if a[0] in seen then seen else seen + {a[0]};
      ZoneLinksConcat(a[1..], b, global, override, seen');
      assert a == [a[0]] + a[1..];
      assert seen' + Elems(a[1..]) == seen + Elems(a);
      var first := [LinkIR(a[0], MtuOf(a[0], global, override))];
      var rest, more := ZoneLinks(a[1..], global, override, seen'), ZoneLinks(b, global, override, seen + Elems(a));
      MoveBrackets(first, rest, more, first + (rest + more));
    }
  }

  lemma ZoneLinksFrom(ifcs: seq<string>, k: nat, global: uint32, override: map<string, uint32>, seen: set<string>)
    requires k < |ifcs|
    ensures ZoneLinks(ifcs[k..], global, override, seen) ==
            if ifcs[k] in seen then ZoneLinks(ifcs[k + 1..], global, override, seen)
            else
              var link := LinkIR(ifcs[k], MtuOf(ifcs[k], global, override));
              [link] + ZoneLinks(ifcs[k + 1..], global, override, seen + {ifcs[k]})
  {
    assert ifcs[k..][1..] == ifcs[k + 1..];
  }

  /** One zone's interfaces. */
  method ClaimInterfaces(ifcs: seq<string>, global: uint32, override: map<string, uint32>, seen0: set<string>)
    returns (links: seq<LinkIR>, seen: set<string>)
    ensures links == ZoneLinks(ifcs, global, override, seen0)
    ensures seen == seen0 + Elems(ifcs)
  {
    links, seen := [], seen0;
    ghost var all := ZoneLinks(ifcs, global, override, seen0);
    assert ifcs[0..] == ifcs && [] + all == all;
    for k := 0 to |ifcs|
      invariant seen == seen0 + Elems(ifcs[..k])
      invariant links + ZoneLinks(ifcs[k..], global, override, seen) == all
    {
      var ifc := ifcs[k];
      ZoneLinksFrom(ifcs, k, global, override, seen);
      hide ZoneLinks, MtuOf;
      assert ifcs[..k + 1] == ifcs[..k] + [ifc];
      if ifc in seen {
        continue;
      }
      MoveBrackets(links, [LinkIR(ifc, MtuOf(ifc, global, override))],
                   ZoneLinks(ifcs[k + 1..], global, override, seen + {ifc}), all);
      seen := seen + {ifc};
      links := links + [LinkIR(ifc, MtuOf(ifc, global, override))];
    }
    assert ifcs[..|ifcs|] == ifcs && ifcs[|ifcs|..] == [] && links + [] == links;
  }

  method CompileZoneLinks(zones: seq<Zone>, global: uint32, override: map<string, uint32>)
    returns (links: seq<LinkIR>, seen: set<string>)
    ensures links == ZoneLinks(ZoneInterfaces(zones), global, override, {})
    ensures seen == Elems(ZoneInterfaces(zones))
  {
    links, seen := [], {};
    ghost var done: seq<string> := [];
    for i := 0 to |zones|
      invariant done + ZoneInterfaces(zones[i..]) == ZoneInterfaces(zones)
      invariant seen == Elems(done)
      invariant links == ZoneLinks(done, global, override, {})
    {
      ZoneInterfacesFrom(zones, i);
      ZoneLinksConcat(done, zones[i].interfaces, global, override, {});
      MoveBrackets(done, zones[i].interfaces, ZoneInterfaces(zones[i + 1..]), ZoneInterfaces(zones));
      hide ZoneLinks, ZoneInterfaces;
      assert seen == {} + Elems(done);
      var more;
      more, seen := ClaimInterfaces(zones[i].interfaces, global, override, seen);
      links := links + more;
      done := done + zones[i].interfaces;
    }
    assert done == ZoneInterfaces(zones);
  }

  method CompileExtraLinks(ms: seq<InterfaceMtu>, seen0: set<string>) returns (links: seq<LinkIR>)
    ensures links == ExtraLinks(ms, seen0)
  {
    links := [];
    var seen := seen0;
    for i := 0 to |ms|
      invariant ExtraLinks(ms, seen0) == links + ExtraLinks(ms[i..], seen)
    {
      var m := ms[i];
      assert ms[i..][1..] == ms[i + 1..];
      if m.name !in seen {
        seen := seen + {m.name};
        links := links + [LinkIR(m.name, m.mtu)];
      }
    }
  }

  method LargestMtu(links: seq<LinkIR>) returns (maxMtu: uint32)
    ensures maxMtu == MaxMtu(links)
  {
    maxMtu := 0;
    for i := 0 to |links|
      invariant maxMtu == MaxMtu(links[..i])
    {
      assert links[..i + 1][..i] == links[..i];
      if links[i].mtu > maxMtu {
        maxMtu := links[i].mtu;
      }
    }
    assert links[..|links|] == links;
  }

  /** Zone interfaces under the global MTU first, then the other overrides. */
  method CompileLinks(zones: seq<Zone>, n: Network) returns (links: seq<LinkIR>)
    ensures links == LinksOf(zones, n)
  {
    var override := CompileOverrides(n.interfaceMtus);
    var seen: set<string>;
    links, seen := [], {};
    if n.mtu != 0 {
      links, seen := CompileZoneLinks(zones, n.mtu, override);
    }
    assert seen == Elems(CoveredBy(zones, n));
    assert links == ZoneLinks(CoveredBy(zones, n), n.mtu, override, {});
    hide ZoneLinks, ExtraLinks, CoveredBy, Overrides;
    var extra := CompileExtraLinks(n.interfaceMtus, seen);
    links := links + extra;
  }

  method CompileNetwork(zones: seq<Zone>, network: Option<Network>, ids: Option<IdsIR>) returns (out: Option<NetworkIR>)
    ensures out == NetworkOf(zones, network, ids)
  {
    if network.None? {
      return None;
    }
    var n := network.value;
    hide LinksOf, MaxMtu;
    var links := CompileLinks(zones, n);
    var maxMtu := LargestMtu(links);
    var offload: seq<string> := [];
    if n.manageNicOffloads && ids.Some? && !ids.value.prevent {
      offload := ids.value.interfaces;
    }
    if |links| == 0 && !n.clampMss && |offload| == 0 {
      return None;
    }
    return Some(NetworkIR(links, n.clampMss, offload, maxMtu));
  }

  // ---- what the list of links is ----

  lemma {:induction false} MaxMtuIsMaximum(links: seq<LinkIR>)
    ensures forall l :: l in links ==> l.mtu <= MaxMtu(links)
    ensures links != [] ==> MaxMtu(links) == 0 || exists l :: l in links && l.mtu == MaxMtu(links)
  {
    if links != [] {
      var n := |links| - 1;
      MaxMtuIsMaximum(links[..n]);
      assert links == links[..n] + [links[n]];
    }
  }

  lemma {:induction false} ZoneLinksMembers(names: seq<string>, global: uint32, override: map<string, uint32>,
                                            seen: set<string>)
    ensures forall l :: l in ZoneLinks(names, global, override, seen) ==>
              l.ifc in names && l.ifc !in seen && l.mtu == MtuOf(l.ifc, global, override)
    ensures forall x :: x in names && x !in seen ==>
              LinkIR(x, MtuOf(x, global, override)) in ZoneLinks(names, global, override, seen)
  {
    if names != [] {
      if names[0] in seen {
        ZoneLinksMembers(names[1..], global, override, seen);
      } else {
        ZoneLinksMembers(names[1..], global, override, seen + {names[0]});
      }
    }
  }

  lemma {:induction false} ZoneLinksAre(names: seq<string>, global: uint32, override: map<string, uint32>,
                                        seen: set<string>)
    ensures forall l :: l in ZoneLinks(names, global, override, seen) ==>
              l.ifc in names && l.ifc !in seen && l.mtu == MtuOf(l.ifc, global, override)
    ensures forall x :: x in names && x !in seen ==>
              LinkIR(x, MtuOf(x, global, override)) in ZoneLinks(names, global, override, seen)
    ensures forall i, j :: 0 <= i < j < |ZoneLinks(names, global, override, seen)| ==>
              ZoneLinks(names, global, override, seen)[i].ifc != ZoneLinks(names, global, override, seen)[j].ifc
  {
    ZoneLinksMembers(names, global, override, seen);
    ZoneLinksDistinct(names, global, override, seen);
  }

  lemma {:induction false} ZoneLinksDistinct(names: seq<string>, global: uint32, override: map<string, uint32>,
                                             seen: set<string>)
    ensures forall i, j :: 0 <= i < j < |ZoneLinks(names, global, override, seen)| ==>
              ZoneLinks(names, global, override, seen)[i].ifc != ZoneLinks(names, global, override, seen)[j].ifc
  {
    if names != [] {
      if names[0] in seen {
        ZoneLinksDistinct(names[1..], global, override, seen);
      } else {
        var tail := ZoneLinks(names[1..], global, override, seen + {names[0]});
        ZoneLinksDistinct(names[1..], global, override, seen + {names[0]});
        ZoneLinksMembers(names[1..], global, override, seen + {names[0]});
        FirstIsNew(LinkIR(names[0], MtuOf(names[0], global, override)), tail);
      }
    }
  }

  lemma FirstIsNew(first: LinkIR, tail: seq<LinkIR>)
    requires forall l :: l in tail ==> l.ifc != first.ifc
    requires forall i, j :: 0 <= i < j < |tail| ==> tail[i].ifc != tail[j].ifc
    ensures forall i, j :: 0 <= i < j < |[first] + tail| ==> ([first] + tail)[i].ifc != ([first] + tail)[j].ifc
  {
    forall i, j | 0 <= i < j < |[first] + tail|
      ensures ([first] + tail)[i].ifc != ([first] + tail)[j].ifc
    {
      assert tail[j - 1] in tail;
    }
  }

  lemma {:induction false} ExtraLinksAre(ms: seq<InterfaceMtu>, seen: set<string>)
    requires forall i, j :: 0 <= i < j < |ms| ==> ms[i].name != ms[j].name
    ensures forall l :: l in ExtraLinks(ms, seen) ==> l.ifc !in seen && InterfaceMtu(l.ifc, l.mtu) in ms
    ensures forall m :: m in ms && m.name !in seen ==> LinkIR(m.name, m.mtu) in ExtraLinks(ms, seen)
    ensures forall i, j :: 0 <= i < j < |ExtraLinks(ms, seen)| ==>
              ExtraLinks(ms, seen)[i].ifc != ExtraLinks(ms, seen)[j].ifc
  {
    if ms != [] {
      assert forall i, j :: 0 <= i < j < |ms[1..]| ==> ms[1..][i].name != ms[1..][j].name;
      if ms[0].name in seen {
        ExtraLinksAre(ms[1..], seen);
      } else {
        ExtraLinksAre(ms[1..], seen + {ms[0].name});
        var tail := ExtraLinks(ms[1..], seen + {ms[0].name});
        assert forall j :: 0 <= j < |tail| ==> tail[j] in tail;
        assert forall m :: m in ms[1..] ==> m.name != ms[0].name;
      }
    }
  }

  /** Some interface gets its MTU from an override. */
  ghost predicate Overridden(n: Network, ifc: string, mtu: uint32) {
    InterfaceMtu(ifc, mtu) in n.interfaceMtus
  }

  ghost predicate HasOverride(n: Network, ifc: string) {
    exists m :: m in n.interfaceMtus && m.name == ifc
  }

  lemma OverridesAre(n: Network)
    requires NetworkOk(n)
    ensures forall i, j :: 0 <= i < j < |n.interfaceMtus| ==> n.interfaceMtus[i].name != n.interfaceMtus[j].name
    ensures forall x :: x in Overrides(n.interfaceMtus) <==> HasOverride(n, x)
    ensures forall x :: x in Overrides(n.interfaceMtus) ==> Overridden(n, x, Overrides(n.interfaceMtus)[x])
    ensures forall m :: m in n.interfaceMtus ==> MIN_MTU <= m.mtu <= MAX_MTU
  {
    var ms := n.interfaceMtus;
    var entries := seq(|ms|, i requires 0 <= i < |ms| => MtuEntry(ms[i]));
    forall j | 0 <= j < |ms|
      ensures MIN_MTU <= ms[j].mtu <= MAX_MTU
      ensures forall i :: 0 <= i < j ==> ms[i].name != ms[j].name
    {
      assert InterfaceMtuOk(n, j);
    }
    TableOfDistinct(entries);
    forall x | HasOverride(n, x)
      ensures x in Overrides(ms)
    {
      var m :| m in ms && m.name == x;
      var i :| 0 <= i < |ms| && ms[i] == m;
      assert entries[i].0 == x;
    }
    forall x | x in Overrides(ms)
      ensures Overridden(n, x, Overrides(ms)[x])
    {
      var i :| 0 <= i < |entries| && entries[i].0 == x;
      assert ms[i] == InterfaceMtu(x, Overrides(ms)[x]);
    }
  }

  /** Both parts of the list, with what is known about each. */
  lemma LinkParts(zones: seq<Zone>, n: Network) returns (first: seq<LinkIR>, second: seq<LinkIR>)
    requires NetworkOk(n)
    ensures LinksOf(zones, n) == first + second
    ensures forall l :: l in first ==>
              l.ifc in CoveredBy(zones, n) && l.mtu == MtuOf(l.ifc, n.mtu, Overrides(n.interfaceMtus))
    ensures forall l :: l in second ==> l.ifc !in CoveredBy(zones, n) && Overridden(n, l.ifc, l.mtu)
    ensures forall x :: x in CoveredBy(zones, n) ==> LinkIR(x, MtuOf(x, n.mtu, Overrides(n.interfaceMtus))) in first
    ensures forall m :: m in n.interfaceMtus && m.name !in CoveredBy(zones, n) ==> LinkIR(m.name, m.mtu) in second
    ensures forall i, j :: 0 <= i < j < |first| ==> first[i].ifc != first[j].ifc
    ensures forall i, j :: 0 <= i < j < |second| ==> second[i].ifc != second[j].ifc
  {
    var covered, override := CoveredBy(zones, n), Overrides(n.interfaceMtus);
    OverridesAre(n);
    ZoneLinksAre(covered, n.mtu, override, {});
    ExtraLinksAre(n.interfaceMtus, Elems(covered));
    first, second := ZoneLinks(covered, n.mtu, override, {}), ExtraLinks(n.interfaceMtus, Elems(covered));
  }

  /** A global MTU is set and a zone has the interface. */
  ghost predicate GloballyManaged(zones: seq<Zone>, n: Network, ifc: string) {
    n.mtu != 0 && exists z :: z in zones && ifc in z.interfaces
  }

  lemma {:induction false} ZoneInterfacesAre(zones: seq<Zone>, ifc: string)
    ensures ifc in ZoneInterfaces(zones) <==> exists z :: z in zones && ifc in z.interfaces
  {
    if zones != [] {
      ZoneInterfacesAre(zones[1..], ifc);
      assert zones == [zones[0]] + zones[1..];
    }
  }

  lemma CoveredAre(zones: seq<Zone>, n: Network)
    ensures forall ifc :: ifc in CoveredBy(zones, n) <==> GloballyManaged(zones, n, ifc)
  {
    forall ifc
      ensures ifc in CoveredBy(zones, n) <==> GloballyManaged(zones, n, ifc)
    {
      ZoneInterfacesAre(zones, ifc);
    }
  }

  /**
    Every managed interface is listed exactly once, zone interfaces before the extra ones; the
    managed interfaces are the zones' (when a global MTU is set) and the overridden ones.
   */
  lemma ManagedOnce(zones: seq<Zone>, n: Network)
    requires NetworkOk(n)
    ensures var links := LinksOf(zones, n);
            && (forall i, j :: 0 <= i < j < |links| ==> links[i].ifc != links[j].ifc)
            && (forall i, j :: 0 <= i < j < |links| && GloballyManaged(zones, n, links[j].ifc) ==>
                GloballyManaged(zones, n, links[i].ifc))
    ensures forall ifc ::
              (exists l :: l in LinksOf(zones, n) && l.ifc == ifc)
              <==> GloballyManaged(zones, n, ifc) || HasOverride(n, ifc)
  {
    CoveredAre(zones, n);
    var first, second := LinkParts(zones, n);
    var links, covered := LinksOf(zones, n), CoveredBy(zones, n);
    forall i, j | 0 <= i < j < |links|
      ensures links[i].ifc != links[j].ifc
      ensures links[j].ifc in covered ==> links[i].ifc in covered
    {
      if i < |first| {
        assert links[i] in first;
      }
      if j >= |first| {
        assert links[j] in second;
      }
    }
    forall ifc
      ensures (exists l :: l in links && l.ifc == ifc) <==> ifc in covered || HasOverride(n, ifc)
    {
      if ifc in covered {
        assert LinkIR(ifc, MtuOf(ifc, n.mtu, Overrides(n.interfaceMtus))) in first;
      } else if HasOverride(n, ifc) {
        var m :| m in n.interfaceMtus && m.name == ifc;
        assert LinkIR(m.name, m.mtu) in second;
      }
      if l :| l in links && l.ifc == ifc {
        if l in second {
          assert HasOverride(n, ifc);
        }
      }
    }
  }

  /** An override beats the global value, every MTU is between 1280 and 9600, and the recorded maximum is attained. */
  lemma MtuValues(zones: seq<Zone>, n: Network)
    requires NetworkOk(n)
    ensures forall l :: l in LinksOf(zones, n) ==>
              && 1280 <= l.mtu <= 9600
              && l.mtu <= MaxMtu(LinksOf(zones, n))
              && if HasOverride(n, l.ifc) then Overridden(n, l.ifc, l.mtu) else l.mtu == n.mtu
    ensures LinksOf(zones, n) != [] ==> exists l :: l in LinksOf(zones, n) && l.mtu == MaxMtu(LinksOf(zones, n))
  {
    var first, second := LinkParts(zones, n);
    var links := LinksOf(zones, n);
    OverridesAre(n);
    MaxMtuIsMaximum(links);
    forall l | l in links
      ensures 1280 <= l.mtu <= 9600
      ensures if HasOverride(n, l.ifc) then Overridden(n, l.ifc, l.mtu) else l.mtu == n.mtu
    {
      if l in first {
        assert n.mtu != 0;
      } else {
        assert l in second;
      }
    }
    if links != [] {
      assert links[0] in links;
    }
  }
}
