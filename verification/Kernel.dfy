/**
  From the policies to the kernel: the routes and the tunnel links that are there once the engines have
  applied what was printed for them.
 */
module KernelTheorems {
  import opened Basics
  import opened CommitProtocol
  import opened CompiledForm
  import opened Compiler
  import opened EngineArtifacts
  import opened EngineTraces
  import opened IntermediateForm
  import opened Net
  import opened NetText
  import opened PolicyModel
  import opened PolicyService
  import opened PolicyStore
  import opened RenderPipeline
  import opened Text
  import opened WellFormedness
  import Routes
  import Wireguard
  import WireguardEngine

  // ---- routes, from the policies of a run to the table ----

  ghost function RouteTexts(p: Policy): set<string> {
    set r | r in p.routes && r.destination.Some? :: PrefixText(r.destination.value)
  }

  /** No device text of the policy carries on past a newline, or nothing but white space comes after it. */
  predicate PolicyDevsFit(p: Policy) {
    forall r :: r in p.routes ==> ('\n' in r.dev ==> r.metric == 0 && Blank(Cut(r.dev, '\n').1))
  }

  lemma CompiledRoutes(p: Policy)
    requires Compiled(p).Success?
    ensures WellFormed(p) && Traverse(RouteOf, p.routes) == Success(Compiled(p).value.routes)
  {
    hide SymbolsOf, IdsOf;
  }

  lemma RouteMeans(r: StaticRoute)
    requires RouteOf(r).Success?
    ensures r.destination.Some?
    ensures RouteOf(r).value.destination == r.destination.value
    ensures forall a :: RouteOf(r).value.via == Some(a) <==> r.via == Hop(a)
    ensures RouteOf(r).value.dev == r.dev && RouteOf(r).value.metric == r.metric
  {
  }

  /** The compiled routes are the policy's, one by one and field by field; each leads to a gateway or a device. */
  lemma RoutesAreListed(p: Policy)
    requires Compiled(p).Success?
    ensures var irs := Compiled(p).value.routes;
            && |irs| == |p.routes|
            && forall i :: 0 <= i < |irs| ==>
                 && p.routes[i].destination == Some(irs[i].destination)
                 && (forall a :: irs[i].via == Some(a) <==> p.routes[i].via == Hop(a))
                 && irs[i].dev == p.routes[i].dev && irs[i].metric == p.routes[i].metric
                 && (irs[i].via.Some? || irs[i].dev != "")
  {
    CompiledRoutes(p);
    hide Compiled, RouteOf;
    TraverseElements(RouteOf, p.routes);
    var irs := Compiled(p).value.routes;
    forall i | 0 <= i < |irs|
      ensures p.routes[i].destination == Some(irs[i].destination)
      ensures forall a :: irs[i].via == Some(a) <==> p.routes[i].via == Hop(a)
      ensures irs[i].dev == p.routes[i].dev && irs[i].metric == p.routes[i].metric
      ensures irs[i].via.Some? || irs[i].dev != ""
    {
      assert RouteOf(p.routes[i]) == Success(irs[i]);
      RouteMeans(p.routes[i]);
      assert RouteOk(p.routes[i]);
      if p.routes[i].via.Hop? {
        assert irs[i].via == Some(p.routes[i].via.addr);
      }
    }
  }

  /** No device of the policy has white space. */
  predicate DevsAreWords(p: Policy) {
    forall r :: r in p.routes ==> r.dev == "" || IsWord(r.dev)
  }

  function HopOf(via: NextHop): Option<Addr> {
    if via.Hop? then Some(via.addr) else None
  }

  /**
    From the policy to the printed batch: there is one line for each route, which gives its destination,
    and its next hop, device and metric exactly if it has one; and, devices being words, these are the
    lines and words that the engine reads.
   */
  lemma RoutesArePrinted(p: Policy)
    requires Compiled(p).Success?
    ensures var text := Routes.Artifact(Compiled(p).value.routes);
            exists ls: seq<string> ::
              && text == Unlines(ls) && |ls| == |p.routes|
              && (DevsAreWords(p) ==> Lines(text) == ls)
              && forall i :: 0 <= i < |ls| ==> RoutePrinted(p.routes[i], ls[i])
  {
    RoutesAreListed(p);
    var irs := Compiled(p).value.routes;
    var ls := Routes.LinesOf(irs);
    hide Compiled, PrefixText, AddrText, Fields, Routes.LineOf, Routes.IsRouteLine, Routes.WordsSay, Lines;
    forall i | 0 <= i < |ls|
      ensures RoutePrinted(p.routes[i], ls[i])
    {
      var r, ir := p.routes[i], irs[i];
      if r.via.Hop? {
        assert ir.via == Some(r.via.addr);
      }
      assert ir.via == HopOf(r.via);
      Routes.LineIs(ir);
      if r.dev == "" || IsWord(r.dev) {
        Routes.LineSays(ir);
      }
    }
    if DevsAreWords(p) {
      forall ir | ir in irs
        ensures ir.dev == "" || IsWord(ir.dev)
      {
        var i :| 0 <= i < |irs| && irs[i] == ir;
        assert p.routes[i] in p.routes;
      }
      Routes.ArtifactSays(irs);
    }
  }

  ghost predicate RoutePrinted(r: StaticRoute, line: string) {
    && r.destination.Some?
    && var dest := PrefixText(r.destination.value);
    && (exists m :: Routes.IsRouteLine(line, dest, HopOf(r.via), r.dev, r.metric, m))
    && (r.dev == "" || IsWord(r.dev) ==> Routes.WordsSay(Fields(line), dest, HopOf(r.via), r.dev, r.metric))
  }

  lemma RoutesMean(p: Policy)
    requires Compiled(p).Success?
    ensures Elems(Routes.RouteDests(Compiled(p).value.routes)) == RouteTexts(p)
    ensures Routes.DevsFit(Compiled(p).value.routes) <==> PolicyDevsFit(p)
  {
    RoutesAreListed(p);
    hide Compiled, PrefixText, Blank, Cut;
    var irs := Compiled(p).value.routes;
    SameTexts(p.routes, irs);
    SameDevs(p.routes, irs);
  }

  lemma SameTexts(rs: seq<StaticRoute>, irs: seq<RouteIR>)
    requires |rs| == |irs| && forall i :: 0 <= i < |irs| ==> rs[i].destination == Some(irs[i].destination)
    ensures Elems(Routes.RouteDests(irs)) == set r | r in rs && r.destination.Some? :: PrefixText(r.destination.value)
  {
    hide PrefixText;
    var texts := set r | r in rs && r.destination.Some? :: PrefixText(r.destination.value);
    var dests := Routes.RouteDests(irs);
    forall i | 0 <= i < |irs|
      ensures dests[i] in texts
    {
      assert rs[i] in rs && dests[i] == PrefixText(rs[i].destination.value);
    }
    forall x | x in texts
      ensures x in dests
    {
      var r :| r in rs && r.destination.Some? && PrefixText(r.destination.value) == x;
      var i :| 0 <= i < |rs| && rs[i] == r;
      assert dests[i] == x;
    }
  }

  lemma SameDevs(rs: seq<StaticRoute>, irs: seq<RouteIR>)
    requires |rs| == |irs| && forall i :: 0 <= i < |irs| ==> irs[i].dev == rs[i].dev && irs[i].metric == rs[i].metric
    ensures Routes.DevsFit(irs)
            <==> forall r :: r in rs ==> ('\n' in r.dev ==> r.metric == 0 && Blank(Cut(r.dev, '\n').1))
  {
    hide Blank, Cut;
    if Routes.DevsFit(irs) {
      forall r | r in rs && '\n' in r.dev
        ensures r.metric == 0 && Blank(Cut(r.dev, '\n').1)
      {
        var i :| 0 <= i < |rs| && rs[i] == r;
        assert irs[i] in irs && Routes.DevFits(irs[i]);
      }
    } else {
      var r :| r in irs && !Routes.DevFits(r);
      var i :| 0 <= i < |irs| && irs[i] == r;
      assert rs[i] in rs;
    }
  }

  ghost predicate AllCompiled(ps: seq<Policy>) {
    forall p :: p in ps ==> Compiled(p).Success? && PolicyDevsFit(p)
  }

  ghost function RoutesOf(ps: seq<Policy>): seq<seq<RouteIR>>
    requires AllCompiled(ps)
  {
    seq(|ps|, i requires 0 <= i < |ps| => assert ps[i] in ps; Compiled(ps[i]).value.routes)
  }

  ghost function EverRouted(ps: seq<Policy>): set<string> {
    if ps == [] then {} else RouteTexts(ps[0]) + EverRouted(ps[1..])
  }

  lemma {:induction false} NamedAreRouted(ps: seq<Policy>)
    requires AllCompiled(ps)
    ensures Routes.EverNamed(RoutesOf(ps)) == EverRouted(ps)
  {
    hide Compiled, RouteTexts, Routes.RouteDests, PolicyDevsFit, Routes.DevsFit;
    if ps != [] {
      assert ps[0] in ps && forall p :: p in ps[1..] ==> p in ps;
      RoutesMean(ps[0]);
      NamedAreRouted(ps[1..]);
      assert RoutesOf(ps)[0] == Compiled(ps[0]).value.routes && RoutesOf(ps)[1..] == RoutesOf(ps[1..]);
    }
  }

  /**
    From the policies to the routing table: after the routes of one policy after the other have been
    applied, a destination has a route if and only if the last policy names it, or it had one at the
    start and neither the first state file nor any of the policies names it.
   */
  lemma PolicyRoutesApplied(table: set<string>, state: string, ps: seq<Policy>, x: string)
    requires ps != [] && AllCompiled(ps)
    ensures x in Routes.TableAfter(table, state, Routes.Artifacts(RoutesOf(ps)))
            <==> x in RouteTexts(ps[|ps| - 1])
                 || (x in table && x !in Routes.DestSet(state) && x !in EverRouted(ps))
  {
    hide Compiled, RouteTexts, Routes.RouteDests, Routes.TableAfter, Routes.Artifacts, Routes.DevsFit;
    var rss := RoutesOf(ps);
    forall rs | rs in rss
      ensures Routes.DevsFit(rs)
    {
      var i :| 0 <= i < |ps| && rss[i] == rs;
      assert ps[i] in ps;
      RoutesMean(ps[i]);
    }
    Routes.RoutesApplied(table, state, rss);
    NamedAreRouted(ps);
    assert ps[|ps| - 1] in ps;
    RoutesMean(ps[|ps| - 1]);
  }

  // ---- tunnels, from the policies of a run to the links ----

  function TunnelNames(p: Policy): seq<string> {
    seq(|p.wireguard|, i requires 0 <= i < |p.wireguard| => p.wireguard[i].name)
  }

  /** Every tunnel of the policy reads back from its artifact. */
  ghost predicate TunnelsFit(p: Policy) {
    Compiled(p).Success? && Wireguard.AllTidy(Compiled(p).value.wireguard)
  }

  lemma CompiledTunnels(p: Policy)
    requires Compiled(p).Success?
    ensures WellFormed(p) && Traverse(TunnelOf, p.wireguard) == Success(Compiled(p).value.wireguard)
  {
    hide SymbolsOf, IdsOf, WellFormed;
  }

  lemma TunnelNamed(w: WireguardInterface)
    requires TunnelOf(w).Success?
    ensures TunnelOf(w).value.name == w.name
  {
  }

  /** The compiled tunnels have the policy's names, one by one, and these are names. */
  lemma TunnelsAreListed(p: Policy)
    requires Compiled(p).Success?
    ensures var ws := Compiled(p).value.wireguard;
            && |ws| == |p.wireguard|
            && forall i :: 0 <= i < |ws| ==> ws[i].name == p.wireguard[i].name != ""
  {
    CompiledTunnels(p);
    hide Compiled, TunnelOf;
    TraverseElements(TunnelOf, p.wireguard);
    var ws := Compiled(p).value.wireguard;
    forall i | 0 <= i < |ws|
      ensures ws[i].name == p.wireguard[i].name != ""
    {
      assert TunnelOf(p.wireguard[i]) == Success(ws[i]);
      TunnelNamed(p.wireguard[i]);
      assert WireguardOk(p.wireguard, i);
    }
  }

  lemma ViewNames(ws: seq<WireguardIR>)
    ensures |WireguardEngine.NamesOf(Wireguard.Views(ws))| == |ws|
    ensures forall i :: 0 <= i < |ws| ==> WireguardEngine.NamesOf(Wireguard.Views(ws))[i] == ws[i].name
  {
    hide PrefixText, Wireguard.PeerViews;
  }

  lemma NamesAgree(p: Policy, ws: seq<WireguardIR>)
    requires |ws| == |p.wireguard| && forall i :: 0 <= i < |ws| ==> ws[i].name == p.wireguard[i].name != ""
    requires Wireguard.AllTidy(ws)
    ensures WireguardEngine.NamesOf(Wireguard.Views(ws)) == TunnelNames(p)
    ensures WireguardEngine.Names(TunnelNames(p))
  {
    ViewNames(ws);
    hide Tidy, WireguardEngine.NamesOf, Wireguard.Views;
    forall n | n in TunnelNames(p)
      ensures Tidy(n) && n != ""
    {
      var i :| 0 <= i < |ws| && TunnelNames(p)[i] == n;
      assert ws[i] in ws && Wireguard.TunnelTidy(ws[i]);
    }
  }

  /** The names the engine reads out of the artifact are the policy's. */
  lemma TunnelsMean(p: Policy)
    requires TunnelsFit(p)
    ensures var parsed := Wireguard.Fold([], Lines(Wireguard.Artifact(Compiled(p).value.wireguard)));
            parsed.Success? && WireguardEngine.NamesOf(parsed.value) == TunnelNames(p)
    ensures WireguardEngine.Names(TunnelNames(p))
  {
    TunnelsAreListed(p);
    var ws := Compiled(p).value.wireguard;
    Wireguard.RoundTripIff(ws);
    NamesAgree(p, ws);
    hide Compiled, Wireguard.Fold, Lines, Wireguard.Artifact, Wireguard.Views, Tidy, TunnelNames,
      WireguardEngine.NamesOf, WireguardEngine.Names, Wireguard.AllTidy;
  }

  /** The text of a number that is left out when it is 0. */
  predicate ReadsNumber(text: string, n: nat) {
    if n == 0 then text == "" else IsNumeral(text) && NumberOf(text) == n
  }

  /** What the engine has read of a peer is the policy's: the key, the endpoint, each prefix, and the keepalive. */
  predicate PeerRead(q: WireguardPeer, x: Wireguard.WgPeer) {
    && x.publicKey == q.publicKey && x.endpoint == q.endpoint && ReadsNumber(x.keepalive, q.keepalive)
    && var texts := Split(x.allowedIps, ',');
    && |texts| == |q.allowedIps|
    && forall k :: 0 <= k < |texts| ==> q.allowedIps[k].Some? && texts[k] == PrefixText(q.allowedIps[k].value)
  }

  predicate TunnelRead(w: WireguardInterface, x: Wireguard.WgIface) {
    && x.name == w.name && w.address.Some? && x.address == PrefixText(w.address.value)
    && ReadsNumber(x.listenPort, w.listenPort) && x.privateKeyFile == w.privateKeyFile
    && |x.peers| == |w.peers| && forall k :: 0 <= k < |w.peers| ==> PeerRead(w.peers[k], x.peers[k])
  }

  lemma NumberRead(n: nat)
    ensures ReadsNumber(Wireguard.NumText(n), n)
  {
    DecReads(n);
  }

  lemma PeerIsRead(q: WireguardPeer, x: WireguardPeerIR)
    requires PeerIs(q, x)
    ensures PeerRead(q, Wireguard.PeerView(x))
  {
    NumberRead(x.keepalive);
    var texts := PrefixTexts(x.allowedIps);
    hide ReadsNumber, PrefixText;
    forall t | t in texts
      ensures ',' !in t
    {
      var k :| 0 <= k < |texts| && texts[k] == t;
      PrefixTextWord(x.allowedIps[k]);
    }
    SplitJoin(texts, ',');
    assert [','] == ",";
  }

  lemma TunnelIsRead(w: WireguardInterface, x: WireguardIR)
    requires TunnelIs(w, x)
    ensures TunnelRead(w, Wireguard.View(x))
  {
    NumberRead(x.listenPort);
    hide ReadsNumber, PrefixText, PeerRead, PeerIs, Wireguard.PeerView, Wireguard.NumText;
    forall k | 0 <= k < |w.peers|
      ensures PeerRead(w.peers[k], Wireguard.View(x).peers[k])
    {
      PeerIsRead(w.peers[k], x.peers[k]);
    }
  }

  /** The engine reads every tunnel and every peer of the policy, field by field, where the texts are tidy. */
  lemma TunnelsAreRead(p: Policy)
    requires TunnelsFit(p)
    ensures var parsed := Wireguard.Fold([], Lines(Wireguard.Artifact(Compiled(p).value.wireguard)));
            && parsed.Success? && |parsed.value| == |p.wireguard|
            && forall i :: 0 <= i < |p.wireguard| ==> TunnelRead(p.wireguard[i], parsed.value[i])
  {
    TunnelsAre(p);
    var ws := Compiled(p).value.wireguard;
    Wireguard.RoundTripIff(ws);
    hide Compiled, Wireguard.Fold, Lines, Wireguard.Artifact, TunnelRead, TunnelIs, Wireguard.View, Wireguard.AllTidy;
    forall i | 0 <= i < |p.wireguard|
      ensures TunnelRead(p.wireguard[i], Wireguard.Views(ws)[i])
    {
      TunnelIsRead(p.wireguard[i], ws[i]);
    }
  }

  function AllTunnelNames(ps: seq<Policy>): seq<seq<string>> {
    seq(|ps|, i requires 0 <= i < |ps| => TunnelNames(ps[i]))
  }

  ghost function EverTunnelled(ps: seq<Policy>): set<string> {
    if ps == [] then {} else Elems(TunnelNames(ps[0])) + EverTunnelled(ps[1..])
  }

  lemma {:induction false} NamedAreTunnelled(ps: seq<Policy>)
    ensures WireguardEngine.EverNamed(AllTunnelNames(ps)) == EverTunnelled(ps)
  {
    hide TunnelNames;
    if ps != [] {
      NamedAreTunnelled(ps[1..]);
      assert AllTunnelNames(ps)[1..] == AllTunnelNames(ps[1..]);
    }
  }

  /**
    From the policies to the links: after the tunnels of one policy after the other have been applied,
    a link is there if and only if the last policy names it, or it was there at the start and neither the
    first state file nor any of the policies names it.
   */
  lemma PolicyLinksApplied(links: set<string>, state: string, ps: seq<Policy>, x: string)
    requires ps != [] && forall p :: p in ps ==> TunnelsFit(p)
    ensures x in WireguardEngine.LinksRun(links, state, WireguardEngine.Successes(AllTunnelNames(ps)))
            <==> x in TunnelNames(ps[|ps| - 1]) || (x in links && x !in Lines(state) && x !in EverTunnelled(ps))
  {
    hide TunnelsFit, Lines, TunnelNames, WireguardEngine.LinksRun, WireguardEngine.EverNamed, EverTunnelled,
      WireguardEngine.Names, WireguardEngine.Successes;
    var nss := AllTunnelNames(ps);
    forall ns | ns in nss
      ensures WireguardEngine.Names(ns)
    {
      var i :| 0 <= i < |ps| && nss[i] == ns;
      assert ps[i] in ps;
      TunnelsMean(ps[i]);
    }
    WireguardEngine.NamesApplied(links, state, nss);
    NamedAreTunnelled(ps);
  }

  // ---- from the commit protocol to the kernel ----

  predicate RouteStepDone(s: Routes.Step) {
    s.Succeeded?
  }

  predicate RouteStepOf(s: Routes.Step, text: string) {
    s.config == text
  }

  /** Where the trace of the routes engine ends: its last step is a successful one of the running policy's artifact. */
  lemma LastRouteStep(s: Sys, names: seq<EngineName>, o: Options, calls: seq<Call>, was: bool, before: seq<Act>, i: nat,
                      steps: seq<Routes.Step>)
    requires Invariant(s, NodeOf(names, o)) && WorldsFit(calls, NodeOf(names, o))
    requires i < |names| && names[i] == RoutesEngine && (was ==> EndsOn(before, OnOf(s, NodeOf(names, o), i)))
    requires Trusted(s, NodeOf(names, o), calls, was)
    requires Tells(steps, RouteStepDone, RouteStepOf, before + Trace(s, NodeOf(names, o), calls, i))
    ensures var p := Running(Played(s, NodeOf(names, o), calls).history);
            && Compiled(p).Success? && steps != [] && steps[|steps| - 1].Succeeded?
            && steps[|steps| - 1].config == Routes.Artifact(Compiled(p).value.routes)
  {
    var n := NodeOf(names, o);
    var now := Played(s, n, calls);
    TraceEndsOnRunning(s, n, calls, was, before, i);
    RouteArtifact(now, names, o, i);
    hide Played, Trace, Tells, OnOf, Compiled, Routes.Artifact, Running, Renders, Sound, EndsOn, Trusted, TextOf;
    LastStepIs(steps, RouteStepDone, RouteStepOf, before + Trace(s, n, calls, i), OnOf(now, n, i));
  }

  lemma FittingRoutes(p: Policy)
    requires Compiled(p).Success? && PolicyDevsFit(p)
    ensures Routes.DestSet(Routes.Artifact(Compiled(p).value.routes)) == RouteTexts(p)
  {
    RoutesMean(p);
    Routes.RenderedReadsBackIff(Compiled(p).value.routes);
    hide Compiled, Routes.Artifact, RouteTexts, Routes.RouteDests, Lines, Routes.DevsFit, PolicyDevsFit;
  }

  /**
    In a run of calls after which the engines are known to hold the running policy, let the routes engine
    take what the supervisor asks of it, some applies ending half-way. Then every destination of the
    running policy has a route; and another one has a route only if it had one before and was never
    recorded, or some apply left it astray.
   */
  lemma RunningRoutesInKernel(s: Sys, names: seq<EngineName>, o: Options, calls: seq<Call>, was: bool, before: seq<Act>,
                              i: nat,
                              table: set<string>, state: string, steps: seq<Routes.Step>)
    requires Invariant(s, NodeOf(names, o)) && WorldsFit(calls, NodeOf(names, o))
    requires i < |names| && names[i] == RoutesEngine && (was ==> EndsOn(before, OnOf(s, NodeOf(names, o), i)))
    requires Trusted(s, NodeOf(names, o), calls, was)
    requires Tells(steps, RouteStepDone, RouteStepOf, before + Trace(s, NodeOf(names, o), calls, i)) &&
             Routes.AllAccepted(steps)
    requires PolicyDevsFit(Running(Played(s, NodeOf(names, o), calls).history))
    ensures var running := RouteTexts(Running(Played(s, NodeOf(names, o), calls).history));
            var after := Routes.TableRun(table, state, steps);
            && running <= after <= running + Routes.Strays(state, steps) + (table - Routes.Recorded(state, steps))
            && forall x :: x !in Routes.Recorded(state, steps) + Routes.Strays(state, steps) ==>
                 (x in after <==> x in table)
  {
    LastRouteStep(s, names, o, calls, was, before, i, steps);
    FittingRoutes(Running(Played(s, NodeOf(names, o), calls).history));
    hide *;
    Routes.FailuresReconcile(table, state, steps);
  }

  lemma RouteArtifact(s: Sys, names: seq<EngineName>, o: Options, i: nat)
    requires Invariant(s, NodeOf(names, o)) && i < |names| && names[i] == RoutesEngine
    ensures Compiled(Running(s.history)).Success?
    ensures TextOf(OnOf(s, NodeOf(names, o), i)) == Routes.Artifact(Compiled(Running(s.history)).value.routes)
  {
    RunningRenders(s, NodeOf(names, o));
    PrintedTexts(Running(s.history), o);
    hide ArtifactsOf, Compiled, Routes.Artifact, Wireguard.Artifact, Running;
  }

  lemma TunnelArtifact(s: Sys, names: seq<EngineName>, o: Options, i: nat)
    requires Invariant(s, NodeOf(names, o)) && i < |names| && names[i] == EngineArtifacts.WireguardEngine
    ensures Compiled(Running(s.history)).Success?
    ensures TextOf(OnOf(s, NodeOf(names, o), i)) == Wireguard.Artifact(Compiled(Running(s.history)).value.wireguard)
  {
    RunningRenders(s, NodeOf(names, o));
    PrintedTexts(Running(s.history), o);
    hide ArtifactsOf, Compiled, Routes.Artifact, Wireguard.Artifact, Running;
  }

  predicate LinkStepDone(s: WireguardEngine.Step) {
    s.Succeeded?
  }

  /** A step that gets to the end has the names that the engine reads in the text. */
  predicate LinkStepOf(s: WireguardEngine.Step, text: string) {
    s.Aborted?
    || (Wireguard.Fold([], Lines(text)).Success?
        && s.names == WireguardEngine.NamesOf(Wireguard.Fold([], Lines(text)).value))
  }

  lemma LastLinkStep(s: Sys, names: seq<EngineName>, o: Options, calls: seq<Call>, was: bool, before: seq<Act>, i: nat,
                     steps: seq<WireguardEngine.Step>)
    requires Invariant(s, NodeOf(names, o)) && WorldsFit(calls, NodeOf(names, o))
    requires i < |names| && names[i] == EngineArtifacts.WireguardEngine
    requires was ==> EndsOn(before, OnOf(s, NodeOf(names, o), i))
    requires Trusted(s, NodeOf(names, o), calls, was)
    requires Tells(steps, LinkStepDone, LinkStepOf, before + Trace(s, NodeOf(names, o), calls, i))
    requires TunnelsFit(Running(Played(s, NodeOf(names, o), calls).history))
    ensures steps != [] && steps[|steps| - 1].Succeeded?
    ensures steps[|steps| - 1].names == TunnelNames(Running(Played(s, NodeOf(names, o), calls).history))
  {
    var n := NodeOf(names, o);
    var now := Played(s, n, calls);
    TraceEndsOnRunning(s, n, calls, was, before, i);
    TunnelArtifact(now, names, o, i);
    TunnelsMean(Running(now.history));
    hide Played, Trace, Tells, OnOf, Compiled, Wireguard.Artifact, Wireguard.Fold, Lines, Running, Renders, Sound,
      EndsOn, Trusted, TextOf, TunnelNames, TunnelsFit, WireguardEngine.NamesOf, WireguardEngine.Names;
    LastStepIs(steps, LinkStepDone, LinkStepOf, before + Trace(s, n, calls, i), OnOf(now, n, i));
  }

  /** The same for the links of the tunnels. */
  lemma RunningLinksInKernel(s: Sys, names: seq<EngineName>, o: Options, calls: seq<Call>, was: bool, before: seq<Act>,
                             i: nat,
                             links: set<string>, state: string, steps: seq<WireguardEngine.Step>)
    requires Invariant(s, NodeOf(names, o)) && WorldsFit(calls, NodeOf(names, o))
    requires i < |names| && names[i] == EngineArtifacts.WireguardEngine &&
             (was ==> EndsOn(before, OnOf(s, NodeOf(names, o), i)))
    requires Trusted(s, NodeOf(names, o), calls, was)
    requires Tells(steps, LinkStepDone, LinkStepOf, before + Trace(s, NodeOf(names, o), calls, i))
    requires WireguardEngine.AllNamed(steps) && TunnelsFit(Running(Played(s, NodeOf(names, o), calls).history))
    ensures var running := Elems(TunnelNames(Running(Played(s, NodeOf(names, o), calls).history)));
            var after := WireguardEngine.LinksRun(links, state, steps);
            var recorded, strays := WireguardEngine.Recorded(state, steps), WireguardEngine.Strays(state, steps);
            && running <= after <= running + strays + (links - recorded)
            && forall x :: x !in recorded + strays ==> (x in after <==> x in links)
  {
    LastLinkStep(s, names, o, calls, was, before, i, steps);
    hide *;
    WireguardEngine.RunReconciles(links, state, steps);
  }
}
