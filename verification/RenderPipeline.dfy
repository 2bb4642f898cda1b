/** The whole render pipeline: one artifact per engine, under a fixed set of names. */
module RenderPipeline {
  import opened Basics
  import opened Compiler
  import opened EngineArtifacts
  import opened FilterTheorem
  import opened NftRenderer
  import opened PolicyModel
  import opened WellFormedness
  import Frr
  import Netdev
  import Routes
  import Suricata
  import T = Text
  import Wireguard

  /**
    Node options: the Suricata template, and the renderers of the sections that are kept abstract
    (telemetry, IPsec, and the body of the routing configuration), which cannot fail.
   */
  datatype Options = Options(template: Suricata.Template, vector: OtherSections -> string,
                             strongswan: OtherSections -> string, frrBody: OtherSections -> string)

  ghost function ArtifactsOf(p: Policy, o: Options): Option<Artifacts> {
    match Compiled(p)
    case Failure(_) => None
    case Success(ir) =>
      match RulesetOf(ir)
      case Failure(_) => None
      case Success(ruleset) => Some(map[
        Nftables := Rules(ruleset),
        RoutesEngine := Text(Routes.Artifact(ir.routes)),
        SuricataEngine := Text(Suricata.Artifact(ir.ids, ir.network, o.template)),
        Vector := Text(o.vector(p.other)),
        FrrEngine := Text(Frr.Artifact(ir.routing, o.frrBody(p.other))),
        Strongswan := Text(o.strongswan(p.other)),
        WireguardEngine := Text(Wireguard.Artifact(ir.wireguard)),
        NetdevEngine := Text(Netdev.Artifact(ir.network))])
  }

  method RenderAll(p: Policy, o: Options) returns (out: Option<Artifacts>)
    ensures out == ArtifactsOf(p, o)
  {
    hide Compiled, RulesetOf, Routes.Artifact, Suricata.Artifact, Frr.Artifact, Wireguard.Artifact, Netdev.Artifact;
    var compiled := Compile(p);
    if compiled.Failure? {
      return None;
    }
    var ir := compiled.value;
    var artifacts: Artifacts := map[];
    var nft := NftRenderer.Render(ir);
    if nft.Failure? {
      return None;
    }
    artifacts := artifacts[Nftables := Rules(nft.value)];
    var routes := Routes.Render(ir.routes);
    artifacts := artifacts[RoutesEngine := Text(routes)];
    var suricata := Suricata.Render(ir.ids, ir.network, o.template);
    artifacts := artifacts[SuricataEngine := Text(suricata)];
    artifacts := artifacts[Vector := Text(o.vector(p.other))];
    var frr := Frr.Render(ir.routing, o.frrBody(p.other));
    artifacts := artifacts[FrrEngine := Text(frr)];
    artifacts := artifacts[Strongswan := Text(o.strongswan(p.other))];
    var wireguard := Wireguard.Render(ir.wireguard);
    artifacts := artifacts[WireguardEngine := Text(wireguard)];
    var netdev := Netdev.Render(ir.network);
    artifacts := artifacts[NetdevEngine := Text(netdev)];
    return Some(artifacts);
  }

  lemma SameRendering(p: Policy, o: Options)
    ensures ArtifactsOf(p, o).Some? <==> Rendered(p).Some?
    ensures ArtifactsOf(p, o).Some? ==>
              && Compiled(p).Success? && Nftables in ArtifactsOf(p, o).value
              && ArtifactsOf(p, o).value[Nftables] == Rules(Rendered(p).value)
  {
    hide Compiled, RulesetOf, Routes.Artifact, Suricata.Artifact, Frr.Artifact, Wireguard.Artifact, Netdev.Artifact;
  }

  /** What is printed for the engines that reconcile kernel objects. */
  lemma PrintedTexts(p: Policy, o: Options)
    ensures ArtifactsOf(p, o).Some? ==>
              && Compiled(p).Success? && RoutesEngine in ArtifactsOf(p, o).value &&
                 WireguardEngine in ArtifactsOf(p, o).value
              && ArtifactsOf(p, o).value[RoutesEngine] == Text(Routes.Artifact(Compiled(p).value.routes))
              && ArtifactsOf(p, o).value[WireguardEngine] == Text(Wireguard.Artifact(Compiled(p).value.wireguard))
  {
    hide Compiled, RulesetOf, Routes.Artifact, Suricata.Artifact, Frr.Artifact, Wireguard.Artifact, Netdev.Artifact;
  }

  /** What is printed for Suricata. */
  lemma PrintedSuricata(p: Policy, o: Options)
    ensures ArtifactsOf(p, o).Some? ==>
              && Compiled(p).Success? && SuricataEngine in ArtifactsOf(p, o).value
              && ArtifactsOf(p, o).value[SuricataEngine]
                 == Text(Suricata.Artifact(Compiled(p).value.ids, Compiled(p).value.network, o.template))
  {
    hide Compiled, RulesetOf, Routes.Artifact, Suricata.Artifact, Frr.Artifact, Wireguard.Artifact, Netdev.Artifact;
  }

  lemma EveryKey(p: Policy, o: Options, n: EngineName)
    ensures ArtifactsOf(p, o).Some? ==> n in ArtifactsOf(p, o).value
  {
    hide Compiled, RulesetOf, Routes.Artifact, Suricata.Artifact, Frr.Artifact, Wireguard.Artifact, Netdev.Artifact;
    match n {
      case Nftables =>
      case RoutesEngine =>
      case SuricataEngine =>
      case Vector =>
      case FrrEngine =>
      case Strongswan =>
      case WireguardEngine =>
      case NetdevEngine =>
    }
  }

  /**
    Every policy that renders yields an artifact for every engine, so any set of artifacts covers
    any other; a policy renders to artifacts exactly if it renders to a ruleset, and the ruleset
    is the nftables artifact.
   */
  lemma EveryEngineCovered(p: Policy, o: Options)
    ensures ArtifactsOf(p, o).Some? <==> Rendered(p).Some?
    ensures ArtifactsOf(p, o).Some? ==>
              && WellFormed(p)
              && (forall n: EngineName :: n in ArtifactsOf(p, o).value)
              && ArtifactsOf(p, o).value[Nftables] == Rules(Rendered(p).value)
  {
    SameRendering(p, o);
    hide *;
    if ArtifactsOf(p, o).Some? {
      CompiledParts(p);
      forall n: EngineName
        ensures n in ArtifactsOf(p, o).value
      {
        EveryKey(p, o, n);
      }
    }
  }

  /**
    The artifacts of the sections that this model does not open are what their own renderers say of these
    sections; the routing configuration comes behind the marker line, and only with a protocol turned on.
   */
  lemma OtherArtifacts(p: Policy, o: Options)
    ensures ArtifactsOf(p, o).Some? ==>
              var arts := ArtifactsOf(p, o).value;
              && Vector in arts && arts[Vector] == Text(o.vector(p.other))
              && Strongswan in arts && arts[Strongswan] == Text(o.strongswan(p.other))
              && FrrEngine in arts && arts[FrrEngine].Text?
              && T.Cut(arts[FrrEngine].text, '\n').1 == (if p.other.bgp || p.other.ospf then o.frrBody(p.other) else "")
  {
    PrintedOthers(p, o);
    hide *;
    if ArtifactsOf(p, o).Some? {
      Frr.BodyFollows(Compiled(p).value.routing, o.frrBody(p.other));
      RoutingCompiled(p);
    }
  }

  lemma PrintedOthers(p: Policy, o: Options)
    ensures ArtifactsOf(p, o).Some? ==>
              var arts := ArtifactsOf(p, o).value;
              && Vector in arts && arts[Vector] == Text(o.vector(p.other))
              && Strongswan in arts && arts[Strongswan] == Text(o.strongswan(p.other))
              && Compiled(p).Success? && FrrEngine in arts
              && arts[FrrEngine] == Text(Frr.Artifact(Compiled(p).value.routing, o.frrBody(p.other)))
  {
    hide Compiled, RulesetOf, Routes.Artifact, Suricata.Artifact, Frr.Artifact, Wireguard.Artifact, Netdev.Artifact;
  }

  lemma RoutingCompiled(p: Policy)
    requires Compiled(p).Success?
    ensures Compiled(p).value.routing.Some? <==> p.other.bgp || p.other.ospf
  {
    hide SymbolsOf, IdsOf, WellFormed;
  }
}
