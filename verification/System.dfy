/** What the operator committed is what the engines run, and what they run does what the policy says. */
module SystemTheorems {
  import opened RenderPipeline
  import opened EngineArtifacts
  import opened Basics
  import opened CommitProtocol
  import opened Compiler
  import opened FilterTheorem
  import opened IntermediateForm
  import opened NameResolution
  import opened NatTheorem
  import opened Net
  import opened NetText
  import opened Nft
  import opened NftRenderer
  import opened PolicyModel
  import opened NodeLifetime
  import opened PolicyService
  import opened PolicyStore
  import opened Text
  import opened WellFormedness
  import Frr
  import IntelUpdater
  import Netdev
  import RenderOutcome
  import Routes
  import Sem = PolicySemantics
  import Suricata
  import Trigger
  import Wireguard

  // ---- the packet filter ----

  lemma EngineHolds(s: Sys, n: Node, i: nat)
    requires OnRunning(s, n) && i < |n.names|
    ensures n.render(Running(s.history)).Some? && n.names[i] in n.render(Running(s.history)).value
    ensures |s.live| == |n.names| && s.live[i] == Some(n.render(Running(s.history)).value[n.names[i]])
  {
  }

  /** The ruleset decides and rewrites the packet as the policy does, its vacant zone lists being opened. */
  ghost predicate Enforces(ruleset: Ruleset, p: Policy, pk: Packet, b: Blocklist) {
    && (IcmpOwnFamily(pk) ==>
          Run(ruleset.forward, Drop, pk, b)
          == if PreventMode(p) then Queue(U16(p.ids.queueNum)) else ActionFor(Sem.Decide(Opened(p), b, pk)))
    && Sem.DnatOutcome(p, Opened(p).dnat, pk, RunNat(ruleset.prerouting, pk, b))
    && Sem.SnatOutcome(p, Opened(p).snat, pk, RunNat(ruleset.postrouting, pk, b))
  }

  /** For a policy whose zone lists are populated that is its own decision, and its own rewriting. */
  lemma EnforcesPopulated(ruleset: Ruleset, p: Policy, pk: Packet, b: Blocklist)
    requires Enforces(ruleset, p, pk, b)
    ensures RulesPopulated(p) && IcmpOwnFamily(pk) ==>
              Run(ruleset.forward, Drop, pk, b)
              == if PreventMode(p) then Queue(U16(p.ids.queueNum)) else ActionFor(Sem.Decide(p, b, pk))
    ensures NatPopulated(p) ==>
              && Sem.DnatOutcome(p, p.dnat, pk, RunNat(ruleset.prerouting, pk, b))
              && Sem.SnatOutcome(p, p.snat, pk, RunNat(ruleset.postrouting, pk, b))
  {
    hide RulesPopulated, NatPopulated, Sem.Decide, Run, RunNat, Sem.DnatOutcome, Sem.SnatOutcome, Opened;
    if RulesPopulated(p) {
      PopulatedDecides(p, b, pk);
    }
    if NatPopulated(p) {
      PopulatedNat(p);
    }
  }

  /** Every ruleset the pipeline renders enforces the policy it was rendered from, on every packet. */
  ghost predicate RendersFaithfully(n: Node) {
    forall p :: n.render(p).Some? ==>
      && Nftables in n.render(p).value && n.render(p).value[Nftables].Rules?
      && forall pk: Packet, b: Blocklist :: Enforces(n.render(p).value[Nftables].ruleset, p, pk, b)
  }

  lemma RealNodeRendersFaithfully(names: seq<EngineName>, o: Options)
    ensures RendersFaithfully(NodeOf(names, o)) && Sound(NodeOf(names, o))
  {
    NodeIsSound(names, o);
    var n := NodeOf(names, o);
    hide ArtifactsOf, Rendered, Sound, Run, Sem.Decide, RunNat, Sem.DnatOutcome, Sem.SnatOutcome, RulesPopulated,
      NatPopulated, Opened;
    forall p | n.render(p).Some?
      ensures Nftables in n.render(p).value && n.render(p).value[Nftables].Rules?
      ensures forall pk: Packet, b: Blocklist :: Enforces(n.render(p).value[Nftables].ruleset, p, pk, b)
    {
      EveryEngineCovered(p, o);
      forall pk: Packet, b: Blocklist
        ensures Enforces(Rendered(p).value, p, pk, b)
      {
        if IcmpOwnFamily(pk) {
          FilterPreserved(p, pk, b);
        }
        NatPreservedBoth(p, pk, b);
      }
    }
  }

  /**
    The system theorem. In any state that any sequence of calls, crashes, stops and starts can lead
    a node to, unless a crash, a stop or an alarm came after the last recorded version or successful
    start: the ruleset that the nftables engine holds decides every packet, under every content of
    the blocklists, and rewrites it, as the running policy does, its vacant zone lists being opened
    (see EnforcesPopulated for policies without such).
   */
  lemma RunningPolicyIsEnforced(d: Daemon, n: Node, events: seq<Event>, was: bool, i: nat, pk: Packet, b: Blocklist)
    requires RendersFaithfully(n) && Invariant(d.sys, n) && EventsFit(events, n) && (was ==> OnRunning(d.sys, n))
    requires TrustedFor(d, n, events, was) && i < |n.names| && n.names[i] == Nftables
    ensures var now := Lived(d, n, events).sys;
            && |now.live| == |n.names| && now.live[i].Some? && now.live[i].value.Rules?
            && Enforces(now.live[i].value.ruleset, Running(now.history), pk, b)
  {
    EnginesFollowStoreForLife(d, n, events, was);
    var now := Lived(d, n, events).sys;
    hide Lived, OnRunning, TrustedFor, Enforces;
    EngineHolds(now, n, i);
  }

  // ---- the engines that parse text ----

  /** Wanted mode and rule files are what the Suricata engine finds, each exactly under its own condition. */
  predicate SuricataReads(text: string, ids: Option<IdsIR>) {
    && (Suricata.DispatchOf(Suricata.ModeAfter(Suricata.NO_MODE, ScanLines(text))) == Suricata.Intended(ids)
        <==> (ids.Some? ==> Suricata.Undisturbed(ids.value)))
    && (ids.None? ==> Suricata.RuleFilesIn(text) == [])
    && (ids.Some? ==>
          (Suricata.RuleFilesIn(text) == ids.value.ruleFiles
           <==> Suricata.AllTidy(ids.value.ruleFiles) && Suricata.NoListIn(Suricata.Shown(ids.value))))
  }

  /** The engine of that name reads back the compiled form, exactly if the supplied strings allow it. */
  ghost predicate Reads(name: EngineName, text: string, ir: IR) {
    match name
    case WireguardEngine =>
      Wireguard.Fold([], Lines(text)) == Success(Wireguard.Views(ir.wireguard)) <==> Wireguard.AllTidy(ir.wireguard)
    case NetdevEngine =>
      Netdev.ParseLines(Lines(text)) == Success(Netdev.Views(ir.network)) <==> Netdev.NamesAreWords(ir.network)
    case FrrEngine =>
      Frr.FirstMarker(ScanLines(text)) == Frr.DaemonsOf(ir.routing)
    case RoutesEngine =>
      Routes.AsMeant(Lines(text), ir.routes) <==> Routes.DevsFit(ir.routes)
    case SuricataEngine =>
      SuricataReads(text, ir.ids)
    case _ => true
  }

  /** Whatever the pipeline prints for an engine is read back as the compiled form of the policy. */
  ghost predicate PrintsReadably(n: Node) {
    forall p, name :: n.render(p).Some? && name in n.render(p).value && n.render(p).value[name].Text? ==>
      Compiled(p).Success? && Reads(name, n.render(p).value[name].text, Compiled(p).value)
  }

  lemma SuricataArtifactReads(ids: Option<IdsIR>, network: Option<NetworkIR>, t: Suricata.Template)
    requires Suricata.Fits(t)
    ensures SuricataReads(Suricata.Artifact(ids, network, t), ids)
  {
    Suricata.DispatchIff(ids, network, t);
    if ids.Some? {
      Suricata.RuleFilesIff(ids.value, network, t);
    } else {
      Suricata.DisabledReadsBack();
    }
    hide Suricata.Intended, Suricata.Undisturbed, Suricata.RuleFilesIn, Suricata.AllTidy, Suricata.NoListIn,
      Suricata.ModeAfter, Suricata.DispatchOf, ScanLines;
  }

  lemma ArtifactReads(p: Policy, o: Options, name: EngineName)
    requires Suricata.Fits(o.template)
    ensures ArtifactsOf(p, o).Some? && name in ArtifactsOf(p, o).value && ArtifactsOf(p, o).value[name].Text? ==>
              Compiled(p).Success? && Reads(name, ArtifactsOf(p, o).value[name].text, Compiled(p).value)
  {
    hide Compiled, RulesetOf, Wireguard.Artifact, Netdev.Artifact, Frr.Artifact, Routes.Artifact, Suricata.Artifact,
      Wireguard.Fold, Lines, Netdev.ParseLines, Frr.FirstMarker, ScanLines, Wireguard.AllTidy, Netdev.NamesAreWords,
      Routes.AsMeant, Routes.DevsFit, SuricataReads;
    if Compiled(p).Success? {
      var ir := Compiled(p).value;
      match name {
        case WireguardEngine => Wireguard.RoundTripIff(ir.wireguard);
        case NetdevEngine => Netdev.RoundTripIff(ir.network);
        case FrrEngine => Frr.MarkerRoundTrip(ir.routing, o.frrBody(p.other));
        case RoutesEngine => Routes.RenderedReadsBackIff(ir.routes);
        case SuricataEngine => SuricataArtifactReads(ir.ids, ir.network, o.template);
        case _ =>
      }
    }
  }

  lemma RealNodePrintsReadably(names: seq<EngineName>, o: Options)
    requires Suricata.Fits(o.template)
    ensures PrintsReadably(NodeOf(names, o))
  {
    var n := NodeOf(names, o);
    hide ArtifactsOf, Compiled, Reads;
    forall p, name | n.render(p).Some? && name in n.render(p).value && n.render(p).value[name].Text?
      ensures Compiled(p).Success? && Reads(name, n.render(p).value[name].text, Compiled(p).value)
    {
      ArtifactReads(p, o, name);
    }
  }

  /** Under the conditions of the system theorem, every text-parsing engine reads back the running policy. */
  lemma EnginesReadRunningPolicy(d: Daemon, n: Node, events: seq<Event>, was: bool, i: nat, text: string)
    requires PrintsReadably(n) && Invariant(d.sys, n) && EventsFit(events, n) && (was ==> OnRunning(d.sys, n))
    requires TrustedFor(d, n, events, was) && i < |n.names|
    ensures var now := Lived(d, n, events).sys;
            && |now.live| == |n.names|
            && (now.live[i] == Some(Artifact.Text(text)) ==>
                  && Compiled(Running(now.history)).Success?
                  && Reads(n.names[i], text, Compiled(Running(now.history)).value))
  {
    EnginesFollowStoreForLife(d, n, events, was);
    var now := Lived(d, n, events).sys;
    hide Lived, OnRunning, TrustedFor, Reads, Compiled;
    EngineHolds(now, n, i);
  }

  // ---- inline inspection: the ruleset and the inspector meet ----

  /**
    In prevent mode the ruleset hands every packet to the queue that the policy names; and what the
    Suricata engine reads is the prevent mode and a text for that same number, if and only if no supplied
    string overrides the mode or the queue.
   */
  lemma QueuesMeet(p: Policy, o: Options, pk: Packet, b: Blocklist)
    requires ArtifactsOf(p, o).Some? && PreventMode(p) && Suricata.Fits(o.template)
    ensures SuricataEngine in ArtifactsOf(p, o).value && ArtifactsOf(p, o).value[SuricataEngine].Text?
    ensures Nftables in ArtifactsOf(p, o).value && ArtifactsOf(p, o).value[Nftables].Rules?
    ensures Compiled(p).Success? && Compiled(p).value.ids.Some?
    ensures var arts := ArtifactsOf(p, o).value;
            var read := Suricata.DispatchOf(Suricata.ModeAfter(Suricata.NO_MODE, ScanLines(arts[SuricataEngine].text)));
            && Run(arts[Nftables].ruleset.forward, Drop, pk, b) == Queue(p.ids.queueNum)
            && (read.Prevent? && IsNumeral(read.queue) && NumberOf(read.queue) == p.ids.queueNum
                <==> Suricata.Undisturbed(Compiled(p).value.ids.value))
  {
    EveryEngineCovered(p, o);
    PrintedSuricata(p, o);
    PreventIds(p);
    PreventRuns(p, pk, b);
    var ir := Compiled(p).value;
    QueueRead(ir.ids.value, ir.network, o.template);
    DecReads(p.ids.queueNum);
    var arts := ArtifactsOf(p, o).value;
    var read := Suricata.DispatchOf(Suricata.ModeAfter(Suricata.NO_MODE, ScanLines(arts[SuricataEngine].text)));
    if read.Prevent? && IsNumeral(read.queue) && NumberOf(read.queue) == p.ids.queueNum {
      NumeralIsDec(read.queue);
    }
    hide *;
  }

  lemma PreventRuns(p: Policy, pk: Packet, b: Blocklist)
    requires Rendered(p).Some? && PreventMode(p)
    ensures Run(Rendered(p).value.forward, Drop, pk, b) == Queue(p.ids.queueNum)
  {
    PreventIds(p);
    hide Compiled, ForwardOf, Run, Sem.IntelOn;
    var ir, _ := RenderedParts(p);
    PreventQueues(ir, Rendered(p).value.forward, pk, b);
  }

  lemma QueueRead(ids: IdsIR, network: Option<NetworkIR>, t: Suricata.Template)
    requires ids.prevent && Suricata.Fits(t)
    ensures Suricata.DispatchOf(Suricata.ModeAfter(Suricata.NO_MODE,
                                                   ScanLines(Suricata.Artifact(Some(ids), network, t))))
            == Suricata.Prevent(Dec(ids.queueNum))
            <==> Suricata.Undisturbed(ids)
  {
    Suricata.DispatchIff(Some(ids), network, t);
    hide Suricata.Undisturbed, Suricata.DispatchOf, Suricata.ModeAfter, ScanLines, Suricata.Artifact, Dec;
  }

  lemma PreventIds(p: Policy)
    requires Rendered(p).Some? && PreventMode(p)
    ensures Compiled(p).Success? && Compiled(p).value.ids.Some? && Compiled(p).value.ids.value.prevent
    ensures Compiled(p).value.ids.value.queueNum == p.ids.queueNum
  {
    CompiledParts(p);
    RenderOutcome.ConversionsLossless(p);
    hide Compiled, WellFormed;
  }

  // ---- threat feeds, from the fetch to the packet ----

  /** The blocklists whose element texts a refresh leaves in the sets. */
  ghost function Programmed(fetched: seq<Option<seq<Prefix>>>): Blocklist {
    Blocklist(set q | q in IntelUpdater.Merged(fetched) && q.addr.family == V4,
              set q | q in IntelUpdater.Merged(fetched) && q.addr.family == V6)
  }

  /** The sets hold the texts of exactly these prefixes: a text is in the set of its family iff its prefix is listed. */
  lemma ProgrammedTexts(fetched: seq<Option<seq<Prefix>>>, q: Prefix)
    ensures PrefixText(q) in IntelUpdater.Texts(IntelUpdater.Merged(fetched), q.addr.family)
            <==> q in (if q.addr.family == V4 then Programmed(fetched).v4 else Programmed(fetched).v6)
  {
    IntelUpdater.SetsHoldMerged(fetched, q);
    IntelUpdater.MergedAre(fetched, q);
    hide PrefixText, IntelUpdater.Fetched, IntelUpdater.Texts;
  }

  /**
    With feeds enabled and inline inspection off, once a refresh has programmed the sets, the
    compiled filter drops every packet that is not already part of a connection and whose source or
    destination lies in a prefix of a fetched feed, whatever the rules say.
   */
  lemma FedTrafficIsDropped(p: Policy, pk: Packet, fetched: seq<Option<seq<Prefix>>>, q: Prefix)
    requires Rendered(p).Some? && !PreventMode(p) && Sem.IntelOn(p)
    requires IntelUpdater.Fetched(fetched, q) && (Contains(q, pk.src) || Contains(q, pk.dst))
    requires pk.ct != Established && pk.ct != Related
    ensures Run(Rendered(p).value.forward, Drop, pk, Programmed(fetched)) == Drop
  {
    var b := Programmed(fetched);
    IntelUpdater.MergedAre(fetched, q);
    assert Listed(b, pk.src) || Listed(b, pk.dst) by {
      assert q in (if q.addr.family == V4 then b.v4 else b.v6);
    }
    hide Rendered, Run, Contains, Listed, Compiled, ForwardOf;
    var ir, _ := RenderedParts(p);
    ListedIsDropped(ir, Rendered(p).value.forward, pk, b);
  }

  // ---- calls, starts and the refresh loop ----

  /** What a call does to the refresh trigger, engine k being the one that holds the table with the sets. */
  ghost function TriggerSteps(s: Sys, n: Node, c: Call, k: nat): seq<Trigger.Action>
    requires Fits(s, n) && WorldFits(c.world, n) && k < |n.names|
  {
    var r := Step(s, n, c).1;
    Trigger.CallActions(Displaced(s, n, c, k), Committed(r), r.Succeeded?)
  }

  /**
    After any call, and the refresh loop left alone, the sets are empty until the next tick if and only
    if the call has replaced the table (or they were empty before), the refresh in hand, if there was
    one, left them alone, and so did the one for the token, which there is if one was pending or the
    call succeeded.
   */
  lemma SetsStayEmptyIff(s: Sys, n: Node, c: Call, k: nat, loop: Trigger.State,
                         p: Option<IntelUpdater.Sets>, q: Option<IntelUpdater.Sets>)
    requires Invariant(s, n) && WorldFits(c.world, n) && k < |n.names| && Trigger.NoLostWakeup(loop)
    ensures Trigger.CanRun(loop, TriggerSteps(s, n, c, k))
    ensures var after := Trigger.Run(loop, TriggerSteps(s, n, c, k));
            && Trigger.CanRun(after, Trigger.LeftToDo(after, p, q))
            && (Trigger.Run(after, Trigger.LeftToDo(after, p, q)).filled.None?
                <==> && (loop.filled.None? || TellsOf(Step(s, n, c).1, c.world, k))
                     && (loop.loop != Trigger.Waiting ==> p.None?)
                     && (loop.pending || Step(s, n, c).1.Succeeded? ==> q.None?))
  {
    DisplacedIff(s, n, c, k);
    hide *;
    var r := Step(s, n, c).1;
    Trigger.StayClearedIff(loop, Displaced(s, n, c, k), Committed(r), r.Succeeded?, p, q);
    assert TriggerSteps(s, n, c, k) == Trigger.CallActions(Displaced(s, n, c, k), Committed(r), r.Succeeded?) by {
      TriggerStepsAre(s, n, c, k);
    }
  }

  lemma TriggerStepsAre(s: Sys, n: Node, c: Call, k: nat)
    requires Fits(s, n) && WorldFits(c.world, n) && k < |n.names|
    ensures var r := Step(s, n, c).1;
            TriggerSteps(s, n, c, k) == Trigger.CallActions(Displaced(s, n, c, k), Committed(r), r.Succeeded?)
  {
  }

  /** The loop is left alone after these actions, and its last refresh was an accepted one of this policy's feeds. */
  ghost predicate EndsRefreshed(loop: Trigger.State, actions: seq<Trigger.Action>, p: Option<IntelUpdater.Sets>,
                                q: Option<IntelUpdater.Sets>, running: Policy, fetched: seq<Option<seq<Prefix>>>)
    requires Trigger.CanRun(loop, actions)
  {
    Trigger.Latest(None, actions + Trigger.LeftToDo(Trigger.Run(loop, actions), p, q))
    == Some(IntelUpdater.RefreshOutcome(Some(running), fetched, true))
  }

  /** What the sets hold at the end: the texts of the fetched prefixes, for this version. */
  ghost predicate SetsHold(loop: Trigger.State, actions: seq<Trigger.Action>, p: Option<IntelUpdater.Sets>,
                           q: Option<IntelUpdater.Sets>, version: nat, fetched: seq<Option<seq<Prefix>>>)
    requires Trigger.CanRun(loop, actions)
  {
    var after := Trigger.Run(loop, actions);
    var merged := IntelUpdater.Merged(fetched);
    && Trigger.CanRun(after, Trigger.LeftToDo(after, p, q))
    && Trigger.Run(after, Trigger.LeftToDo(after, p, q)).filled
       == Some(Trigger.Filled(version, IntelUpdater.Sets(IntelUpdater.Texts(merged, V4),
                                                         IntelUpdater.Texts(merged, V6))))
  }

  lemma RefreshPrograms(p: Policy, fetched: seq<Option<seq<Prefix>>>)
    requires WellFormed(p) && Sem.IntelOn(p)
    ensures var merged := IntelUpdater.Merged(fetched);
            IntelUpdater.RefreshOutcome(Some(p), fetched, true)
            == Some(IntelUpdater.Sets(IntelUpdater.Texts(merged, V4), IntelUpdater.Texts(merged, V6)))
  {
    IntelUpdater.FeedsNonEmpty(p);
    hide IntelUpdater.FeedsOf, WellFormed, Sem.IntelOn;
  }

  /** A hook last, everything else in any order, and an accepted refresh of the policy that then runs. */
  lemma HookFeeds(loop: Trigger.State, actions: seq<Trigger.Action>, p: Option<IntelUpdater.Sets>,
                  q: Option<IntelUpdater.Sets>, running: Policy, fetched: seq<Option<seq<Prefix>>>, records: nat)
    requires Trigger.NoLostWakeup(loop) && Trigger.CanRun(loop, actions)
    requires var steps := Trigger.CallSteps(actions);
             steps != [] && steps[|steps| - 1] == Trigger.Notify && |Trigger.Records(steps)| == records
    requires WellFormed(running) && Sem.IntelOn(running) && EndsRefreshed(loop, actions, p, q, running, fetched)
    ensures SetsHold(loop, actions, p, q, loop.running + records, fetched)
  {
    hide WellFormed, Sem.IntelOn, IntelUpdater.RefreshOutcome, Trigger.Run, Trigger.CanRun, Trigger.CallSteps,
      Trigger.Records, Trigger.Latest, Trigger.LeftToDo, Trigger.NoLostWakeup, IntelUpdater.Texts, IntelUpdater.Merged;
    RefreshPrograms(running, fetched);
    Trigger.FilledAfterHook(loop, actions, p, q);
  }

  lemma RunningIsWellFormed(s: Sys, names: seq<EngineName>, o: Options)
    requires Invariant(s, NodeOf(names, o))
    ensures WellFormed(Running(s.history))
  {
    RunningRenders(s, NodeOf(names, o));
    EveryEngineCovered(Running(s.history), o);
    hide ArtifactsOf, WellFormed;
  }

  lemma SuccessSteps(displaces: bool)
    ensures var steps := Trigger.CallActions(displaces, true, true);
            steps != [] && steps[|steps| - 1] == Trigger.Notify && |Trigger.Records(steps)| == 1
  {
    var tail := [Trigger.Record, Trigger.Notify];
    assert tail[1..] == [Trigger.Notify] && [Trigger.Notify][1..] == [];
    assert Trigger.Records([Trigger.Notify]) == [] && Trigger.Records(tail) == [Trigger.Record];
    assert [Trigger.Record] + [Trigger.Notify] == tail;
    var steps := Trigger.CallActions(displaces, true, true);
    if displaces {
      assert steps == [Trigger.Replace] + tail && steps[1..] == tail;
    } else {
      assert steps == tail;
    }
  }

  /**
    After a successful call, however its steps and the loop's follow one another, and the loop then left
    alone: if the last refresh was accepted, the sets hold the feeds fetched for the policy just made
    running. (That a refresh has read it is Trigger.FilledAfterHook.)
   */
  lemma SuccessIsFed(s: Sys, names: seq<EngineName>, o: Options, c: Call, k: nat, loop: Trigger.State,
                     actions: seq<Trigger.Action>, p: Option<IntelUpdater.Sets>, q: Option<IntelUpdater.Sets>,
                     fetched: seq<Option<seq<Prefix>>>)
    requires var n := NodeOf(names, o);
             && Invariant(s, n) && WorldFits(c.world, n) && k < |names| && Step(s, n, c).1.Succeeded?
             && Trigger.NoLostWakeup(loop) && loop.running == |s.history| && Trigger.CanRun(loop, actions)
             && Trigger.CallSteps(actions) == TriggerSteps(s, n, c, k)
             && Sem.IntelOn(Running(Step(s, n, c).0.history))
             && EndsRefreshed(loop, actions, p, q, Running(Step(s, n, c).0.history), fetched)
    ensures SetsHold(loop, actions, p, q, |Step(s, NodeOf(names, o), c).0.history|, fetched)
  {
    var n := NodeOf(names, o);
    var s' := Step(s, n, c).0;
    StepInvariant(s, n, c);
    CallEffect(s, n, c);
    RunningIsWellFormed(s', names, o);
    SuccessSteps(Displaced(s, n, c, k));
    hide Step, Invariant, Displaced, WellFormed, Sem.IntelOn, EndsRefreshed, SetsHold, Trigger.CallActions,
      Trigger.NoLostWakeup,
      Trigger.CanRun, Trigger.CallSteps, Trigger.Records, Running, NodeOf, Kept;
    HookFeeds(loop, actions, p, q, Running(s'.history), fetched, 1);
  }

  lemma StartSteps()
    ensures |Trigger.Records([Trigger.Replace, Trigger.Notify])| == 0
  {
    assert [Trigger.Replace, Trigger.Notify][1..] == [Trigger.Notify] && [Trigger.Notify][1..] == [];
    assert Trigger.Records([Trigger.Notify]) == [];
  }

  /**
    The same for a start: the daemon applies the running version and sends the token itself, and the
    sets come to hold the feeds fetched for it.
   */
  lemma StartIsFed(s: Sys, names: seq<EngineName>, o: Options, actions: seq<Trigger.Action>,
                   p: Option<IntelUpdater.Sets>, q: Option<IntelUpdater.Sets>, fetched: seq<Option<seq<Prefix>>>)
    requires Invariant(s, NodeOf(names, o)) && s.history != [] && Sem.IntelOn(Running(s.history))
    requires var loop := Trigger.Start(|s.history|);
             && Trigger.CanRun(loop, actions) && Trigger.CallSteps(actions) == [Trigger.Replace, Trigger.Notify]
             && EndsRefreshed(loop, actions, p, q, Running(s.history), fetched)
    ensures SetsHold(Trigger.Start(|s.history|), actions, p, q, |s.history|, fetched)
  {
    hide *;
    RunningIsWellFormed(s, names, o);
    StartSteps();
    Trigger.StartsQuiet(|s.history|);
    HookFeeds(Trigger.Start(|s.history|), actions, p, q, Running(s.history), fetched, 0);
  }

  // ---- what the validator does not catch ----

  /** A WireGuard tunnel whose key path ends in a space. */
  const PADDED: Policy :=
    EMPTY_POLICY.(wireguard := [WireguardInterface("wg0", Some(RFC1918[0]), 0, "/key ", [])])

  /**
    Being well-formed is not enough for the WireGuard artifact to read back: this policy is
    well-formed and compiles, and the engine reads another key path out of its artifact.
   */
  lemma ValidCanBeMisread()
    ensures WellFormed(PADDED) && Compiled(PADDED).Success?
    ensures var ws := Compiled(PADDED).value.wireguard;
            Wireguard.Fold([], Lines(Wireguard.Artifact(ws))) != Success(Wireguard.Views(ws))
  {
    PaddedCompiles();
    hide *;
    Wireguard.RoundTripIff(Compiled(PADDED).value.wireguard);
  }

  lemma PaddedCompiles()
    ensures WellFormed(PADDED) && Compiled(PADDED).Success?
    ensures !Wireguard.AllTidy(Compiled(PADDED).value.wireguard)
  {
    var w := PADDED.wireguard[0];
    assert WireguardOk(PADDED.wireguard, 0);
    assert WellFormed(PADDED);
    assert TunnelOf(w).Success? && !Tidy(TunnelOf(w).value.privateKeyFile);
    assert [w][1..] == [] && PADDED.wireguard == [w];
    assert Traverse(TunnelOf, [w]).Success? by {
      assert Traverse(TunnelOf, [w][1..]) == Success([]);
    }
    TraverseElements(TunnelOf, [w]);
    assert TunnelOf(w).value in Compiled(PADDED).value.wireguard;
  }

  /** A route whose device text goes on with another route, on a line of its own. */
  function SmugglingPolicy(d: Prefix, dest: Prefix): Policy {
    EMPTY_POLICY.(routes := [StaticRoute(Some(d), Absent, Routes.SmugglingDev(PrefixText(dest)), 0)])
  }

  /**
    For all prefixes: this policy with one route is well-formed and compiles, its batch is accepted,
    and gives the kernel a second route, to any other destination, which no entry of the policy names.
   */
  lemma ValidCanSmuggleRoute(d: Prefix, dest: Prefix)
    ensures var p := SmugglingPolicy(d, dest);
            && WellFormed(p) && Compiled(p).Success?
            && var text := Routes.Artifact(Compiled(p).value.routes);
            && Routes.Accepts(text) && Routes.Dests(text) == [PrefixText(d), PrefixText(dest)]
    ensures dest != d ==> forall r :: r in SmugglingPolicy(d, dest).routes && r.destination.Some? ==>
              PrefixText(dest) != PrefixText(r.destination.value)
  {
    var p := SmugglingPolicy(d, dest);
    SmugglingCompiles(d, dest);
    PrefixTextWord(dest);
    if PrefixText(dest) == PrefixText(d) {
      PrefixTextInjective(dest, d);
    }
    Routes.SmuggledRoute(Compiled(p).value.routes[0], PrefixText(dest));
  }

  lemma SmugglingCompiles(d: Prefix, dest: Prefix)
    ensures var p := SmugglingPolicy(d, dest);
            && WellFormed(p) && Compiled(p).Success?
            && Compiled(p).value.routes == [RouteIR(d, None, Routes.SmugglingDev(PrefixText(dest)), 0)]
  {
    hide PrefixText;
    var p := SmugglingPolicy(d, dest);
    var r := p.routes[0];
    assert Routes.SmugglingDev(PrefixText(dest)) != "" && RouteOk(r);
    assert WellFormed(p);
    TraverseElements(RouteOf, p.routes);
    assert Traverse(RouteOf, p.routes).Success?;
    assert Traverse(RouteOf, p.routes).value == [RouteOf(r).value];
  }

  /** Inspection on, in one mode or the other, with one rule file of two lines. */
  function SilencedPolicy(mode: int): Policy {
    EMPTY_POLICY.(ids := Ids(true, mode, ["eth0"], [], [Suricata.SILENCER], 0))
  }

  /**
    The policy turns inspection on, is well-formed and compiles; and on reading its artifact the
    engine stops the inspector.
   */
  lemma ValidCanStopInspector(mode: int, t: Suricata.Template)
    requires mode in {IDS_MODE_DETECT, IDS_MODE_PREVENT} && Suricata.Fits(t)
    ensures var p := SilencedPolicy(mode);
            && WellFormed(p) && Compiled(p).Success?
            && var ir := Compiled(p).value;
            && Suricata.Intended(ir.ids) != Suricata.StopProcess
            && Suricata.DispatchOf(Suricata.ModeRead(ir.ids, ir.network, t)) == Suricata.StopProcess
  {
    SilencedCompiles(mode);
    var ir := Compiled(SilencedPolicy(mode)).value;
    hide *;
    Suricata.SilencerStops(ir.ids.value, ir.network, t);
    IntendedRuns(ir.ids.value);
  }

  lemma IntendedRuns(ids: IdsIR)
    ensures Suricata.Intended(Some(ids)) != Suricata.StopProcess
  {
  }

  lemma SilencedCompiles(mode: int)
    requires mode in {IDS_MODE_DETECT, IDS_MODE_PREVENT}
    ensures var p := SilencedPolicy(mode);
            && WellFormed(p) && Compiled(p).Success?
            && Compiled(p).value.ids.Some? && Compiled(p).value.ids.value.ruleFiles == [Suricata.SILENCER]
  {
    var p := SilencedPolicy(mode);
    Suricata.SilencerIsRelative();
    hide Suricata.SILENCER;
    assert WellFormed(p);
    assert IdsOf(p).Success? by {
      assert Traverse(ParseCidr, p.ids.homeNetworks) == Success([]);
    }
  }
}
