# OpenNGFW control plane: a verified model

OpenNGFW compiles one declarative firewall policy into the native configuration
of eight engines and commits it as one transaction. This project models that
path and proves that what the operator committed is what the engines run.

`dafny verify dfyconfig.toml` checks everything.

## How it fits together

1. **The policy compiler.** `Policy.dfy` is the policy, `Semantics.dfy` its
   meaning on packets by zone, address and service *name*, `WellFormed.dfy` what
   a valid policy is. `Validator.dfy` is the accumulating validator, `Links.dfy`
   and `Compiler.dfy` the lowering to the resolved form of `IR.dfy`,
   `NftRenderer.dfy` the nftables renderer. The target language, `Nft.dfy`, is a
   list of statements (match atoms and a verdict) with a packet evaluator over
   bit-prefix addresses (`Net.dfy`). `RuleExpansion.dfy`, `NameResolution.dfy`,
   `FilterTheorem.dfy`, `NatTheorem.dfy` and `RenderOutcome.dfy` prove that both
   evaluators agree, and when and how rendering fails; `CompiledForm.dfy` says what
   the other sections compile to, field by field.
2. **The commit protocol.** `Supervisor.dfy` (apply to all engines, restore in
   reverse), `Keys.dfy` and `Store.dfy` (buckets under eight-byte keys),
   `Commit.dfy` (the protocol as a transition system in which every read, write,
   check, apply and restore may fail), `PolicyServer.dfy` (the service, whose
   methods are proved to be steps of that system), `Replies.dfy` (what each call
   answers, records and logs, over its inputs), `Lifetime.dfy` (runs in which
   the daemon also dies in the middle of a call, stops and starts again) and
   `Traces.dfy` (what each engine is asked over a run, apply by apply).
   `RenderPipeline.dfy` is the render pipeline with its fixed set of artifacts
   (`EngineArtifacts.dfy`).
3. **Printers and parsers**, character by character over `Text.dfy`:
   `Wireguard.dfy`, `Netdev.dfy`, `Frr.dfy`, `Suricata.dfy`, `Routes.dfy`.
4. **Reconcilers and concurrency.** `Routes.dfy` and `WireguardEngine.dfy`
   (state-file reconcilers), `Process.dfy` (child process, waiters and a lock
   that is released in the middle of a restart), `SuricataEngine.dfy` (the engine that
   drives it), `Intel.dfy` (feeds and set programming), `Trigger.dfy` (the one-token
   refresh channel).
5. **`System.dfy`** joins them: after any sequence of calls, crashes and starts the
   packet filter that the nftables engine holds decides every packet as the running
   policy does. **`Kernel.dfy`** goes on to the routes and links in the kernel.

Nondeterminism is a parameter: each call takes a `World` (or the like) that says
what the database, the engines and the kernel do, and theorems hold for all of them.

## Hypotheses of the preservation theorems

- **Populated zones.** A zone list that names no interface and no `any` compiles
  to the empty list, which means "any interface". The theorems hold for every policy
  that renders, in terms of the opened policy, in which such lists are wildcards; a
  policy without them is its own opened one. For a single rule preservation holds if
  and only if this does not happen (`FilterTheorem.RulePreservedIff`), and
  `FilterTheorem.VacantZoneOpens` gives a valid policy that denies every new packet
  while its ruleset accepts it. NAT zones behave alike.
- **ICMP of its own family.** A packet with protocol 1 is IPv4, with 58 IPv6.
- **Inline inspection off.** With prevent mode on, the theorem says that every
  packet is handed to the queue first; the verdict is then not decided here.

## Where the code does something other than its comments or names suggest

- Restoring after a failed apply covers the engines that had been switched, not
  the failing one. All engines are back on the previous config if and only if the
  failing engine refused the new one, or was left with the previous one all the same,
  and each engine before it took the restore, or holds the previous one all the same
  (`Supervision.AllOrNothing`).
- A commit whose last audit write fails is reported as an error although the
  version is recorded and live, and the commit hook does not run; a candidate whose
  audit write fails is set although an error is returned
  (`CommitProtocol.ErrorsChangeOnlyTheLog` gives both, and that there are no others;
  `CommitProtocol.ErrorsThatChangeIff` says for which inputs).
- A process that exits by itself is reported as a crash if and only if its waiter
  gets the lock before the next stop or restart (`Process.EveryInterleaving`,
  `Process.CrashCanGoUnreported`). A restart can report success for a process that
  is already dead (`Process.SettledCanBeDead`).
- A WireGuard link whose deletion fails, or is missed because the state file cannot be
  read, is dropped from the state file, so it is not deleted later unless a config names
  it again (`WireguardEngine.RefusedIsForgotten`);
  a link created by an apply that fails later never gets there
  (`WireguardEngine.AbortedIsForgotten`). `WireguardEngine.RunReconciles` says that
  nothing else is left behind.
- A refresh that finds every feed dead or empty reports success and empties the sets
  (`IntelUpdater.SetsEmptyIff`). After a call that replaces the nftables table they stay
  empty until the next tick if neither the refresh in hand nor the one for the token
  programs them; there is no token when the call does not succeed and none was pending
  (`SystemTheorems.SetsStayEmptyIff`, in any order of the steps `Trigger.EmptyIff`). Such
  are the calls that fail in an engine after nftables, at the record, or at the last
  audit write (`CommitProtocol.DisplacedWithoutHookIff`).
- Device names, monitored interfaces and rule files may hold newlines as far as the
  validator is concerned. A device name can bring a second route to the kernel that no
  policy entry names (`SystemTheorems.ValidCanSmuggleRoute`, exact condition in
  `Routes.RenderedReadsBackIff`). A rule file can bring a second mode marker, and the
  last one wins: a valid policy that turns inspection on stops the inspector
  (`SystemTheorems.ValidCanStopInspector`, exact conditions in `Suricata.ModeRoundTripIff`,
  `Suricata.DispatchIff` and `Suricata.RuleFilesIff`).
- The validator does not stop at the first problem, but an interface clash with a zone
  that it skips for its own name is reported only as that zone's problem: what it names
  is in `Validation.Validate`.
- A wanted routing daemon that the daemons file has no line for is not enabled
  (`Frr.DaemonStartsIff`).
- The validator lets through strings that do not survive the WireGuard artifact;
  `Wireguard.RoundTripIff` says which, `SystemTheorems.ValidCanBeMisread` shows one.

## Model

| member | source | states |
|---|---|---|
| SystemTheorems.RunningPolicyIsEnforced | internal/apiserver/policy.go:157-205 | in any life of a node - calls, crashes in the middle of one, stops, starts - unless a crash, a stop or an alarm came after the last recorded version or successful start, the ruleset the nftables engine holds decides and rewrites every packet as the running policy does, its vacant zone lists being opened |
| SystemTheorems.EnforcesPopulated | internal/compiler/compile.go:122-140 | for a policy whose zone lists are populated that is its own decision and its own rewriting |
| SystemTheorems.EnginesReadRunningPolicy | internal/renderers/render.go:54-110 | under the same conditions every text-parsing engine reads back the compiled running policy exactly if the supplied strings allow it: tunnels, links, routes, routing daemons, and for Suricata the mode with its queue and the rule files, inspection on or off |
| SystemTheorems.RealNodeRendersFaithfully | internal/renderers/render.go:61-65 | every ruleset of the real pipeline enforces its policy on every packet: the hypothesis of the system theorem |
| SystemTheorems.RealNodePrintsReadably | internal/renderers/render.go:67-107 | whatever the real pipeline prints for an engine, the engine reads back as the compiled policy, exactly if the supplied strings meet the condition of its format |
| SystemTheorems.FedTrafficIsDropped | internal/renderers/nftables/render.go:57-73 | with inline inspection off, once a refresh has programmed the sets, traffic of no known connection from or to any fetched prefix is dropped, whatever the rules say |
| SystemTheorems.SetsStayEmptyIff | cmd/controld/main.go:135-140 | exactly when the sets stay empty until the next tick after a call and the loop left alone: they were empty or the call replaced the table, and neither the refresh in hand nor the one for the token, pending or sent by the success, programs them |
| SystemTheorems.SuccessIsFed | internal/intel/updater.go:186-205 | after a successful call, its steps and the loop's in any order, an accepted last refresh leaves the sets holding the feeds fetched for the policy just made running |
| SystemTheorems.StartIsFed | cmd/controld/main.go:126-132 | the same for a start, which sends the token itself |
| SystemTheorems.QueuesMeet | internal/renderers/nftables/render.go:54-59 | in prevent mode the ruleset hands every packet to the queue the policy names, and what the engine reads of the inspector's file is that mode and a text for that same number, exactly if no supplied string overrides mode or queue |
| KernelTheorems.PolicyRoutesApplied | internal/engines/routes.go:57-91 | from the policies of a run to the routing table: a destination has a route exactly if the last policy names it, or it had one that neither the first state file nor any policy names |
| KernelTheorems.PolicyLinksApplied | internal/engines/wireguard.go:107-146 | from the policies of a run to the tunnel links, in the same way |
| KernelTheorems.RoutesArePrinted | internal/renderers/iproute/render.go:14-38 | from the policy to the printed batch: one line for each route with its destination, and its next hop, device and metric exactly if it has one, as text whatever the device and as words where it is a word |
| KernelTheorems.RoutesAreListed | internal/compiler/compile.go:283-300 | every compiled route is the policy's, its next hop included, and leads to a gateway or a device |
| KernelTheorems.TunnelsAreRead | internal/engines/wireguard.go:43-90 | where the texts are tidy the engine reads every tunnel and peer of the policy, field by field: numbers by their value, prefixes one by one, what is not set as nothing |
| KernelTheorems.TunnelsMean | internal/engines/wireguard.go:117-122 | the names the engine reads out of a printed artifact are the policy's |
| KernelTheorems.RunningRoutesInKernel | internal/engines/engine.go:55-78 | from the protocol to the routing table: after a run of calls without an alarm since the last version, with applies that end half-way, every destination of the running policy has a route, and of the others only foreign ones and what some apply left astray |
| KernelTheorems.RunningLinksInKernel | internal/engines/engine.go:55-78 | the same for the links of the tunnels |
| EngineTraces.ActsLead | internal/engines/engine.go:55-78 | what an engine is asked in a call, and how it takes it, leads from what it held before to what it holds after |
| EngineTraces.TraceEndsOnRunning | internal/apiserver/policy.go:186-195 | over a run the last apply that an engine has not simply refused is one that put the running version on without failing, unless an alarm came later |
| SystemTheorems.ValidCanSmuggleRoute | internal/policy/validate.go:260-275 | for all prefixes a valid policy with one route whose artifact is accepted and gives the kernel a second one, to any other destination |
| SystemTheorems.ValidCanStopInspector | internal/policy/validate.go:277-297 | a valid policy turns inspection on, and its artifact makes the engine stop the inspector |
| SystemTheorems.ProgrammedTexts | internal/intel/updater.go:86-95 | an element text is in the set of its family exactly if its prefix came from a feed |
| CommitProtocol.BootRestoresRunning | cmd/controld/main.go:115-127 | at startup the running version always renders; the daemon starts exactly if the store can be read and no engine fails, and then all hold it; otherwise the first engine that fails is named, those before it hold it and those after it are untouched |
| PolicyService.Boot | cmd/controld/main.go:115-127 | startup carries out exactly that step over the store and the supervisor, a failed read included |
| SystemTheorems.ValidCanBeMisread | internal/policy/validate_routing.go:83-104 | a valid policy whose WireGuard artifact reads back differently |
| FilterTheorem.FilterPreserved | internal/renderers/nftables/render.go:52-84 | for every policy that renders, packet and blocklist content, the forward chain decides as the opened policy over names: established, invalid, blocked, first rule, drop; with populated zone lists that is the policy itself |
| FilterTheorem.RulePreservedIff | internal/compiler/compile.go:124-140 | a rule's block decides the packets the rule matches if and only if its zone lists are populated |
| FilterTheorem.VacantZoneOpens | internal/compiler/ir.go:9-11 | a valid policy denies every new packet and its ruleset accepts it |
| FilterTheorem.ForwardRuns | internal/renderers/nftables/render.go:57-84 | the decision of the chain for any compiled form: queue, connection state, blocklists, first matching rule |
| FilterTheorem.ClampsFirst | internal/renderers/nftables/render.go:57-65 | the MSS clamp stands before anything that accepts exactly if the policy asks for it |
| FilterTheorem.FirstMatchPreserved | internal/compiler/compile.go:45-54 | dropping disabled rules and resolving names gives the first match of the opened rules |
| FilterTheorem.SomePacketMatches | internal/renderers/nftables/render.go:123-188 | every rule that renders matches some packet |
| RuleExpansion.ExpansionExact | internal/renderers/nftables/render.go:121-188 | some line of a rule's block decides a packet if and only if the rule matches it |
| RuleExpansion.ExpansionShape | internal/renderers/nftables/render.go:127-187 | families times services many lines, one verdict, every family line constrained by an address of its own family |
| RuleExpansion.BlocksFirstMatch | internal/renderers/nftables/render.go:74-82 | concatenated blocks decide as the first rule that matches |
| RuleExpansion.LineExact | internal/renderers/nftables/render.go:153-184 | one line decides exactly the packets of its family, service and the rule's interfaces and addresses |
| NameResolution.ZonesPreservedIff | internal/compiler/compile.go:122-140 | the interface list means what the zone list means, for all names, if and only if it is populated |
| NameResolution.ZonesOpened | internal/compiler/compile.go:122-140 | for every zone list the interface list means what the opened zone list means |
| NameResolution.AddressesPreserved | internal/compiler/compile.go:142-158 | resolved prefixes contain the addresses the named objects cover |
| NameResolution.ServicesPreserved | internal/compiler/compile.go:181-191 | resolved service matches hold for the packets the named services match |
| NameResolution.PortRangesPreserved | internal/compiler/compile.go:273-279 | compiled ranges match the same ports and are never empty |
| NameResolution.SymbolsCorrect | internal/compiler/compile.go:26-43 | the symbol tables hold every declared object and nothing else |
| NameResolution.RulePreserved | internal/compiler/compile.go:160-204 | the opened rule and its compiled form match the same packets; a populated rule is its own opened one |
| NameResolution.RuleCompiles | internal/compiler/compile.go:193-202 | a valid rule compiles exactly if its action is a declared one, and keeps its name |
| NatTheorem.NatPreservedBoth | internal/renderers/nftables/render.go:86-106 | both NAT chains rewrite every packet as the first entry of the opened policy that selects it, and leave the others alone; with populated zones the entries are the policy's own |
| NatTheorem.NatOutcomesUnique | api/proto/openngfw/v1/policy.proto:103-129 | the lists that the chains follow allow one rewrite only |
| NatTheorem.DnatPreservedIff | internal/renderers/nftables/render.go:285-322 | exactly when a destination-NAT line selects what its entry selects |
| NatTheorem.SnatPreservedIff | internal/renderers/nftables/render.go:324-348 | exactly when a source-NAT line selects what its entry selects and can translate |
| NatTheorem.DnatLineExact | internal/compiler/compile.go:230-257 | the line's matches and target are the entry's, by name |
| NatTheorem.SnatLineExact | internal/compiler/compile.go:206-228 | the line's matches and target are the entry's, by name |
| NatTheorem.DnatOutcomeUnique | api/proto/openngfw/v1/policy.proto:116-129 | the policy allows one rewrite only |
| NatTheorem.SnatOutcomeUnique | api/proto/openngfw/v1/policy.proto:103-114 | the policy allows one rewrite only |
| RenderOutcome.RendersIff | internal/compiler/compile.go:14-114 | a valid policy renders unless detect mode has no interface, an enabled rule has disjoint families, a DNAT service has no ports, or an action is out of range; no other failure |
| RenderOutcome.CompileReports | internal/compiler/compile.go:14-114 | what compiling reports, for every policy: an invalid one as such, otherwise the first enabled rule without a declared action, and only then inspection with nothing to watch |
| RenderOutcome.RenderReports | internal/renderers/nftables/render.go:23-110 | what rendering a compiled policy reports: the first enabled rule whose sides share no address family, and only then the first destination NAT whose service has no ports |
| RenderOutcome.ConversionsLossless | internal/compiler/compile.go:273-279 | no 16-bit conversion of a valid policy loses anything |
| RenderOutcome.EmptyPolicyRenders | internal/store/store.go:104-109 | the policy of a fresh node renders |
| Validation.Validate | internal/policy/validate.go:1-46 | the pass-by-pass validator returns no error if and only if the declarative predicate holds, and every malformed entry is named in its report (a zone, possibly by one it shares an interface with) |
| Validation.Validator.CollectZones | internal/policy/validate.go:75-98 | complains unless names are good and unique and interfaces globally unique; leaves the zone table |
| Validation.Validator.CollectAddresses | internal/policy/validate.go:100-115 | the same for address objects |
| Validation.Validator.CollectServices | internal/policy/validate.go:117-146 | the same for services and their port bounds |
| Validation.Validator.CheckRules | internal/policy/validate.go:164-189 | complains unless every rule is well-formed against the tables |
| Validation.Validator.CheckSnat | internal/policy/validate.go:202-227 | complains unless every source-NAT entry is well-formed |
| Validation.Validator.CheckDnat | internal/policy/validate.go:228-257 | complains unless every destination-NAT entry is well-formed |
| Validation.Validator.CheckWireguard | internal/policy/validate_routing.go:83-123 | complains unless every tunnel is well-formed |
| Validation.Validator.CheckIntel | internal/policy/validate_intel.go:10-51 | the licence gate and the feed names |
| Validation.Validator.CheckNetwork | internal/policy/validate_network.go:13-35 | the MTU bounds and distinct overrides |
| Validation.Validator.CheckIds | internal/policy/validate.go:277-297 | the inspection section |
| Validation.Validator.CheckRoutes | internal/policy/validate.go:260-275 | the static routes |
| Compiler.Compile | internal/compiler/compile.go:14-114 | the compiler, step by step, computes the specified lowering or its first error |
| Compiler.Compilation.ResolveIfaces | internal/compiler/compile.go:124-140 | early exits and all |
| Compiler.Compilation.ResolvePrefixes | internal/compiler/compile.go:142-158 | early exits and all |
| Compiler.CompileService | internal/compiler/compile.go:259-281 | the compiled match, or an error for an unset protocol |
| Compiler.CompileIds | internal/compiler/compile.go:309-342 | defaults and the detect-mode error |
| CompiledForm.TunnelsAre | internal/compiler/compile_routing.go:58-118 | every compiled tunnel and peer is the policy's, field by field, no number cut short |
| CompiledForm.IdsAre | internal/compiler/compile.go:309-342 | there is an inspection section exactly if it is enabled; mode, interfaces (named ones, or every zone's in order), home networks, rule files and queue are the policy's or the stated defaults |
| CompiledForm.DefaultNets | internal/compiler/compile.go:302-307 | the default home networks hold an address exactly if its numbers make it one of private use |
| CompiledForm.InspectorTold | internal/renderers/suricata/render.go:54-104 | the inspector's file names the policy's home networks, or the default ones, and the queue, or every interface to be watched under a cluster number of its own |
| CompiledForm.RuleFilesStayInside | internal/policy/validate.go:289-293 | no rule file of a compiled policy leads out of the rules directory, walking its path component by component |
| CompiledForm.DaemonsAre | internal/compiler/compile_routing.go:10-56 | the routing engine reads each protocol's daemon out of its artifact exactly if the policy turns that protocol on, once and nothing else |
| CompiledForm.NetworkIs | internal/compiler/compile_network.go:10-60 | there is a network section exactly if there is something to set; clamp and offloads are the policy's |
| NftRenderer.Render | internal/renderers/nftables/render.go:23-110 | the renderer, chain by chain, computes the specified ruleset or its first error |
| NftRenderer.RuleLines | internal/renderers/nftables/render.go:123-188 | the block of a rule, family by family and service by service |
| NftRenderer.SplitFamily | internal/renderers/nftables/render.go:201-210 | both families, in order |
| NftRenderer.DnatLine | internal/renderers/nftables/render.go:285-322 | the destination-NAT line or its error |
| NftRenderer.SnatLine | internal/renderers/nftables/render.go:324-348 | the source-NAT line |
| LinkCompiler.CompileNetwork | internal/compiler/compile_network.go:10-60 | overrides, deduplication, maximum and offloads as specified |
| LinkCompiler.ManagedOnce | internal/compiler/compile_network.go:23-44 | every managed interface - of a zone under a global MTU, or overridden - is listed exactly once, zones first, and none is missing |
| LinkCompiler.MtuValues | internal/compiler/compile_network.go:31-49 | an override beats the global value, every MTU is from 1280 to 9600, the maximum is attained |
| LinkCompiler.MaxMtuIsMaximum | internal/compiler/compile_network.go:45-49 | the running maximum is the maximum |
| Registry.LookupInFinds | internal/intel/registry.go:79-86 | a lookup finds a feed of that name exactly if there is one |
| RenderPipeline.RenderAll | internal/renderers/render.go:54-110 | the artifact map, filled key by key with early error returns |
| RenderPipeline.EveryEngineCovered | internal/renderers/render.go:59-109 | every rendered policy covers every engine, so the previous set always covers the next |
| RenderPipeline.OtherArtifacts | internal/renderers/render.go:79-95 | the artifacts of the sections kept abstract are what their own renderers say, and the routing body follows the marker line exactly with a protocol on |
| Supervision.Supervisor.Apply | internal/engines/engine.go:55-78 | the live configs and the outcome are those of the specified run of switches and restores |
| Supervision.Supervisor.Restore | internal/engines/engine.go:64-72 | the reverse loop and the engines it failed to restore |
| Supervision.Supervisor.Validate | internal/engines/engine.go:38-49 | the first engine that refuses an artifact it has |
| Supervision.FirstRefusalIs | internal/engines/engine.go:38-49 | none exactly if every engine with an artifact accepts it; otherwise the first of those that refuse |
| Supervision.AllOrNothing | internal/engines/engine.go:51-78 | all on next exactly if all switch; otherwise the first engine that does not is reported with exactly the engines whose restore failed, in reverse order, and all others are back; the condition on the inputs for all to be back |
| Supervision.AppliedAt | internal/engines/engine.go:57-77 | what each engine holds afterwards, whatever the artifact sets cover |
| Supervision.UnrestoredAre | internal/engines/engine.go:64-72 | exactly the applied engines whose restore failed, in reverse order |
| StoreKeys.PutUint64 | internal/store/store.go:232-236 | the eight-byte big-endian key |
| StoreKeys.KeyReadsBack | internal/store/store.go:116 | a key decodes to its number, so keys are injective |
| StoreKeys.KeyOrder | internal/store/store.go:182 | the byte order of keys is the order of numbers |
| StoreKeys.CursorStep | internal/store/store.go:182 | the cursor walks the numbers downwards |
| StoreKeys.ListNewest | internal/store/store.go:175-192 | newest first, at most limit, a hundred without a positive limit |
| PolicyStore.Store.CommitVersion | internal/store/store.go:142-172 | next id, running pointer, cleared candidate, or nothing at all |
| PolicyStore.Store.SetCandidate | internal/store/store.go:79-88 | replaces the candidate or changes nothing |
| PolicyStore.Store.GetRunning | internal/store/store.go:104-124 | the last version and its id, the empty policy and zero on a fresh node |
| PolicyStore.Store.GetVersion | internal/store/store.go:126-140 | the version with that id, or not found |
| PolicyStore.Store.AppendAudit | internal/store/store.go:194-210 | one more entry under the next id, or nothing |
| PolicyStore.Store.ListVersions | internal/store/store.go:174-192 | metadata, newest first |
| PolicyStore.Store.ListAudit | internal/store/store.go:212-230 | entries, newest first |
| PolicyService.NodeIsSound | internal/apiserver/policy.go:20-21 | the real pipeline renders the empty policy, refuses invalid ones and covers every engine, which is all the protocol relies on |
| PolicyService.PolicyServer.SetCandidate | internal/apiserver/policy.go:77-94 | a step of the protocol, reply included |
| PolicyService.PolicyServer.Commit | internal/apiserver/policy.go:119-137 | a step of the protocol, reply included |
| PolicyService.PolicyServer.Rollback | internal/apiserver/policy.go:139-153 | a step of the protocol, reply included |
| PolicyService.PolicyServer.Apply | internal/apiserver/policy.go:155-205 | the shared path, stage by stage |
| PolicyService.PolicyServer.Validate | internal/apiserver/policy.go:96-117 | the same checks, touching nothing |
| CommitReplies.RollbackRecords | internal/apiserver/policy.go:139-205 | a rollback that records a version has recorded the policy of the version it names, for this caller and as such a rollback, and every engine holds that policy |
| CommitReplies.CommitRecords | internal/apiserver/policy.go:119-205 | a commit that records a version has recorded the candidate under the given comment, and every engine holds it |
| CommitReplies.NothingToApply | internal/apiserver/policy.go:122-146 | exactly which commits and rollbacks have nothing to apply: an unreadable store, no candidate, a version number that no version has |
| CommitReplies.SettingAnswers | internal/apiserver/policy.go:77-94 | what setting a candidate answers and changes, for every way the two writes can go |
| CommitReplies.RepliesAre | internal/apiserver/policy.go:157-205 | what every commit and rollback answers, over its inputs: each stage reports exactly if it fails and all before it passed, the engine check the first engine that says no, a failed apply the first that does not switch and exactly the engines whose restore failed |
| CommitReplies.ChecksGate | internal/apiserver/policy.go:173-178 | no version is recorded and no engine changed unless every engine's check has said yes |
| CommitReplies.LogSays | internal/apiserver/policy.go:158-204 | the entry that a call writes, by its answer: failed attempts included, commits and rollbacks each as such |
| CommitReplies.VerdictsAre | internal/apiserver/policy.go:96-117 | what the dry run answers, over its inputs: valid exactly if the validator, the renderers and every engine's check say so |
| CommitProtocol.CallEffect | internal/apiserver/policy.go:155-205 | a success has recorded the target under the next id, made it running, cleared the candidate, audited it and run the hook once; versions and log entries are only ever added |
| CommitProtocol.ErrorsChangeOnlyTheLog | internal/apiserver/policy.go:158-164 | an error changes only the audit log, except exactly when it is the audit write itself |
| CommitProtocol.ErrorsThatChangeIff | internal/apiserver/policy.go:186-200 | for which inputs a call that reports an error has recorded a version, or set a candidate, all the same |
| CommitProtocol.StepSyncs | internal/apiserver/policy.go:177-195 | what one call does to the engines, with the condition on the inputs for all to be back after a failed apply |
| CommitProtocol.EnginesFollowStore | internal/apiserver/policy.go:186-195 | over any run of calls the engines hold the running policy unless a later call raised an alarm |
| CommitProtocol.DisplacedIff | internal/engines/engine.go:55-78 | which engines a call has made drop what they held, by its reply and whether the failing engine was damaged, which the reply does not show; the others hold what they held |
| CommitProtocol.DisplacedWithoutHookIff | internal/apiserver/policy.go:186-203 | exactly the replies after which an engine was displaced and the commit hook has not run |
| NodeLifetime.EnginesFollowStoreForLife | cmd/controld/main.go:115-127 | the same over lives: crashes at any point of a call, stops, and starts that find the engines in any state; a successful start restores it |
| NodeLifetime.TrustGrows | cmd/controld/main.go:115-127 | from which events on the engines are known to hold the running policy - a recorded version, a successful start - and which keep it: every call that reports no trouble with engines or record, and a failed apply cleanly undone |
| NodeLifetime.HistorySurvives | internal/store/store.go:142-172 | no event of a life changes or removes a version or a log entry |
| NodeLifetime.AlwaysRestartable | cmd/controld/main.go:117-125 | in every state of a life that began fresh, starting never fails to render, and rollback to a stored version is never unknown, invalid or unrenderable |
| NodeLifetime.VersionsAreAuditedForLife | internal/apiserver/policy.go:189-200 | every version recorded in a life is in the audit log, or its caller was told, or the daemon died between the two writes |
| CommitProtocol.AlwaysReappliable | internal/apiserver/policy.go:144-184 | in every reachable state rollback to a stored version is never unknown, invalid or unrenderable, and rendering the previous policy never fails |
| CommitProtocol.HistoryIsKept | internal/store/store.go:142-172 | versions and log entries never change |
| CommitProtocol.VersionsAreAudited | internal/apiserver/policy.go:196-200 | every recorded version is in the audit log or its caller was told that it is not |
| CommitProtocol.ValidatePredictsCommit | internal/apiserver/policy.go:96-117 | a candidate found valid gets past the same stages on commit; a fault found is the fault commit reports |
| Wireguard.Render | internal/renderers/wireguard/render.go:20-49 | the printed artifact; what it says of the policy is in KernelTheorems.TunnelsAreRead |
| Wireguard.Parse | internal/engines/wireguard.go:43-90 | the line-by-line parse with its three errors |
| Wireguard.ParsesIff | internal/engines/wireguard.go:43-90 | for every text: it parses exactly if its keys come in a possible order, and fails with the first error in it |
| Wireguard.RoundTripIff | internal/engines/wireguard.go:43-90 | the artifact reads back as the same interfaces, peers and attributes in order if and only if every string is trimmed and newline-free |
| WireguardEngine.Engine.Apply | internal/engines/wireguard.go:107-153 | links, state file and result for every way to end: no parse, no directory, an interface that fails with its link added or not, an unreadable state file, refused deletions, a state file that cannot be written |
| WireguardEngine.StateReadsBack | internal/engines/wireguard.go:135-145 | the state file reads back as the names written |
| WireguardEngine.RunReconciles | internal/engines/wireguard.go:107-146 | over any run that ends with a success, failed applies included: foreign links are untouched, the last config's exist, and nothing else managed is left but what an apply left astray: created by one that failed, or not deleted on refusal or for want of the state file |
| WireguardEngine.CleanRun | internal/engines/wireguard.go:107-146 | where nothing went astray, of all that was ever managed exactly the last config's links are left |
| WireguardEngine.StraysStay | internal/engines/wireguard.go:134-140 | a link that no state file names is deleted by no later apply |
| WireguardEngine.AbortedIsForgotten | internal/engines/wireguard.go:124-132 | a link created by an apply that then fails stays, unless the state file named it or a later config does |
| WireguardEngine.NothingStaleIff | internal/engines/wireguard.go:134-140 | nothing stale is left by an apply if and only if no deletion that matters is refused |
| WireguardEngine.RefusedIsForgotten | internal/engines/wireguard.go:134-145 | a deletion that was refused, or missed for want of the state file, is never tried again |
| Text.DecReads | internal/renderers/netdev/render.go:22 | a printed number has digits only, no zero in front, and reads as the number by the codes of its characters |
| Text.NumeralIsDec | internal/renderers/netdev/render.go:22 | there is one such text for each number |
| Routes.Render | internal/renderers/iproute/render.go:14-23 | the printed batch |
| Routes.Line | internal/renderers/iproute/render.go:25-38 | one printed route; what it says is in KernelTheorems.RoutesArePrinted |
| Routes.Validate | internal/engines/routes.go:40-52 | accepts exactly the configs of replace statements |
| Routes.Engine.Apply | internal/engines/routes.go:57-91 | the batch run against the table, whole or as far as the ip command got, the state file, readable or not, and the result |
| Routes.Engine.Script | internal/engines/routes.go:63-80 | the config followed by one delete for every managed destination no longer wanted |
| Routes.BatchReconciles | internal/engines/routes.go:57-91 | one apply leaves exactly the wanted destinations of the managed ones and touches no other |
| Routes.RunReconciles | internal/engines/routes.go:17-20 | over any run of successful applies the table is the last config's destinations plus the untouched foreign ones |
| Routes.FailuresReconcile | internal/engines/routes.go:57-91 | over any run that ends with a success, batches broken off anywhere and unsaved state files included: foreign destinations are untouched, the last config's are there, and of the others only what a failed apply may have left |
| Routes.PartBounds | internal/engines/routes.go:82-89 | however far a batch gets, it adds the config's destinations only and removes managed ones only |
| Routes.RenderedReadsBackIff | internal/engines/routes.go:93-110 | a rendered batch is accepted, has one line per route and reads back the routes' destinations in order if and only if, in every device text, a newline is followed by white space only and no metric is printed |
| Routes.RoutesApplied | internal/engines/routes.go:57-91 | the table after the printed routes of one list after the other |
| Routes.SmuggledRoute | internal/renderers/iproute/render.go:25-38 | one printed route whose device text brings a second |
| Frr.MarkerRoundTrip | internal/engines/frr.go:57-70 | the engine recovers exactly the enabled protocols, for every body |
| Frr.ParseDaemons | internal/engines/frr.go:58-70 | the first marker line decides |
| Frr.Render | internal/renderers/frr/render.go:21-36 | the marker line and the body |
| Frr.EnableDaemons | internal/engines/frr.go:128-156 | the rewritten file |
| Frr.RewriteIsLinewise | internal/engines/frr.go:141-155 | same lines in the same order; a line that sets bgpd or ospfd becomes that name with =yes if wanted and =no if not, all others are unchanged |
| Frr.RewriteTwice | internal/engines/frr.go:128-156 | only the last rewrite counts; idempotence |
| Frr.DaemonStartsIff | internal/engines/frr.go:128-156 | after the rewrite the last line for a daemon says yes if and only if it is wanted and the file had a line for it |
| Frr.Engine.Apply | internal/engines/frr.go:90-121 | a node that never enabled routing is left alone; otherwise files and mark as specified, up to the first write that fails |
| Suricata.Render | internal/renderers/suricata/render.go:35-111 | the printed artifact; what it says is in CompiledForm.InspectorTold, Suricata.CaptureCoversLinks and Suricata.DispatchIff |
| Suricata.ParseMode | internal/engines/suricata.go:46-59 | the last markers win |
| Suricata.EnsureRuleFiles | internal/engines/suricata.go:64-92 | creates exactly the files that the scanned names resolve to, up to the first that cannot be created |
| Suricata.ModeIsRead | internal/engines/suricata.go:46-59 | mode and queue that the engine reads: the compiled ones, unless a further line of a supplied string starts with a marker; then the last such line counts |
| Suricata.ModeRoundTripIff | internal/engines/suricata.go:46-59 | mode and queue are recovered if and only if the last such lines, where there are any, name the same values |
| Suricata.DispatchIff | internal/engines/suricata.go:117-141 | the engine stops, monitors or inspects inline as the compiled form says if and only if no supplied string overrides it |
| Suricata.OneLinersUndisturbed | internal/renderers/suricata/render.go:84-104 | strings that stay on their lines override nothing |
| Suricata.SilencerStops | internal/engines/suricata.go:46-59 | one rule file stops the inspector in either mode |
| Suricata.NodeTemplateFits | internal/renderers/suricata/render.go:70-108 | the fixed blocks of the file hold no marker and no rule-file heading, so the template fits exactly if the directories stay on their line |
| SuricataEngine.Engine.BeginApply | internal/engines/suricata.go:117-141 | stops, restarts or refuses by mode, after writing the files; a stop writes nothing, and a write that fails leaves the process alone |
| SuricataEngine.OneInspector | internal/engines/suricata.go:117-141 | without inspection no process is current; with it the new one is, exactly if no supplied string switches to a mode that does not run; every other live one is told to stop |
| Suricata.RuleFilesIff | internal/engines/suricata.go:70-90 | the scan recovers the rule-file list if and only if every name is trimmed and newline-free and no printed interface starts a list on its further lines |
| Suricata.CaptureCoversLinks | internal/renderers/suricata/render.go:64-68 | the number printed as capture length is the largest managed MTU and 18 bytes: a frame of every managed link fits and no more is taken than that needs |
| Netdev.Render | internal/renderers/netdev/render.go:15-31 | the printed artifact; what it says is in Netdev.PolicyMtusApplied |
| Netdev.Parse | internal/engines/netdev.go:29-46 | the parsed directives or the first unknown one |
| Netdev.ParsesIff | internal/engines/netdev.go:29-46 | for every text: it parses exactly if every line is a comment or one of the two directives, into what the lines ask for in order, and fails with the first line that is neither |
| Netdev.RoundTripIff | internal/engines/netdev.go:29-46 | links and offloads read back if and only if every interface name is a word |
| Netdev.Engine.Apply | internal/engines/netdev.go:73-92 | directives carried out in order up to the one that fails |
| Netdev.LinksAsRendered | internal/engines/netdev.go:79-90 | every managed link gets a text for its own MTU, no other changes, and the offloads of exactly the listed interfaces are turned off |
| Netdev.PolicyMtusApplied | internal/compiler/compile_network.go:17-44 | from the policy to the links: on every managed interface a text for its override or else the global MTU, no other touched; read so by the engine exactly if interface names are words |
| Process.EveryInterleaving | internal/engines/process.go:22-86 | the current process is the last started and untold, every other live one was told to stop, a collected one was reported exactly if untold |
| Process.RestartOutcome | internal/engines/process.go:52-61 | a restart succeeds exactly if the process it started is neither told nor collected |
| Process.StaleWaiterIsHarmless | internal/engines/process.go:39-50 | a waiter clears the current process only if it is its own; its crash test is exact |
| Process.HistoryIsKept | internal/engines/process.go:39-50 | told, collected and reported never change back; reported at most once |
| Process.CrashCanGoUnreported | internal/engines/process.go:42-49 | a surprise exit that a stop overtakes is not reported |
| Process.SettledCanBeDead | internal/engines/process.go:52-61 | a restart can succeed on a dead process |
| Process.Manager.BeginRestart | internal/engines/process.go:23-37 | the first critical section of a restart |
| Process.Manager.EndRestart | internal/engines/process.go:57-61 | the second |
| Process.Manager.StopLocked | internal/engines/process.go:71-86 | bumps the generation, clears and tells the current process |
| Process.Manager.Waiter | internal/engines/process.go:39-50 | the waiter's critical section |
| IntelUpdater.EnabledFeeds | internal/intel/updater.go:157-182 | the enabled feeds or the first error |
| IntelUpdater.FeedsAre | internal/intel/updater.go:157-182 | for every intelligence section: refused exactly if an enabled built-in is not registered or its licence forbids the declared use; otherwise exactly the enabled built-ins and every custom feed |
| IntelUpdater.FeedsAgree | internal/intel/updater.go:155-182 | for valid policies no error, every built-in permits the declared use, non-empty exactly when the ruleset declares the sets |
| IntelUpdater.Chunks | internal/intel/updater.go:143-153 | nothing lost or reordered, sizes one to size, only the last short |
| IntelUpdater.SetScript | internal/intel/updater.go:109-118 | from any contents the script leaves exactly the given elements |
| IntelUpdater.Partition | internal/intel/updater.go:86-95 | each prefix's text once in its family's list; the counts add up |
| IntelUpdater.Updater.Refresh | internal/intel/updater.go:53-105 | sets hold the merged feeds and the reported count is the number of distinct prefixes, or nothing changes; which error is reported |
| IntelUpdater.SetsHoldMerged | internal/intel/updater.go:71-95 | a prefix's text is in its family's set exactly if some feed that could be fetched has the prefix |
| IntelUpdater.SetsEmptyIff | internal/intel/updater.go:72-86 | a refresh leaves the sets empty if and only if every feed failed or came back empty |
| Trigger.NoWakeupIsLost | internal/intel/updater.go:186-205 | in every reachable state a token is pending, or the loop has still to read, or has read a version at least as new as every notified one |
| Trigger.CatchesUp | internal/intel/updater.go:192-204 | left alone the loop catches up in at most five steps; the sets are then empty exactly if they were, and neither the refresh in hand nor the one for the token programs them |
| Trigger.StayClearedIff | cmd/controld/main.go:135-140 | the exact condition for sets that stay empty after a call |
| Trigger.EmptyIff | internal/intel/updater.go:186-205 | in any run, in any order, the sets are empty exactly if no refresh has programmed them since the table was last replaced |
| Trigger.FilledAfterHook | internal/intel/updater.go:186-205 | after a hook, everything before it and the loop's steps in any order, a refresh has read the version then running, and the sets hold what the last one programmed, for that version |

## Left out

- Telemetry, BGP, OSPF and IPsec sections: their checks and field-by-field copies are inputs (`OtherSections`, `Options`); their renderers cannot fail.
- Address, CIDR, URL, host-and-port and base64 parsing: their answers are part of the policy (`Option<Prefix>`, `keyOk`, `endpointOk`, `urlOk`). Printed addresses are a stand-in text that is injective and has no white space or comma.
- The text of the nftables ruleset and what nft accepts in it (overlapping intervals, wildcards in interface names); logging, counters and comments.
- The verdict of the inspection queue and its bypass, what the MSS clamp does to a packet, and the input chain (a fixed chain that filters no forwarded traffic).
- How the prerouting, forward and postrouting hooks follow one another on one packet: each chain is compared with the policy on the packet it sees.
- Strings are sequences of characters: the byte length of a non-ASCII name is not modelled, and a scanner's 64 KiB line limit is not.
- Command execution, files, HTTP and the database are steps that succeed or fail; a transaction commits or changes nothing; encoding and decoding are the identity.
- Sequence numbers: the store and the service require that fewer than 2^64 - 2 versions and log entries exist, so the wrap-around of the counters is not reached.
- Feed parsing, the order in which elements are sorted, wall-clock times, tickers and time-outs (they are nondeterministic steps).
- gRPC, the gateway, roles and tokens, the CLI, the web UI, EVE reading and GetPolicy: no algorithm.
- Suricata.DispatchIff: requires that the node's own directories, which are not part of a policy, stay on their line.
- NodeLifetime.EnginesFollowStoreForLife: a crash falls between store transactions, each of which is done or not begun; child processes and the refresh loop of a daemon that dies are not followed.
- Routes.RunReconciles: works at the granularity of destinations, as the engine does; two routes to one destination count once.
- WireguardEngine.Engine.Apply: a link is its name; addresses, keys and peers that are set on it are not modelled.
