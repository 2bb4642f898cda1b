/** The policy service: the commit protocol carried out over the store and the supervised engines. */
module PolicyService {
  import opened RenderPipeline
  import opened EngineArtifacts
  import opened Basics
  import opened CommitProtocol
  import opened PolicyModel
  import opened PolicyStore
  import opened RenderOutcome
  import opened StoreKeys
  import opened Supervision
  import opened WellFormedness
  import Validation

  /** The validator's verdicts and the render pipeline, as values. */
  ghost function Verdicts(): Policy -> bool {
    p => WellFormed(p)
  }

  ghost function Pipeline(o: Options): Policy -> Option<Artifacts> {
    p => ArtifactsOf(p, o)
  }

  ghost function NodeOf(names: seq<EngineName>, o: Options): Node {
    Node(names, Verdicts(), Pipeline(o))
  }

  /** The real pipeline is one the protocol can rely on. */
  lemma NodeIsSound(names: seq<EngineName>, o: Options)
    ensures Sound(NodeOf(names, o))
  {
    var n := NodeOf(names, o);
    EmptyPolicyRenders();
    EveryEngineCovered(EMPTY_POLICY, o);
    hide ArtifactsOf, WellFormed;
    forall p | n.render(p).Some?
      ensures n.valid(p) && forall m: EngineName :: m in n.render(p).value
    {
      EveryEngineCovered(p, o);
    }
  }

  /** At startup: apply the running version, if there is one, without anything to restore. */
  method Boot(store: Store, sup: Supervisor, options: Options, readable: bool, fates: seq<Fate>) returns (r: Start)
    requires store.Valid() && sup.Valid() && |fates| == |sup.engines|
    modifies sup.engines
    ensures var n := NodeOf(sup.Names(), options);
            var s := Sys(store.history, store.candidate, store.log, old(sup.LiveNow()), 0);
            (sup.LiveNow(), r) == Booted(s, n, readable, old(sup.LiveNow()), fates)
  {
    hide LIMIT, Holds, Policies, Infos, Records, U64Key, ArtifactsOf, Applied;
    var running := store.GetRunning(readable);
    if running.Failure? {
      return NotReadable;
    }
    if running.value.1 == 0 {
      return Started;
    }
    var arts := RenderAll(running.value.0, options);
    if arts.None? {
      return NotRendered;
    }
    var out := sup.Apply(arts.value, map[], fates, fates);
    return if out.Done? then Started else NotApplied(out.engine);
  }

  class PolicyServer {
    const store: Store
    const sup: Supervisor
    const options: Options
    var hooks: nat

    constructor (store: Store, sup: Supervisor, options: Options)
      requires store.Valid() && sup.Valid()
      ensures this.store == store && this.sup == sup && this.options == options && hooks == 0
    {
      this.store, this.sup, this.options, hooks := store, sup, options, 0;
    }

    ghost function Now(): Sys
      reads this, store, sup.engines
    {
      Sys(store.history, store.candidate, store.log, sup.LiveNow(), hooks)
    }

    ghost function ThisNode(): Node {
      NodeOf(sup.Names(), options)
    }

    ghost predicate Valid()
      reads store
    {
      store.Valid() && sup.Valid()
    }

    /** The world says what it does to every engine. */
    predicate ForAll(w: World) {
      |w.checks| == |w.fates| == |w.restores| == |sup.engines|
    }

    /** Numbers are left for one more version and one more log entry. */
    ghost predicate Room()
      reads store
    {
      |store.history| < LIMIT - 2 && |store.log| < LIMIT - 2
    }

    method SetCandidate(policy: Option<Policy>, actor: string, w: World) returns (reply: Reply)
      requires Valid() && Room() && ForAll(w)
      modifies store`candidate, store`audit, store`auditSeq, store`log
      ensures Valid()
      ensures (Now(), reply) == Step(old(Now()), ThisNode(), Call(CommitProtocol.SetCandidate(policy), actor, w))
    {
      hide LIMIT, Holds, Policies, Infos, Records, U64Key;
      if policy.None? {
        return Refused(NoPolicy);
      }
      var p := policy.value;
      var stored := store.SetCandidate(p, w.writes);
      if !stored {
        return Refused(NotStored);
      }
      var audited := store.AppendAudit(Entry(actor, CandidateSet(|p.zones|, |p.rules|)), w.audits);
      if !audited {
        return Refused(NotAudited);
      }
      return Accepted;
    }

    /** Audit a failed attempt, ignoring whether that works, and refuse. */
    method Refuse(stage: Stage, ghost c: Call, actor: string, activity: Activity, audits: bool) returns (reply: Reply)
      requires Valid() && Room() && c.actor == actor && ActivityOf(c.op) == activity && c.world.audits == audits
      modifies store`audit, store`auditSeq, store`log
      ensures Valid() && (Now(), reply) == Fail(old(Now()), stage, c)
    {
      hide LIMIT, Holds, Policies, Infos, Records, U64Key;
      var _ := store.AppendAudit(Entry(actor, AttemptFailed(activity, stage)), audits);
      return Refused(FailedAt(stage));
    }

    /** Record what was made live. */
    method RecordVersion(p: Policy, op: Op, actor: string, w: World) returns (reply: Reply)
      requires Valid() && Room()
      modifies this`hooks, store
      ensures Valid() && (Now(), reply) == Record(old(Now()), p, Call(op, actor, w))
    {
      hide LIMIT, Holds, Policies, Infos, Records, U64Key;
      ghost var c := Call(op, actor, w);
      var id := store.CommitVersion(p, actor, CommentOf(op), w.writes);
      if id.None? {
        reply := Refuse(AtRecord, c, actor, ActivityOf(op), w.audits);
        return;
      }
      var audited := store.AppendAudit(Entry(actor, Recorded(ActivityOf(op), CommentOf(op), id.value)), w.audits);
      if !audited {
        return Refused(Unaudited(id.value));
      }
      hooks := hooks + 1;
      return Succeeded(id.value);
    }

    /** Switch all engines over, then record; a failed switch is already undone when it is reported. */
    method SwitchAndRecord(p: Policy, next: Artifacts, prev: Artifacts, op: Op, actor: string, w: World)
      returns (reply: Reply)
      requires Valid() && Room() && ForAll(w)
      modifies this`hooks, store, sup.engines
      ensures Valid() && (Now(), reply) == SwitchOver(old(Now()), ThisNode(), p, next, prev, Call(op, actor, w))
    {
      hide LIMIT, Holds, Policies, Infos, Records, U64Key, Applied;
      var out := sup.Apply(next, prev, w.fates, w.restores);
      match out {
        case Failed(e, unrestored) =>
          reply := Refuse(AtApply(e, unrestored), Call(op, actor, w), actor, ActivityOf(op), w.audits);
        case Done =>
          reply := RecordVersion(p, op, actor, w);
      }
    }

    /** The path shared by commit and rollback. */
    method Apply(p: Policy, op: Op, actor: string, w: World) returns (reply: Reply)
      requires Valid() && Room() && ForAll(w)
      modifies this`hooks, store, sup.engines
      ensures Valid() && (Now(), reply) == ApplyPolicy(old(Now()), ThisNode(), p, Call(op, actor, w))
    {
      hide LIMIT, Holds, Policies, Infos, Records, U64Key, WellFormed, ArtifactsOf, SwitchOver;
      ghost var c := Call(op, actor, w);
      var errs := Validation.Validate(Some(p));
      if |errs| > 0 {
        reply := Refuse(AtValidation, c, actor, ActivityOf(op), w.audits);
        return;
      }
      var next := RenderAll(p, options);
      if next.None? {
        reply := Refuse(AtRender, c, actor, ActivityOf(op), w.audits);
        return;
      }
      var refused := sup.Validate(next.value, w.checks);
      if refused.Some? {
        reply := Refuse(AtEngineCheck(refused.value), c, actor, ActivityOf(op), w.audits);
        return;
      }
      var running := store.GetRunning(w.readsRunning);
      if running.Failure? {
        reply := Refuse(AtReadRunning, c, actor, ActivityOf(op), w.audits);
        return;
      }
      var prev := RenderAll(running.value.0, options);
      if prev.None? {
        reply := Refuse(AtRenderPrevious, c, actor, ActivityOf(op), w.audits);
        return;
      }
      reply := SwitchAndRecord(p, next.value, prev.value, op, actor, w);
    }

    method Commit(comment: string, actor: string, w: World) returns (reply: Reply)
      requires Valid() && Room() && ForAll(w)
      modifies this`hooks, store, sup.engines
      ensures Valid()
      ensures (Now(), reply) == Step(old(Now()), ThisNode(), Call(CommitProtocol.Commit(comment), actor, w))
    {
      hide LIMIT, Holds, Policies, Infos, Records, U64Key, ApplyPolicy;
      var candidate := store.GetCandidate(w.readable);
      if candidate.Failure? {
        return Refused(NotRead);
      }
      if candidate.value.None? {
        return Refused(NoCandidate);
      }
      reply := Apply(candidate.value.value, CommitProtocol.Commit(comment), actor, w);
    }

    method Rollback(version: nat, actor: string, w: World) returns (reply: Reply)
      requires Valid() && Room() && ForAll(w) && version < LIMIT
      modifies this`hooks, store, sup.engines
      ensures Valid()
      ensures (Now(), reply) == Step(old(Now()), ThisNode(), Call(CommitProtocol.Rollback(version), actor, w))
    {
      hide LIMIT, Holds, Policies, Infos, Records, U64Key, ApplyPolicy;
      var target := store.GetVersion(version, w.readable);
      if target.Failure? {
        return Refused(if target.error == Unreadable then NotRead else NoSuchVersion);
      }
      reply := Apply(target.value, CommitProtocol.Rollback(version), actor, w);
    }

    /** Check the candidate end to end, touching nothing. */
    method Validate(w: World) returns (v: Verdict)
      requires Valid() && ForAll(w)
      ensures v == Checked(Now(), ThisNode(), w)
    {
      hide WellFormed, ArtifactsOf;
      var candidate := store.GetCandidate(w.readable);
      if candidate.Failure? {
        return Unread;
      }
      if candidate.value.None? {
        return NothingToCheck;
      }
      var errs := Validation.Validate(candidate.value);
      if |errs| > 0 {
        return Invalid(AtValidation);
      }
      var arts := RenderAll(candidate.value.value, options);
      if arts.None? {
        return Invalid(AtRender);
      }
      var refused := sup.Validate(arts.value, w.checks);
      if refused.Some? {
        return Invalid(AtEngineCheck(refused.value));
      }
      return CommitProtocol.Valid;
    }
  }
}
