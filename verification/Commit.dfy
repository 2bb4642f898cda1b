/**
  The commit protocol as a transition system: what each call does to the store, the engines and
  the audit log, for every way in which the world can fail it.
 */
module CommitProtocol {
  import opened EngineArtifacts
  import opened Basics
  import opened PolicyModel
  import opened PolicyStore
  import opened Supervision

  /** The store's contents, what every engine holds, and how often the commit hook has run. */
  datatype Sys = Sys(history: seq<Version>, candidate: Option<Policy>, log: seq<Entry>, live: Live, hooks: nat)

  /** What stays fixed: the engines' names in apply order, the validator's verdicts, and the render pipeline. */
  datatype Node = Node(names: seq<EngineName>, valid: Policy -> bool, render: Policy -> Option<Artifacts>)

  /**
    What the protocol relies on: the pipeline refuses invalid policies, covers every engine, and renders
    the empty policy.
   */
  ghost predicate Sound(n: Node) {
    && n.render(EMPTY_POLICY).Some?
    && forall p :: n.render(p).Some? ==> n.valid(p) && forall m: EngineName :: m in n.render(p).value
  }

  /** How the world treats one call: store reads and writes, engine checks, applies and restores. */
  datatype World = World(readable: bool, readsRunning: bool, writes: bool, audits: bool,
                         checks: seq<bool>, fates: seq<Fate>, restores: seq<Fate>)

  datatype Op = SetCandidate(policy: Option<Policy>) | Commit(comment: string) | Rollback(version: nat)

  datatype Call = Call(op: Op, actor: string, world: World)

  datatype Refusal =
    | NoPolicy
    | NotStored
    | NotAudited
    | NotRead
    | NoCandidate
    | NoSuchVersion
    | FailedAt(stage: Stage)
    | Unaudited(version: nat)

  datatype Reply = Accepted | Succeeded(version: nat) | Refused(why: Refusal)

  predicate Fits(s: Sys, n: Node) {
    |s.live| == |n.names|
  }

  predicate WorldFits(w: World, n: Node) {
    |w.checks| == |w.fates| == |w.restores| == |n.names|
  }

  function ActivityOf(op: Op): Activity {
    if op.Rollback? then RollingBack else Committing
  }

  function CommentOf(op: Op): Comment {
    match op
    case SetCandidate(_) => Given("")
    case Commit(comment) => Given(comment)
    case Rollback(version) => RollbackTo(version)
  }

  /** The policy a call would make live. */
  function Target(s: Sys, op: Op): Option<Policy> {
    match op
    case SetCandidate(_) => None
    case Commit(_) => s.candidate
    case Rollback(v) => if 1 <= v <= |s.history| then Some(s.history[v - 1].policy) else None
  }

  function VersionOf(p: Policy, c: Call): Version {
    Version(p, c.actor, CommentOf(c.op))
  }

  // ---- the steps ----

  /** A failed attempt is audited if the log can be written; that write failing is ignored. */
  function Fail(s: Sys, stage: Stage, c: Call): (Sys, Reply) {
    (s.(log := if c.world.audits then s.log + [Entry(c.actor, AttemptFailed(ActivityOf(c.op), stage))] else s.log),
     Refused(FailedAt(stage)))
  }

  /** Once every engine is on the new artifacts: record the version, audit it, run the hook. */
  function Record(s: Sys, p: Policy, c: Call): (Sys, Reply) {
    if !c.world.writes then Fail(s, AtRecord, c)
    else
      var id := |s.history| + 1;
      var s' := s.(history := s.history + [VersionOf(p, c)], candidate := None);
      if !c.world.audits then (s', Refused(Unaudited(id)))
      else (s'.(log := s.log + [Entry(c.actor, Recorded(ActivityOf(c.op), CommentOf(c.op), id))], hooks := s.hooks + 1),
            Succeeded(id))
  }

  /** Switch the engines from one set of artifacts to the next, then record. */
  function SwitchOver(s: Sys, n: Node, p: Policy, next: Artifacts, prev: Artifacts, c: Call): (Sys, Reply)
    requires Fits(s, n) && WorldFits(c.world, n)
  {
    var (live', out) := Applied(n.names, s.live, next, prev, c.world.fates, c.world.restores, 0);
    match out
    case Failed(e, unrestored) => Fail(s.(live := live'), AtApply(e, unrestored), c)
    case Done => Record(s.(live := live'), p, c)
  }

  /**
    The path shared by commit and rollback: `ok` is the validator's verdict on the policy, `next`
    and `prev` are the artifacts of the policy and of the running one, if they render.
   */
  function Attempt(s: Sys, n: Node, p: Policy, ok: bool, next: Option<Artifacts>, prev: Option<Artifacts>,
                   c: Call): (Sys, Reply)
    requires Fits(s, n) && WorldFits(c.world, n)
  {
    if !ok then Fail(s, AtValidation, c)
    else if next.None? then Fail(s, AtRender, c)
    else
      var refused := FirstRefusal(n.names, next.value, c.world.checks, 0);
      if refused.Some? then Fail(s, AtEngineCheck(refused.value), c)
      else if !c.world.readsRunning then Fail(s, AtReadRunning, c)
      else if prev.None? then Fail(s, AtRenderPrevious, c)
      else SwitchOver(s, n, p, next.value, prev.value, c)
  }

  ghost function ApplyPolicy(s: Sys, n: Node, p: Policy, c: Call): (Sys, Reply)
    requires Fits(s, n) && WorldFits(c.world, n)
  {
    Attempt(s, n, p, n.valid(p), n.render(p), n.render(Running(s.history)), c)
  }

  function SetCandidateStep(s: Sys, policy: Option<Policy>, c: Call): (Sys, Reply) {
    match policy
    case None => (s, Refused(NoPolicy))
    case Some(p) =>
      if !c.world.writes then (s, Refused(NotStored))
      else if !c.world.audits then (s.(candidate := Some(p)), Refused(NotAudited))
      else (s.(candidate := Some(p), log := s.log + [Entry(c.actor, CandidateSet(|p.zones|, |p.rules|))]), Accepted)
  }

  ghost function Step(s: Sys, n: Node, c: Call): (Sys, Reply)
    requires Fits(s, n) && WorldFits(c.world, n)
  {
    if c.op.SetCandidate? then SetCandidateStep(s, c.op.policy, c)
    else if !c.world.readable then (s, Refused(NotRead))
    else if Target(s, c.op).None? then (s, Refused(if c.op.Commit? then NoCandidate else NoSuchVersion))
    else ApplyPolicy(s, n, Target(s, c.op).value, c)
  }

  // ---- what one call does to the store ----

  /** A version was added, audited or not. */
  predicate Committed(r: Reply) {
    r.Succeeded? || (r.Refused? && r.why.Unaudited?)
  }

  predicate FailedIn(r: Reply, stage: Stage) {
    r == Refused(FailedAt(stage))
  }

  predicate ApplyFailed(r: Reply) {
    r.Refused? && r.why.FailedAt? && r.why.stage.AtApply?
  }

  /** What an attempt to make v the next version may do to the store. */
  predicate AttemptEffect(s: Sys, s': Sys, r: Reply, v: Version) {
    && |s'.live| == |s.live| && s.log <= s'.log
    && match r
       case Accepted => false
       case Succeeded(id) =>
         && s'.history == s.history + [v] && id == |s'.history| && s'.candidate == None
         && |s'.log| == |s.log| + 1 && s'.hooks == s.hooks + 1
         && s'.log[|s.log|].what.Recorded? && s'.log[|s.log|].what.version == id
       case Refused(Unaudited(id)) =>
         && s'.history == s.history + [v] && id == |s'.history| && s'.candidate == None
         && s'.log == s.log && s'.hooks == s.hooks
       case Refused(FailedAt(_)) =>
         && s'.history == s.history && s'.candidate == s.candidate
         && |s'.log| <= |s.log| + 1 && s'.hooks == s.hooks
       case Refused(_) => false
  }

  lemma SwitchOverEffect(s: Sys, n: Node, p: Policy, next: Artifacts, prev: Artifacts, c: Call)
    requires Fits(s, n) && WorldFits(c.world, n)
    ensures var (s', r) := SwitchOver(s, n, p, next, prev, c);
            AttemptEffect(s, s', r, VersionOf(p, c)) && (Committed(r) || ApplyFailed(r) || FailedIn(r, AtRecord))
  {
    AppliedAt(n.names, s.live, s.live, next, prev, c.world.fates, c.world.restores, 0);
    hide Applied;
  }

  lemma AttemptEffects(s: Sys, n: Node, p: Policy, ok: bool, next: Option<Artifacts>, prev: Option<Artifacts>, c: Call)
    requires Fits(s, n) && WorldFits(c.world, n)
    ensures var (s', r) := Attempt(s, n, p, ok, next, prev, c);
            && AttemptEffect(s, s', r, VersionOf(p, c))
            && (prev.Some? ==> !FailedIn(r, AtRenderPrevious))
            && (Committed(r) ==> ok && next.Some?)
            && (ok ==> !FailedIn(r, AtValidation))
            && (next.Some? ==> !FailedIn(r, AtRender))
  {
    if next.Some? && prev.Some? {
      SwitchOverEffect(s, n, p, next.value, prev.value, c);
    }
    hide SwitchOver;
  }

  /** What a call may do to the store, by kind. */
  predicate Shape(s: Sys, s': Sys, r: Reply, c: Call) {
    if c.op.SetCandidate? then (s', r) == SetCandidateStep(s, c.op.policy, c)
    else
      || (s' == s && r.Refused? && (r.why.NotRead? || r.why.NoCandidate? || r.why.NoSuchVersion?))
      || (Target(s, c.op).Some? && AttemptEffect(s, s', r, VersionOf(Target(s, c.op).value, c)))
  }

  lemma StepShape(s: Sys, n: Node, c: Call)
    requires Fits(s, n) && WorldFits(c.world, n)
    ensures var (s', r) := Step(s, n, c); Shape(s, s', r, c)
  {
    hide Attempt, AttemptEffect;
    if Target(s, c.op).Some? {
      var p := Target(s, c.op).value;
      AttemptEffects(s, n, p, n.valid(p), n.render(p), n.render(Running(s.history)), c);
    }
  }

  /** What every call keeps: versions and log entries are only ever added, one at a time. */
  predicate Kept(s: Sys, s': Sys) {
    && s.history <= s'.history && |s'.history| <= |s.history| + 1
    && s.log <= s'.log && |s'.log| <= |s.log| + 1
    && |s'.live| == |s.live|
  }

  /**
    The effect of one call. A commit or rollback that reports success has recorded its policy under
    the next id, made it the running one, cleared the candidate, written its audit entry and run the
    hook once; only such a call, or one whose audit write failed last, adds a version.
   */
  predicate Effect(s: Sys, s': Sys, r: Reply, op: Op) {
    && Kept(s, s')
    && (Committed(r) <==> s'.history != s.history)
    && (Committed(r) ==>
          && Target(s, op).Some? && s'.candidate == None
          && Running(s'.history) == Target(s, op).value)
    && (r.Succeeded? ==>
          && r.version == |s'.history| == |s.history| + 1
          && |s'.log| == |s.log| + 1 && s'.log[|s.log|].what.Recorded?
          && s'.log[|s.log|].what.version == r.version)
    && s'.hooks == s.hooks + (if r.Succeeded? then 1 else 0)
  }

  lemma ShapeEffect(s: Sys, s': Sys, r: Reply, c: Call)
    requires Shape(s, s', r, c)
    ensures Effect(s, s', r, c.op)
  {
  }

  lemma CallEffect(s: Sys, n: Node, c: Call)
    requires Fits(s, n) && WorldFits(c.world, n)
    ensures var (s', r) := Step(s, n, c); Effect(s, s', r, c.op)
  {
    StepShape(s, n, c);
    hide *;
    var (s', r) := Step(s, n, c);
    ShapeEffect(s, s', r, c);
  }

  /** Nothing in the store changed but possibly the audit log. */
  predicate OnlyTheLog(s: Sys, s': Sys) {
    s'.history == s.history && s'.candidate == s.candidate
  }

  /**
    A call that reports an error changes only the audit log, except exactly when the error is the
    audit write itself: then the version is recorded, or the candidate set, all the same.
   */
  predicate ErrorEffect(s: Sys, s': Sys, r: Reply, op: Op) {
    r.Refused? ==>
      match r.why
      case Unaudited(id) => s'.history != s.history && id == |s'.history| && s'.log == s.log
      case NotAudited => op.SetCandidate? && s' == s.(candidate := op.policy)
      case _ => OnlyTheLog(s, s')
  }

  lemma ShapeErrors(s: Sys, s': Sys, r: Reply, c: Call)
    requires Shape(s, s', r, c)
    ensures ErrorEffect(s, s', r, c.op)
  {
  }

  lemma ErrorsChangeOnlyTheLog(s: Sys, n: Node, c: Call)
    requires Fits(s, n) && WorldFits(c.world, n)
    ensures var (s', r) := Step(s, n, c); ErrorEffect(s, s', r, c.op)
  {
    StepShape(s, n, c);
    hide *;
    var (s', r) := Step(s, n, c);
    ShapeErrors(s, s', r, c);
  }

  // ---- every stored version can be applied again ----

  ghost predicate Renders(p: Policy, n: Node) {
    n.render(p).Some?
  }

  /** The engines fit, and every recorded policy renders. */
  ghost predicate Invariant(s: Sys, n: Node) {
    Sound(n) && Fits(s, n) && forall v :: v in s.history ==> Renders(v.policy, n)
  }

  lemma RunningRenders(s: Sys, n: Node)
    requires Invariant(s, n)
    ensures Renders(Running(s.history), n)
  {
    if s.history != [] {
      assert s.history[|s.history| - 1] in s.history;
    }
  }

  /** One call from a state where every recorded policy renders. */
  ghost predicate RenderEffect(s: Sys, r: Reply, n: Node, op: Op) {
    && !FailedIn(r, AtRenderPrevious)
    && (Committed(r) ==> Target(s, op).Some? && Renders(Target(s, op).value, n))
    && (op.Rollback? ==> !FailedIn(r, AtValidation) && !FailedIn(r, AtRender))
    && (op.Rollback? && Target(s, op).Some? ==> r != Refused(NoSuchVersion))
  }

  lemma ApplyRenders(s: Sys, n: Node, p: Policy, c: Call)
    requires Invariant(s, n) && WorldFits(c.world, n)
    ensures var (s', r) := ApplyPolicy(s, n, p, c);
            && !FailedIn(r, AtRenderPrevious) && r != Refused(NoSuchVersion)
            && (Committed(r) ==> Renders(p, n))
            && (Renders(p, n) ==> !FailedIn(r, AtValidation) && !FailedIn(r, AtRender))
  {
    RunningRenders(s, n);
    hide Attempt, AttemptEffect;
    AttemptEffects(s, n, p, n.valid(p), n.render(p), n.render(Running(s.history)), c);
  }

  lemma StepRenders(s: Sys, n: Node, c: Call)
    requires Invariant(s, n) && WorldFits(c.world, n)
    ensures var (s', r) := Step(s, n, c); RenderEffect(s, r, n, c.op)
  {
    hide ApplyPolicy, Renders;
    if Target(s, c.op).Some? {
      ApplyRenders(s, n, Target(s, c.op).value, c);
      if c.op.Rollback? {
        assert s.history[c.op.version - 1] in s.history;
      }
    }
  }

  lemma ShapeInvariant(s: Sys, s': Sys, r: Reply, n: Node, op: Op)
    requires Invariant(s, n) && Effect(s, s', r, op) && RenderEffect(s, r, n, op)
    ensures Invariant(s', n)
  {
    hide Renders, Target;
    if Committed(r) {
      assert s'.history == s.history + [s'.history[|s.history|]];
      assert Running(s'.history) == s'.history[|s.history|].policy;
    }
  }

  lemma StepInvariant(s: Sys, n: Node, c: Call)
    requires Invariant(s, n) && WorldFits(c.world, n)
    ensures var (s', r) := Step(s, n, c); Invariant(s', n)
  {
    StepRenders(s, n, c);
    CallEffect(s, n, c);
    hide *;
    var (s', r) := Step(s, n, c);
    ShapeInvariant(s, s', r, n, c.op);
  }

  // ---- the engines follow the store ----

  /** Every engine holds this policy's artifact. */
  ghost predicate HoldsPolicy(live: Live, p: Policy, n: Node) {
    Renders(p, n) && |live| == |n.names| && InSync(n.names, live, n.render(p).value)
  }

  /** The engines hold the running policy. */
  ghost predicate OnRunning(s: Sys, n: Node) {
    HoldsPolicy(s.live, Running(s.history), n)
  }

  predicate Holding(live: Live, n: Node, arts: Artifacts) {
    |live| == |n.names| && InSync(n.names, live, arts)
  }

  predicate Covers(arts: Artifacts) {
    forall m: EngineName :: m in arts
  }

  /** What a switch-over does to engines that hold `prev`. */
  predicate SwitchEffect(s': Sys, r: Reply, n: Node, next: Artifacts, prev: Artifacts, w: World)
    requires WorldFits(w, n) && Covers(next) && Covers(prev)
  {
    && (Committed(r) || FailedIn(r, AtRecord) ==> Holding(s'.live, n, next))
    && (ApplyFailed(r) ==>
          var e, unrestored := r.why.stage.failed, r.why.stage.unrestored;
          && FailsFirst(w.fates, e)
          && (Holding(s'.live, n, prev) <==> AllComeBack(n.names, next, prev, w.fates, w.restores, e))
          && (w.fates[e] == Refuses && unrestored == [] ==> Holding(s'.live, n, prev)))
  }

  lemma SwitchOverSync(s: Sys, n: Node, p: Policy, next: Artifacts, prev: Artifacts, c: Call)
    requires Fits(s, n) && WorldFits(c.world, n) && Holding(s.live, n, prev)
    requires Covers(next) && Covers(prev)
    ensures var (s', r) := SwitchOver(s, n, p, next, prev, c); SwitchEffect(s', r, n, next, prev, c.world)
  {
    AllOrNothing(n.names, s.live, next, prev, c.world.fates, c.world.restores);
    hide Applied;
    var (s', r) := SwitchOver(s, n, p, next, prev, c);
    var (live', out) := Applied(n.names, s.live, next, prev, c.world.fates, c.world.restores, 0);
    assert s'.live == live';
    if out.Failed? {
      assert r == Refused(FailedAt(AtApply(out.engine, out.unrestored)));
      var e := out.engine;
      assert Holding(live', n, prev) <==> AllComeBack(n.names, next, prev, c.world.fates, c.world.restores, e);
      if c.world.fates[e] == Refuses && out.unrestored == [] {
        forall k | 0 <= k < e
          ensures ComesBack(next[n.names[k]], prev[n.names[k]], c.world.restores[k])
        {
          assert k !in out.unrestored;
        }
      }
    } else {
      assert Holding(live', n, next);
    }
  }

  /** The same for engines in any state: a recorded version is on all of them. */
  lemma SwitchOverCommits(s: Sys, n: Node, p: Policy, next: Artifacts, prev: Artifacts, c: Call)
    requires Fits(s, n) && WorldFits(c.world, n) && forall m: EngineName :: m in next
    ensures var (s', r) := SwitchOver(s, n, p, next, prev, c); Committed(r) ==> Holding(s'.live, n, next)
  {
    AppliedAt(n.names, s.live, s.live, next, prev, c.world.fates, c.world.restores, 0);
    hide Applied;
  }

  /** What an attempt does to the engines. */
  predicate AttemptSync(s: Sys, s': Sys, r: Reply, n: Node, next: Option<Artifacts>, prev: Artifacts, w: World)
    requires WorldFits(w, n) && (next.Some? ==> Covers(next.value)) && Covers(prev)
  {
    && (Committed(r) ==> next.Some? && Holding(s'.live, n, next.value))
    && (Holding(s.live, n, prev) ==>
          if next.Some? && (ApplyFailed(r) || Committed(r) || FailedIn(r, AtRecord))
          then SwitchEffect(s', r, n, next.value, prev, w)
          else s'.live == s.live)
  }

  lemma AttemptSyncs(s: Sys, n: Node, p: Policy, ok: bool, next: Option<Artifacts>, prev: Artifacts, c: Call)
    requires Fits(s, n) && WorldFits(c.world, n)
    requires (next.Some? ==> Covers(next.value)) && Covers(prev)
    ensures var (s', r) := Attempt(s, n, p, ok, next, Some(prev), c); AttemptSync(s, s', r, n, next, prev, c.world)
  {
    if next.Some? {
      SwitchOverEffect(s, n, p, next.value, prev, c);
      SwitchOverCommits(s, n, p, next.value, prev, c);
      if Holding(s.live, n, prev) {
        SwitchOverSync(s, n, p, next.value, prev, c);
      }
    }
    hide SwitchOver, SwitchEffect, Holding, AttemptEffect;
  }

  /**
    What one call does to the engines. After a commit they hold the new version, whatever they held
    before. If they held the running policy before a failed call, they hold it after, except that
      - when an apply failed, they do so exactly if the failing engine refused, or was left with its
        previous artifact all the same, and every engine before it took the restore, or holds its
        previous artifact all the same;
      - when the version could not be recorded, they hold the target instead.
   */
  ghost predicate SyncEffect(s: Sys, s': Sys, r: Reply, n: Node, op: Op, w: World)
    requires WorldFits(w, n) && Sound(n)
  {
    && (Committed(r) ==> OnRunning(s', n))
    && (!Committed(r) && OnRunning(s, n) ==>
          if ApplyFailed(r) then
            var e, unrestored := r.why.stage.failed, r.why.stage.unrestored;
            && FailsFirst(w.fates, e) && Target(s, op).Some? && Renders(Target(s, op).value, n)
            && (OnRunning(s', n)
                <==> AllComeBack(n.names, n.render(Target(s, op).value).value, n.render(Running(s.history)).value,
                                 w.fates, w.restores, e))
            && (w.fates[e] == Refuses && unrestored == [] ==> OnRunning(s', n))
          else if FailedIn(r, AtRecord) then
            Target(s, op).Some? && HoldsPolicy(s'.live, Target(s, op).value, n)
          else
            OnRunning(s', n))
  }

  /** The reading of AttemptSync for the policy p and the running one. */
  lemma SyncFromAttempt(s: Sys, s': Sys, r: Reply, n: Node, p: Policy, next: Option<Artifacts>, prev: Artifacts, op: Op,
                        w: World)
    requires WorldFits(w, n) && Fits(s, n) && Target(s, op) == Some(p) && Sound(n)
    requires n.render(p) == next && n.render(Running(s.history)) == Some(prev)
    requires AttemptSync(s, s', r, n, next, prev, w)
    requires Effect(s, s', r, op)
    requires FailedIn(r, AtRecord) || ApplyFailed(r) ==> next.Some?
    ensures SyncEffect(s, s', r, n, op, w)
  {
    hide AllComeBack, InSync;
    if !Committed(r) {
      assert s'.history == s.history;
      assert OnRunning(s', n) <==> Holding(s'.live, n, prev);
      assert OnRunning(s, n) <==> Holding(s.live, n, prev);
    }
  }

  /** An attempt that got as far as the engines or the record had something to apply. */
  lemma ReachedEngines(s: Sys, n: Node, p: Policy, ok: bool, next: Option<Artifacts>, prev: Option<Artifacts>, c: Call)
    requires Fits(s, n) && WorldFits(c.world, n)
    ensures var (s', r) := Attempt(s, n, p, ok, next, prev, c);
            (FailedIn(r, AtRecord) || ApplyFailed(r) ==> next.Some?) && r != Accepted
  {
    hide SwitchOver;
    if next.Some? && prev.Some? {
      SwitchOverEffect(s, n, p, next.value, prev.value, c);
    }
  }

  lemma ApplySyncs(s: Sys, n: Node, p: Policy, c: Call)
    requires Invariant(s, n) && WorldFits(c.world, n) && Target(s, c.op) == Some(p)
    requires var (s', r) := ApplyPolicy(s, n, p, c); Effect(s, s', r, c.op)
    ensures var (s', r) := ApplyPolicy(s, n, p, c); SyncEffect(s, s', r, n, c.op, c.world)
  {
    RunningRenders(s, n);
    hide Attempt, AttemptSync, SyncEffect, Effect;
    var next, prev := n.render(p), n.render(Running(s.history)).value;
    AttemptSyncs(s, n, p, n.valid(p), next, prev, c);
    ReachedEngines(s, n, p, n.valid(p), next, Some(prev), c);
    var (s', r) := ApplyPolicy(s, n, p, c);
    SyncFromAttempt(s, s', r, n, p, next, prev, c.op, c.world);
  }

  lemma StepSyncs(s: Sys, n: Node, c: Call)
    requires Invariant(s, n) && WorldFits(c.world, n)
    ensures var (s', r) := Step(s, n, c); SyncEffect(s, s', r, n, c.op, c.world)
  {
    CallEffect(s, n, c);
    hide ApplyPolicy, Effect, SyncEffect;
    if !c.op.SetCandidate? && c.world.readable && Target(s, c.op).Some? {
      ApplySyncs(s, n, Target(s, c.op).value, c);
    } else {
      var (s', r) := Step(s, n, c);
      Untouched(s, s', r, n, c.op, c.world);
    }
  }

  lemma Untouched(s: Sys, s': Sys, r: Reply, n: Node, op: Op, w: World)
    requires WorldFits(w, n) && Sound(n) && s'.live == s.live && s'.history == s.history
    requires !Committed(r) && !ApplyFailed(r) && !FailedIn(r, AtRecord)
    ensures SyncEffect(s, s', r, n, op, w)
  {
    hide HoldsPolicy, AllComeBack;
  }

  // ---- runs ----

  ghost predicate WorldsFit(calls: seq<Call>, n: Node) {
    forall c :: c in calls ==> WorldFits(c.world, n)
  }

  /** The state after a sequence of calls. */
  ghost function Played(s: Sys, n: Node, calls: seq<Call>): (s': Sys)
    requires Invariant(s, n) && WorldsFit(calls, n)
    ensures Invariant(s', n)
    decreases |calls|
  {
    if calls == [] then s
    else
      var c := calls[0];
      assert c in calls && forall x :: x in calls[1..] ==> x in calls;
      StepInvariant(s, n, c);
      Played(Step(s, n, c).0, n, calls[1..])
  }

  /** A fresh node, whatever its engines hold. */
  function Fresh(live: Live): Sys {
    Sys([], None, [], live, 0)
  }

  /** Versions are never changed or removed, and no log entry is. */
  lemma {:induction false} HistoryIsKept(s: Sys, n: Node, calls: seq<Call>)
    requires Invariant(s, n) && WorldsFit(calls, n)
    ensures s.history <= Played(s, n, calls).history && s.log <= Played(s, n, calls).log
    ensures s.hooks <= Played(s, n, calls).hooks
    decreases |calls|
  {
    if calls != [] {
      hide Step, Invariant;
      assert calls[0] in calls && forall x :: x in calls[1..] ==> x in calls;
      StepInvariant(s, n, calls[0]);
      CallEffect(s, n, calls[0]);
      HistoryIsKept(Step(s, n, calls[0]).0, n, calls[1..]);
    }
  }

  /** May the engines have left the running policy in this call? */
  predicate Alarm(r: Reply, w: World, n: Node)
    requires WorldFits(w, n)
  {
    || FailedIn(r, AtRecord)
    || (ApplyFailed(r)
        && (r.why.stage.unrestored != [] || r.why.stage.failed >= |n.names| || w.fates[r.why.stage.failed] != Refuses))
  }

  /** Are the engines known to hold the running policy after the run, having been known to before it, or not? */
  ghost function Trusted(s: Sys, n: Node, calls: seq<Call>, was: bool): bool
    requires Invariant(s, n) && WorldsFit(calls, n)
    decreases |calls|
  {
    if calls == [] then was
    else
      var c := calls[0];
      assert c in calls && forall x :: x in calls[1..] ==> x in calls;
      StepInvariant(s, n, c);
      var (s', r) := Step(s, n, c);
      Trusted(s', n, calls[1..], Committed(r) || (was && !Alarm(r, c.world, n)))
  }

  lemma TrustStep(s: Sys, s': Sys, r: Reply, n: Node, op: Op, w: World)
    requires WorldFits(w, n) && Sound(n) && SyncEffect(s, s', r, n, op, w)
    requires Committed(r) || (OnRunning(s, n) && !Alarm(r, w, n))
    ensures OnRunning(s', n)
  {
    hide HoldsPolicy, AllComeBack;
  }

  /**
    The whole-run invariant: after any sequence of calls the engines hold the running policy, if
    they did at the start or a version was recorded since, and no later call raised an alarm: a
    failed version write, a failed restore, or an engine damaged by its own failed apply.
   */
  lemma {:induction false} EnginesFollowStore(s: Sys, n: Node, calls: seq<Call>, was: bool)
    requires Invariant(s, n) && WorldsFit(calls, n) && (was ==> OnRunning(s, n))
    ensures Trusted(s, n, calls, was) ==> OnRunning(Played(s, n, calls), n)
    decreases |calls|
  {
    if calls != [] {
      hide Step, Invariant, SyncEffect, OnRunning, Alarm, Committed;
      var c := calls[0];
      assert c in calls && forall x :: x in calls[1..] ==> x in calls;
      StepInvariant(s, n, c);
      StepSyncs(s, n, c);
      var (s', r) := Step(s, n, c);
      if Committed(r) || (was && !Alarm(r, c.world, n)) {
        TrustStep(s, s', r, n, c.op, c.world);
      }
      EnginesFollowStore(s', n, calls[1..], Committed(r) || (was && !Alarm(r, c.world, n)));
    }
  }

  /**
    Every stored version stays re-appliable: in every state a node can reach, a rollback to a
    stored version is never refused for being unknown, invalid or unrenderable, and no call ever
    fails to render the policy it would restore.
   */
  lemma AlwaysReappliable(live: Live, n: Node, calls: seq<Call>, c: Call)
    requires Sound(n) && |live| == |n.names| && WorldsFit(calls, n) && WorldFits(c.world, n)
    ensures Invariant(Fresh(live), n)
    ensures var s := Played(Fresh(live), n, calls);
            var r := Step(s, n, c).1;
            && !FailedIn(r, AtRenderPrevious)
            && (c.op.Rollback? && 1 <= c.op.version <= |s.history| ==>
                  r != Refused(NoSuchVersion) && !FailedIn(r, AtValidation) && !FailedIn(r, AtRender))
  {
    var s := Played(Fresh(live), n, calls);
    assert Invariant(s, n);
    hide Played, Renders;
    StepRenders(s, n, c);
  }

  // ---- the audit trail ----

  predicate Audited(log: seq<Entry>, version: nat) {
    exists i :: 0 <= i < |log| && log[i].what.Recorded? && log[i].what.version == version
  }

  /** The versions whose callers were told that the audit write failed. */
  ghost function UnauditedIn(s: Sys, n: Node, calls: seq<Call>): set<nat>
    requires Invariant(s, n) && WorldsFit(calls, n)
    decreases |calls|
  {
    if calls == [] then {}
    else
      var c := calls[0];
      assert c in calls && forall x :: x in calls[1..] ==> x in calls;
      StepInvariant(s, n, c);
      var (s', r) := Step(s, n, c);
      (if r.Refused? && r.why.Unaudited? then {r.why.version} else {}) + UnauditedIn(s', n, calls[1..])
  }

  lemma AuditedLater(log: seq<Entry>, later: seq<Entry>, version: nat)
    requires log <= later && Audited(log, version)
    ensures Audited(later, version)
  {
    var i :| 0 <= i < |log| && log[i].what.Recorded? && log[i].what.version == version;
    assert later[i] == log[i];
  }

  lemma NewVersionAudited(s: Sys, s': Sys, r: Reply, op: Op)
    requires Effect(s, s', r, op) && ErrorEffect(s, s', r, op)
    ensures |s'.history| == |s.history| + (if Committed(r) then 1 else 0)
    ensures r.Succeeded? ==> Audited(s'.log, |s'.history|)
    ensures r.Refused? && r.why.Unaudited? ==> r.why.version == |s'.history|
  {
    if r.Succeeded? {
      assert s'.log[|s.log|].what.version == |s'.history|;
    }
  }

  /** Every version recorded in a run is in the audit log, or its caller was told that it is not. */
  lemma {:induction false} VersionsAreAudited(s: Sys, n: Node, calls: seq<Call>, v: nat)
    requires Invariant(s, n) && WorldsFit(calls, n)
    requires |s.history| < v <= |Played(s, n, calls).history|
    ensures Audited(Played(s, n, calls).log, v) || v in UnauditedIn(s, n, calls)
    decreases |calls|
  {
    hide Step, Audited, Effect, ErrorEffect, Renders;
    var c := calls[0];
    assert c in calls && forall x :: x in calls[1..] ==> x in calls;
    StepInvariant(s, n, c);
    CallEffect(s, n, c);
    ErrorsChangeOnlyTheLog(s, n, c);
    var (s', r) := Step(s, n, c);
    NewVersionAudited(s, s', r, c.op);
    if v <= |s'.history| {
      HistoryIsKept(s', n, calls[1..]);
      if r.Succeeded? {
        AuditedLater(s'.log, Played(s', n, calls[1..]).log, v);
      }
    } else {
      VersionsAreAudited(s', n, calls[1..], v);
    }
  }

  // ---- which engines a call gets to ----

  function HandedBy(n: Node, ok: bool, next: Option<Artifacts>, prev: Option<Artifacts>, w: World): Option<Artifacts>
    requires WorldFits(w, n)
  {
    if ok && next.Some? && FirstRefusal(n.names, next.value, w.checks, 0).None? && w.readsRunning && prev.Some?
    then next else None
  }

  /** The artifacts that a call hands to the supervisor, if it gets that far. */
  ghost function Handed(s: Sys, n: Node, c: Call): Option<Artifacts>
    requires WorldFits(c.world, n)
  {
    if c.op.SetCandidate? || !c.world.readable || Target(s, c.op).None? then None
    else
      var p := Target(s, c.op).value;
      HandedBy(n, n.valid(p), n.render(p), n.render(Running(s.history)), c.world)
  }

  /** Engine k is given its artifact, all before it having switched, and does not refuse it. */
  predicate Displaces(names: seq<EngineName>, next: Artifacts, fates: seq<Fate>, k: nat)
    requires k < |names| == |fates|
  {
    && names[k] in next && fates[k] != Refuses
    && forall j :: 0 <= j < k && names[j] in next ==> fates[j] == Switches
  }

  /** In this call engine k drops what it held, for good or until it is restored. */
  ghost predicate Displaced(s: Sys, n: Node, c: Call, k: nat)
    requires WorldFits(c.world, n) && k < |n.names|
  {
    Handed(s, n, c).Some? && Displaces(n.names, Handed(s, n, c).value, c.world.fates, k)
  }

  /**
    The outcomes that say so: engine k comes before the failing one, or none failed; or it is the failing
    one and was damaged, which no reply shows.
   */
  predicate TellsOf(r: Reply, w: World, k: nat)
    requires k < |w.fates|
  {
    || Committed(r) || FailedIn(r, AtRecord)
    || (ApplyFailed(r) && (k < r.why.stage.failed || (k == r.why.stage.failed && w.fates[k].Tears?)))
  }

  lemma SwitchOverDisplaces(s: Sys, n: Node, p: Policy, next: Artifacts, prev: Artifacts, c: Call, k: nat)
    requires Fits(s, n) && WorldFits(c.world, n) && k < |n.names| && forall m: EngineName :: m in next
    ensures var (s', r) := SwitchOver(s, n, p, next, prev, c);
            && (Displaces(n.names, next, c.world.fates, k) <==> TellsOf(r, c.world, k))
            && (!TellsOf(r, c.world, k) ==> |s'.live| == |s.live| && s'.live[k] == s.live[k])
  {
    var fates := c.world.fates;
    AppliedAt(n.names, s.live, s.live, next, prev, fates, c.world.restores, 0);
    var (live', out) := Applied(n.names, s.live, next, prev, fates, c.world.restores, 0);
    var (s', r) := SwitchOver(s, n, p, next, prev, c);
    hide Applied, Unrestored;
    assert s'.live == live' && n.names[k] in next;
    if out.Failed? {
      var e := out.engine;
      assert r == Refused(FailedAt(AtApply(e, out.unrestored)));
      assert n.names[e] in next && fates[e] != Switches;
      assert k > e ==> !Displaces(n.names, next, fates, k);
    } else {
      assert fates[k] == Switches;
      assert Committed(r) || FailedIn(r, AtRecord);
    }
  }

  lemma AttemptDisplaces(s: Sys, n: Node, p: Policy, ok: bool, next: Option<Artifacts>, prev: Option<Artifacts>,
                         c: Call, k: nat)
    requires Fits(s, n) && WorldFits(c.world, n) && k < |n.names|
    requires next.Some? ==> forall m: EngineName :: m in next.value
    ensures var (s', r) := Attempt(s, n, p, ok, next, prev, c);
            var handed := HandedBy(n, ok, next, prev, c.world);
            && (handed.Some? && Displaces(n.names, handed.value, c.world.fates, k) <==> TellsOf(r, c.world, k))
            && (!TellsOf(r, c.world, k) ==> |s'.live| == |s.live| && s'.live[k] == s.live[k])
  {
    if next.Some? && prev.Some? {
      SwitchOverDisplaces(s, n, p, next.value, prev.value, c, k);
    }
    hide SwitchOver, Displaces, FirstRefusal;
  }

  /**
    The reply tells which engines a call has displaced: all of them when a version was recorded or
    its recording failed; when an apply failed those before the failing engine, and that one if it
    was damaged; none otherwise, and these still hold what they held.
   */
  lemma DisplacedIff(s: Sys, n: Node, c: Call, k: nat)
    requires Invariant(s, n) && WorldFits(c.world, n) && k < |n.names|
    ensures var (s', r) := Step(s, n, c);
            && (Displaced(s, n, c, k) <==> TellsOf(r, c.world, k))
            && (!Displaced(s, n, c, k) ==> |s'.live| == |s.live| && s'.live[k] == s.live[k])
  {
    hide Attempt, HandedBy, Displaces, Renders;
    if !c.op.SetCandidate? && c.world.readable && Target(s, c.op).Some? {
      var p := Target(s, c.op).value;
      AttemptDisplaces(s, n, p, n.valid(p), n.render(p), n.render(Running(s.history)), c, k);
    }
  }

  /**
    The calls that displace an engine without running the commit hook: exactly those that end with one
    of these errors.
   */
  lemma DisplacedWithoutHookIff(s: Sys, n: Node, c: Call, k: nat)
    requires Invariant(s, n) && WorldFits(c.world, n) && k < |n.names|
    ensures var (s', r) := Step(s, n, c);
            Displaced(s, n, c, k) && s'.hooks == s.hooks
            <==> TellsOf(r, c.world, k) && !r.Succeeded?
  {
    DisplacedIff(s, n, c, k);
    CallEffect(s, n, c);
    hide Step, Displaced, TellsOf, Kept;
  }

  /**
    Exactly when a call that reports an error has changed more than the log: a version is recorded all
    the same if the call reached the engines, all of them switched, and the version could be written
    but not its log entry; a candidate is set all the same if it could be written but not its entry.
   */
  lemma ErrorsThatChangeIff(s: Sys, n: Node, c: Call)
    requires Invariant(s, n) && WorldFits(c.world, n)
    ensures var (s', r) := Step(s, n, c);
            && (r.Refused? && s'.history != s.history
                <==> && Handed(s, n, c).Some? && AllSwitch(c.world.fates, |n.names|)
                     && c.world.writes && !c.world.audits)
            && (r == Refused(NotAudited)
                <==> c.op.SetCandidate? && c.op.policy.Some? && c.world.writes && !c.world.audits)
  {
    hide Attempt, HandedBy, Renders;
    if !c.op.SetCandidate? && c.world.readable && Target(s, c.op).Some? {
      var p := Target(s, c.op).value;
      AttemptUnaudited(s, n, p, n.valid(p), n.render(p), n.render(Running(s.history)), c);
    }
  }

  lemma AttemptUnaudited(s: Sys, n: Node, p: Policy, ok: bool, next: Option<Artifacts>, prev: Option<Artifacts>,
                         c: Call)
    requires Fits(s, n) && WorldFits(c.world, n) && (next.Some? ==> Covers(next.value))
    ensures var (s', r) := Attempt(s, n, p, ok, next, prev, c);
            && (r.Refused? && s'.history != s.history
                <==> && HandedBy(n, ok, next, prev, c.world).Some?
                     && AllSwitch(c.world.fates, |n.names|)
                     && c.world.writes && !c.world.audits)
            && r != Refused(NotAudited)
  {
    if next.Some? && prev.Some? {
      AppliedAt(n.names, s.live, s.live, next.value, prev.value, c.world.fates, c.world.restores, 0);
      hide Applied;
    }
    hide FirstRefusal;
  }

  // ---- the dry run ----

  datatype Verdict = Valid | Invalid(stage: Stage) | Unread | NothingToCheck

  /** The validate call: the same checks as a commit, without touching anything. */
  ghost function Checked(s: Sys, n: Node, w: World): Verdict
    requires WorldFits(w, n)
  {
    if !w.readable then Unread
    else if s.candidate.None? then NothingToCheck
    else if !n.valid(s.candidate.value) then Invalid(AtValidation)
    else
      match n.render(s.candidate.value)
      case None => Invalid(AtRender)
      case Some(arts) =>
        match FirstRefusal(n.names, arts, w.checks, 0)
        case Some(e) => Invalid(AtEngineCheck(e))
        case None => Valid
  }

  /**
    What validate promises: if it finds the candidate valid, a commit for which the engines answer
    their checks alike gets past validation, rendering and engine checks; if it finds a fault, such
    a commit is refused with that fault.
   */
  lemma ValidatePredictsCommit(s: Sys, n: Node, w: World, c: Call)
    requires Fits(s, n) && WorldFits(w, n) && WorldFits(c.world, n)
    requires c.op.Commit? && c.world.readable && c.world.checks == w.checks
    ensures var v, r := Checked(s, n, w), Step(s, n, c).1;
            && (v.Valid? ==>
                  || Committed(r) || ApplyFailed(r)
                  || FailedIn(r, AtReadRunning) || FailedIn(r, AtRenderPrevious) || FailedIn(r, AtRecord))
            && (v.Invalid? ==> FailedIn(r, v.stage))
  {
    hide FirstRefusal, SwitchOver;
    if s.candidate.Some? {
      var p := s.candidate.value;
      var next, prev := n.render(p), n.render(Running(s.history));
      if next.Some? && prev.Some? {
        SwitchOverEffect(s, n, p, next.value, prev.value, c);
      }
    }
  }

  // ---- starting up ----

  datatype Start = Started | NotReadable | NotRendered | NotApplied(engine: nat)

  /** At startup the running version, if there is one, is applied to engines in whatever state they are in. */
  function Booted(s: Sys, n: Node, readable: bool, found: Live, fates: seq<Fate>): (Live, Start)
    requires |found| == |n.names| == |fates|
  {
    if !readable then (found, NotReadable)
    else if s.history == [] then (found, Started)
    else
      match n.render(Running(s.history))
      case None => (found, NotRendered)
      case Some(arts) =>
        var (live', out) := Applied(n.names, found, arts, map[], fates, fates, 0);
        (live', if out.Done? then Started else NotApplied(out.engine))
  }

  lemma BootApplies(names: seq<EngineName>, found: Live, arts: Artifacts, fates: seq<Fate>)
    requires |found| == |names| == |fates| && forall m: EngineName :: m in arts
    ensures var (live', out) := Applied(names, found, arts, map[], fates, fates, 0);
            && |live'| == |names|
            && (out.Done? <==> forall k :: 0 <= k < |fates| ==> fates[k] == Switches)
            && (out.Done? ==> InSync(names, live', arts))
            && (out.Failed? ==> FailsFirst(fates, out.engine) && StoppedAt(names, found, live', arts, out.engine))
  {
    AppliedAt(names, found, found, arts, map[], fates, fates, 0);
    hide Applied;
  }

  /** The engines before the failing one hold their artifact, those after it what they held. */
  predicate StoppedAt(names: seq<EngineName>, found: Live, live: Live, arts: Artifacts, e: nat) {
    && |names| == |found| == |live| && e < |live|
    && (forall k :: 0 <= k < e ==> names[k] in arts && live[k] == Some(arts[names[k]]))
    && forall k :: e < k < |live| ==> live[k] == found[k]
  }

  /**
    On a store that the protocol filled, the running version always renders at startup; the daemon
    starts exactly if the store can be read and, with a version recorded, no engine fails; and then
    every engine holds that version. Otherwise it names the first engine that fails, the ones before it
    hold that version, and no engine after it is touched.
   */
  lemma BootRestoresRunning(s: Sys, n: Node, readable: bool, found: Live, fates: seq<Fate>)
    requires Invariant(s, n) && |found| == |n.names| == |fates|
    ensures var (live', r) := Booted(s, n, readable, found, fates);
            && |live'| == |n.names| && !r.NotRendered?
            && (r.Started? <==> readable && (s.history != [] ==> forall k :: 0 <= k < |fates| ==> fates[k] == Switches))
            && (r.Started? && s.history != [] ==> OnRunning(s.(live := live'), n))
            && (r.NotReadable? <==> !readable)
            && (!readable || s.history == [] ==> live' == found)
            && (r.NotApplied? ==>
                  && s.history != [] && FailsFirst(fates, r.engine) && n.render(Running(s.history)).Some?
                  && StoppedAt(n.names, found, live', n.render(Running(s.history)).value, r.engine))
  {
    RunningRenders(s, n);
    hide Applied, InSync;
    if s.history != [] {
      var arts := n.render(Running(s.history)).value;
      BootApplies(n.names, found, arts, fates);
      var (live', out) := Applied(n.names, found, arts, map[], fates, fates, 0);
      assert Booted(s, n, true, found, fates) == (live', if out.Done? then Started else NotApplied(out.engine));
    }
  }
}
