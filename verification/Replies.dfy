/**
  What each call answers, records and logs, said over its inputs: the store, the candidate, the
  validator, the render pipeline and the world.
 */
module CommitReplies {
  import opened Basics
  import opened CommitProtocol
  import opened EngineArtifacts
  import opened PolicyModel
  import opened PolicyStore
  import opened Supervision

  /** The policy p is the one the call is about: the candidate of a commit, the named version of a rollback. */
  predicate IsAbout(s: Sys, op: Op, p: Policy) {
    match op
    case SetCandidate(_) => false
    case Commit(_) => s.candidate == Some(p)
    case Rollback(v) => 1 <= v <= |s.history| && s.history[v - 1].policy == p
  }

  // ---- the answers before anything is attempted ----

  /** A candidate is set, or the answer says why not. */
  lemma SettingAnswers(s: Sys, n: Node, c: Call, policy: Option<Policy>)
    requires Fits(s, n) && WorldFits(c.world, n) && c.op == SetCandidate(policy)
    ensures var (s', r) := Step(s, n, c);
            && (r == Refused(NoPolicy) <==> policy.None?)
            && (r == Refused(NotStored) <==> policy.Some? && !c.world.writes)
            && (r == Refused(NotAudited) <==> policy.Some? && c.world.writes && !c.world.audits)
            && (r == Accepted <==> policy.Some? && c.world.writes && c.world.audits)
            && s'.candidate == (if policy.Some? && c.world.writes then policy else s.candidate)
            && s'.history == s.history && s'.live == s.live && s'.hooks == s.hooks
  {
    hide ApplyPolicy;
  }

  /** Which commits and rollbacks have nothing to apply. */
  lemma NothingToApply(s: Sys, n: Node, c: Call)
    requires Invariant(s, n) && WorldFits(c.world, n)
    ensures var r := Step(s, n, c).1;
            && (r == Refused(NotRead) <==> !c.op.SetCandidate? && !c.world.readable)
            && (r == Refused(NoCandidate) <==> c.op.Commit? && c.world.readable && s.candidate.None?)
            && (r == Refused(NoSuchVersion)
                <==> c.op.Rollback? && c.world.readable && !(1 <= c.op.version <= |s.history|))
  {
    hide Attempt, HandedBy, Renders;
    if !c.op.SetCandidate? && c.world.readable && Target(s, c.op).Some? {
      var p := Target(s, c.op).value;
      RunningRenders(s, n);
      Covered(n, p, Running(s.history));
      AttemptAnswers(s, n, p, n.valid(p), n.render(p), n.render(Running(s.history)), c);
    }
  }

  // ---- the answers of an attempt ----

  /** Every engine's check says yes. */
  predicate AllPass(checks: seq<bool>) {
    forall k :: 0 <= k < |checks| ==> checks[k]
  }

  /** Engine e is the first whose check says no. */
  predicate FailsCheck(checks: seq<bool>, e: nat) {
    e < |checks| && !checks[e] && forall k :: 0 <= k < e ==> checks[k]
  }

  /** Exactly the engines below e whose restore failed, the last one first. */
  ghost predicate NamesUnrestored(unrestored: seq<nat>, restores: seq<Fate>, e: nat)
    requires e <= |restores|
  {
    && (forall k: nat :: k in unrestored <==> k < e && restores[k] != Switches)
    && forall a, b :: 0 <= a < b < |unrestored| ==> unrestored[a] > unrestored[b]
  }

  /** With all stages before it passed, what the switch to the new version answers. */
  ghost predicate SwitchAnswers(s: Sys, r: Reply, w: World, version: nat) {
    && (ApplyFailed(r) <==> !AllSwitch(w.fates, |w.fates|))
    && (ApplyFailed(r) ==>
          var e := r.why.stage.failed;
          FailsFirst(w.fates, e) && e < |w.restores| && NamesUnrestored(r.why.stage.unrestored, w.restores, e))
    && (FailedIn(r, AtRecord) <==> AllSwitch(w.fates, |w.fates|) && !w.writes)
    && (r == Refused(Unaudited(version)) <==> AllSwitch(w.fates, |w.fates|) && w.writes && !w.audits)
    && (r == Succeeded(version) <==> AllSwitch(w.fates, |w.fates|) && w.writes && w.audits)
    && (ApplyFailed(r) || FailedIn(r, AtRecord) || r == Refused(Unaudited(version)) || r == Succeeded(version))
  }

  /** The outcome of applying, where every engine has an artifact on both sides. */
  lemma OutcomeIs(names: seq<EngineName>, live: Live, next: Artifacts, prev: Artifacts, w: World)
    returns (out: Outcome)
    requires |names| == |live| == |w.fates| == |w.restores| && Covers(next) && Covers(prev)
    ensures out == Applied(names, live, next, prev, w.fates, w.restores, 0).1
    ensures out.Done? <==> AllSwitch(w.fates, |w.fates|)
    ensures out.Failed? ==>
              && FailsFirst(w.fates, out.engine) && out.engine < |w.restores|
              && NamesUnrestored(out.unrestored, w.restores, out.engine)
  {
    AppliedAt(names, live, live, next, prev, w.fates, w.restores, 0);
    out := Applied(names, live, next, prev, w.fates, w.restores, 0).1;
    hide Applied, Unrestored;
    if out.Failed? {
      UnrestoredAre(names, next, prev, w.restores, out.engine);
    }
  }

  lemma SwitchAnswered(s: Sys, n: Node, p: Policy, next: Artifacts, prev: Artifacts, c: Call)
    requires Fits(s, n) && WorldFits(c.world, n) && Covers(next) && Covers(prev)
    ensures SwitchAnswers(s, SwitchOver(s, n, p, next, prev, c).1, c.world, |s.history| + 1)
  {
    var out := OutcomeIs(n.names, s.live, next, prev, c.world);
    hide Applied, Covers, NamesUnrestored, FailsFirst, AllSwitch;
    if out.Failed? {
      assert SwitchOver(s, n, p, next, prev, c).1 == Refused(FailedAt(AtApply(out.engine, out.unrestored)));
    }
  }

  /** The answer to an attempt, stage by stage; a stage is reached exactly if all before it are passed. */
  ghost predicate Answers(s: Sys, r: Reply, w: World, ok: bool, renders: bool, version: nat) {
    var passed := ok && renders && AllPass(w.checks);
    && (FailedIn(r, AtValidation) <==> !ok)
    && (FailedIn(r, AtRender) <==> ok && !renders)
    && (forall e: nat :: FailedIn(r, AtEngineCheck(e)) <==> ok && renders && FailsCheck(w.checks, e))
    && (FailedIn(r, AtReadRunning) <==> passed && !w.readsRunning)
    && !FailedIn(r, AtRenderPrevious)
    && (passed && w.readsRunning ==> SwitchAnswers(s, r, w, version))
    && (!passed || !w.readsRunning ==> !Committed(r) && !ApplyFailed(r) && !FailedIn(r, AtRecord))
  }

  lemma AttemptAnswers(s: Sys, n: Node, p: Policy, ok: bool, next: Option<Artifacts>, prev: Option<Artifacts>, c: Call)
    requires Fits(s, n) && WorldFits(c.world, n)
    requires (next.Some? ==> Covers(next.value)) && prev.Some? && Covers(prev.value)
    ensures var (s', r) := Attempt(s, n, p, ok, next, prev, c);
            && Answers(s, r, c.world, ok, next.Some?, |s.history| + 1)
            && (!(ok && next.Some? && AllPass(c.world.checks) && c.world.readsRunning) ==> s'.live == s.live)
            && (r.Refused? ==> !r.why.NotRead? && !r.why.NoCandidate? && !r.why.NoSuchVersion?)
  {
    if next.Some? {
      FirstRefusalIs(n.names, next.value, c.world.checks, 0);
      SwitchAnswered(s, n, p, next.value, prev.value, c);
      ChecksAre(n.names, next.value, c.world.checks);
    }
    hide SwitchOver, SwitchAnswers, FirstRefusal, AllPass, FailsCheck, RefusesCheck;
    if ok && next.Some? {
      var refused := FirstRefusal(n.names, next.value, c.world.checks, 0);
      assert refused.None? <==> AllPass(c.world.checks);
      assert forall e: nat :: refused == Some(e) <==> FailsCheck(c.world.checks, e);
      if refused.None? && c.world.readsRunning {
        SwitchedReply(s, Attempt(s, n, p, ok, next, prev, c).1, c.world, |s.history| + 1);
      }
    }
  }

  lemma SwitchedReply(s: Sys, r: Reply, w: World, version: nat)
    requires SwitchAnswers(s, r, w, version)
    ensures !FailedIn(r, AtValidation) && !FailedIn(r, AtRender) && !FailedIn(r, AtReadRunning)
    ensures !FailedIn(r, AtRenderPrevious) && forall e: nat :: !FailedIn(r, AtEngineCheck(e))
    ensures r.Refused? ==> !r.why.NotRead? && !r.why.NoCandidate? && !r.why.NoSuchVersion?
  {
  }

  /** With an artifact for every engine, only the checks count. */
  lemma ChecksAre(names: seq<EngineName>, arts: Artifacts, checks: seq<bool>)
    requires |names| == |checks| && Covers(arts)
    ensures FirstRefusal(names, arts, checks, 0).None? <==> AllPass(checks)
    ensures forall e: nat :: FirstRefusal(names, arts, checks, 0) == Some(e) <==> FailsCheck(checks, e)
  {
    FirstRefusalIs(names, arts, checks, 0);
    hide FirstRefusal;
    forall e: nat
      ensures FirstRefusal(names, arts, checks, 0) == Some(e) <==> FailsCheck(checks, e)
    {
      if e < |names| {
        assert RefusesCheck(names, arts, checks, e) <==> !checks[e];
        assert forall j :: 0 <= j < e ==> (RefusesCheck(names, arts, checks, j) <==> !checks[j]);
      }
    }
  }

  /**
    The answer of a commit or rollback about p, for every way the world can treat it, and which of them
    leave every engine alone.
   */
  lemma RepliesAre(s: Sys, n: Node, c: Call, p: Policy)
    requires Invariant(s, n) && WorldFits(c.world, n) && c.world.readable && IsAbout(s, c.op, p)
    ensures var (s', r) := Step(s, n, c);
            && Answers(s, r, c.world, n.valid(p), n.render(p).Some?, |s.history| + 1)
            && (!(n.valid(p) && n.render(p).Some? && AllPass(c.world.checks) && c.world.readsRunning) ==>
                s'.live == s.live)
  {
    RunningRenders(s, n);
    AttemptAnswers(s, n, p, n.valid(p), n.render(p), n.render(Running(s.history)), c);
    hide Attempt, Answers, AllPass;
  }

  /** So no version is recorded, and no engine changed, unless every engine's check has said yes. */
  lemma ChecksGate(s: Sys, n: Node, c: Call)
    requires Invariant(s, n) && WorldFits(c.world, n)
    ensures var (s', r) := Step(s, n, c);
            s'.history != s.history || s'.live != s.live ==> AllPass(c.world.checks)
  {
    CallEffect(s, n, c);
    hide Attempt, AllPass, Renders, Covers;
    if !c.op.SetCandidate? && c.world.readable && Target(s, c.op).Some? {
      var p := Target(s, c.op).value;
      RunningRenders(s, n);
      Covered(n, p, Running(s.history));
      AttemptAnswers(s, n, p, n.valid(p), n.render(p), n.render(Running(s.history)), c);
    }
  }

  lemma Covered(n: Node, p: Policy, q: Policy)
    requires Sound(n)
    ensures n.render(p).Some? ==> Covers(n.render(p).value)
    ensures n.render(q).Some? ==> Covers(n.render(q).value)
  {
  }

  // ---- what a recorded version is, and what the engines then hold ----

  /** The next version is p, by this caller, under this comment. */
  predicate RecordsAs(s: Sys, s': Sys, p: Policy, actor: string, comment: Comment) {
    s'.history == s.history + [Version(p, actor, comment)]
  }

  /** Every engine holds its artifact of p. */
  ghost predicate AllHold(live: Live, n: Node, p: Policy) {
    && n.render(p).Some? && |live| == |n.names|
    && forall k :: 0 <= k < |n.names| ==>
         n.names[k] in n.render(p).value && live[k] == Some(n.render(p).value[n.names[k]])
  }

  /**
    A rollback that records a version has recorded the policy of the version it names, and every engine
    holds that policy; so do they when only the record failed.
   */
  lemma RollbackRecords(s: Sys, n: Node, c: Call, v: nat)
    requires Invariant(s, n) && WorldFits(c.world, n) && c.op == Rollback(v)
    ensures var (s', r) := Step(s, n, c);
            && (Committed(r) || FailedIn(r, AtRecord) ==>
                  1 <= v <= |s.history| && AllHold(s'.live, n, s.history[v - 1].policy))
            && (Committed(r) ==>
                  RecordsAs(s, s', s.history[v - 1].policy, c.actor, RollbackTo(v)) && s'.candidate == None)
  {
    hide Attempt, Renders;
    if c.world.readable && 1 <= v <= |s.history| {
      AttemptRecords(s, n, s.history[v - 1].policy, c);
    }
  }

  /** A commit that records a version has recorded the candidate. */
  lemma CommitRecords(s: Sys, n: Node, c: Call, text: string)
    requires Invariant(s, n) && WorldFits(c.world, n) && c.op == Commit(text)
    ensures var (s', r) := Step(s, n, c);
            && (Committed(r) || FailedIn(r, AtRecord) ==> s.candidate.Some? && AllHold(s'.live, n, s.candidate.value))
            && (Committed(r) ==> RecordsAs(s, s', s.candidate.value, c.actor, Given(text)) && s'.candidate == None)
  {
    hide Attempt, Renders;
    if c.world.readable && s.candidate.Some? {
      AttemptRecords(s, n, s.candidate.value, c);
    }
  }

  lemma AttemptRecords(s: Sys, n: Node, p: Policy, c: Call)
    requires Invariant(s, n) && WorldFits(c.world, n)
    ensures var (s', r) := ApplyPolicy(s, n, p, c);
            && (Committed(r) ==> RecordsAs(s, s', p, c.actor, CommentOf(c.op)) && s'.candidate == None)
            && (Committed(r) || FailedIn(r, AtRecord) ==> AllHold(s'.live, n, p))
  {
    RunningRenders(s, n);
    if n.render(p).Some? {
      AppliedAt(n.names, s.live, s.live, n.render(p).value, n.render(Running(s.history)).value, c.world.fates,
                c.world.restores, 0);
    }
    hide Applied, FirstRefusal;
  }

  // ---- what the log says ----

  /** The entry that a call of this answer writes, if it writes one. */
  lemma LogSays(s: Sys, n: Node, c: Call)
    requires Invariant(s, n) && WorldFits(c.world, n)
    ensures var (s', r) := Step(s, n, c);
            match r
            case Accepted =>
              && c.op.SetCandidate? && c.op.policy.Some?
              && s'.log == s.log + [Entry(c.actor, CandidateSet(|c.op.policy.value.zones|, |c.op.policy.value.rules|))]
            case Succeeded(id) =>
              && (c.op.Commit? ==> s'.log == s.log + [Entry(c.actor, Recorded(Committing, Given(c.op.comment), id))])
              && (c.op.Rollback? ==>
                    s'.log == s.log + [Entry(c.actor, Recorded(RollingBack, RollbackTo(c.op.version), id))])
            case Refused(FailedAt(stage)) =>
              && (!c.world.audits ==> s'.log == s.log)
              && (c.world.audits && c.op.Commit? ==>
                  s'.log == s.log + [Entry(c.actor, AttemptFailed(Committing, stage))])
              && (c.world.audits && c.op.Rollback? ==>
                  s'.log == s.log + [Entry(c.actor, AttemptFailed(RollingBack, stage))])
            case Refused(_) => s'.log == s.log
  {
    hide Applied, FirstRefusal, Renders;
    RunningRenders(s, n);
  }

  // ---- the dry run ----

  /** The verdict of the validate call, over its inputs. */
  lemma VerdictsAre(s: Sys, n: Node, w: World)
    requires Sound(n) && WorldFits(w, n)
    ensures var v := Checked(s, n, w);
            && (v == Unread <==> !w.readable)
            && (v == NothingToCheck <==> w.readable && s.candidate.None?)
            && (w.readable && s.candidate.Some? ==>
                  var p := s.candidate.value;
                  && (v == Invalid(AtValidation) <==> !n.valid(p))
                  && (v == Invalid(AtRender) <==> n.valid(p) && n.render(p).None?)
                  && (forall e: nat :: v == Invalid(AtEngineCheck(e))
                        <==> n.valid(p) && n.render(p).Some? && FailsCheck(w.checks, e))
                  && (v == Valid <==> n.valid(p) && n.render(p).Some? && AllPass(w.checks)))
  {
    if s.candidate.Some? && n.render(s.candidate.value).Some? {
      ChecksAre(n.names, n.render(s.candidate.value).value, w.checks);
    }
    hide FirstRefusal, AllPass, FailsCheck;
  }
}
