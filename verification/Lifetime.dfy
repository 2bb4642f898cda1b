/**
  The life of a node: calls served, crashes in the middle of a call, restarts. What the commit
  protocol keeps over runs of calls is kept over these too.
 */
module NodeLifetime {
  import opened CommitProtocol
  import opened PolicyStore
  import opened Supervision

  /** How far the store transactions of a call had got when the daemon died: each is done or not begun. */
  datatype Moment = BeforeWrites | BetweenWrites | AfterWrites

  /**
    A call is served; the daemon dies in the middle of one, leaving the engines in any state; it is
    stopped between calls; or it is started, finding the engines in any state.
   */
  datatype Event =
    | Serves(call: Call)
    | Dies(call: Call, cut: Moment, left: Live)
    | Stops(left: Live)
    | Boots(readable: bool, found: Live, fates: seq<Fate>)

  datatype Daemon = Daemon(sys: Sys, up: bool)

  predicate EventFits(e: Event, n: Node) {
    match e
    case Serves(call) => WorldFits(call.world, n)
    case Dies(call, _, left) => WorldFits(call.world, n) && |left| == |n.names|
    case Stops(left) => |left| == |n.names|
    case Boots(_, found, fates) => |found| == |fates| == |n.names|
  }

  /** The call with its audit write, the last of its transactions, not done. */
  function Unlogged(c: Call): Call {
    c.(world := c.world.(audits := false))
  }

  /** What a call that was cut off leaves behind: the store as some of its transactions left it. */
  ghost function CutOff(s: Sys, n: Node, c: Call, cut: Moment, left: Live): Sys
    requires Fits(s, n) && WorldFits(c.world, n)
  {
    var kept := match cut
                case BeforeWrites => s
                case BetweenWrites => Step(s, n, Unlogged(c)).0
                case AfterWrites => Step(s, n, c).0;
    kept.(live := left)
  }

  /** One event; an event that cannot happen now, as the daemon is up or down, is passed over. */
  ghost function Next(d: Daemon, n: Node, e: Event): Daemon
    requires Fits(d.sys, n) && EventFits(e, n)
  {
    if d.up then
      match e
      case Serves(call) => Daemon(Step(d.sys, n, call).0, true)
      case Dies(call, cut, left) => Daemon(CutOff(d.sys, n, call, cut, left), false)
      case Stops(left) => Daemon(d.sys.(live := left), false)
      case Boots(_, _, _) => d
    else
      match e
      case Boots(readable, found, fates) =>
        var (live', r) := Booted(d.sys, n, readable, found, fates);
        Daemon(d.sys.(live := live'), r.Started?)
      case _ => d
  }

  /** What every event keeps. */
  ghost predicate Grows(s: Sys, s': Sys, n: Node) {
    Invariant(s', n) && s.history <= s'.history && s.log <= s'.log
  }

  lemma StepGrows(s: Sys, n: Node, c: Call)
    requires Invariant(s, n) && WorldFits(c.world, n)
    ensures Grows(s, Step(s, n, c).0, n)
  {
    StepInvariant(s, n, c);
    CallEffect(s, n, c);
    hide Step, Invariant;
  }

  lemma Relived(s: Sys, s': Sys, n: Node, live: Live)
    requires Grows(s, s', n) && |live| == |n.names|
    ensures Grows(s, s'.(live := live), n)
  {
  }

  lemma NextGrows(d: Daemon, n: Node, e: Event)
    requires Invariant(d.sys, n) && EventFits(e, n)
    ensures Grows(d.sys, Next(d, n, e).sys, n)
  {
    hide Step, Booted, Renders;
    match e {
      case Serves(call) => StepGrows(d.sys, n, call);
      case Dies(call, cut, left) =>
        StepGrows(d.sys, n, call);
        StepGrows(d.sys, n, Unlogged(call));
        Relived(d.sys, d.sys, n, left);
        Relived(d.sys, Step(d.sys, n, call).0, n, left);
        Relived(d.sys, Step(d.sys, n, Unlogged(call)).0, n, left);
      case Stops(left) => Relived(d.sys, d.sys, n, left);
      case Boots(readable, found, fates) => BootRestoresRunning(d.sys, n, readable, found, fates);
    }
  }

  // ---- lives ----

  ghost predicate EventsFit(events: seq<Event>, n: Node) {
    forall e :: e in events ==> EventFits(e, n)
  }

  /** The node after a sequence of events. */
  ghost function Lived(d: Daemon, n: Node, events: seq<Event>): (d': Daemon)
    requires Invariant(d.sys, n) && EventsFit(events, n)
    ensures Invariant(d'.sys, n)
    decreases |events|
  {
    if events == [] then d
    else
      var e := events[0];
      assert e in events && forall x :: x in events[1..] ==> x in events;
      NextGrows(d, n, e);
      Lived(Next(d, n, e), n, events[1..])
  }

  /** Through crashes and restarts, versions and log entries are never changed or removed. */
  lemma {:induction false} HistorySurvives(d: Daemon, n: Node, events: seq<Event>)
    requires Invariant(d.sys, n) && EventsFit(events, n)
    ensures d.sys.history <= Lived(d, n, events).sys.history && d.sys.log <= Lived(d, n, events).sys.log
    decreases |events|
  {
    if events != [] {
      hide Next, Invariant;
      assert events[0] in events && forall x :: x in events[1..] ==> x in events;
      NextGrows(d, n, events[0]);
      HistorySurvives(Next(d, n, events[0]), n, events[1..]);
    }
  }

  /**
    Are the engines known to hold the running policy after the event? A served call leaves that as
    CommitProtocol has it; a crash or a stop loses it; a successful start on a store with a version
    regains it.
   */
  ghost predicate Trusts(d: Daemon, n: Node, e: Event, was: bool)
    requires Fits(d.sys, n) && EventFits(e, n)
  {
    if d.up then
      match e
      case Serves(call) =>
        var r := Step(d.sys, n, call).1;
        Committed(r) || (was && !Alarm(r, call.world, n))
      case Dies(_, _, _) => false
      case Stops(_) => false
      case Boots(_, _, _) => was
    else
      match e
      case Boots(readable, found, fates) => d.sys.history != [] && Booted(d.sys, n, readable, found, fates).1.Started?
      case _ => was
  }

  ghost predicate TrustedFor(d: Daemon, n: Node, events: seq<Event>, was: bool)
    requires Invariant(d.sys, n) && EventsFit(events, n)
    decreases |events|
  {
    if events == [] then was
    else
      var e := events[0];
      assert e in events && forall x :: x in events[1..] ==> x in events;
      NextGrows(d, n, e);
      TrustedFor(Next(d, n, e), n, events[1..], Trusts(d, n, e, was))
  }

  lemma NextTrusted(d: Daemon, n: Node, e: Event, was: bool)
    requires Invariant(d.sys, n) && EventFits(e, n) && (was ==> OnRunning(d.sys, n))
    ensures Trusts(d, n, e, was) ==> OnRunning(Next(d, n, e).sys, n)
  {
    hide Step, Booted, SyncEffect, Renders, OnRunning, Alarm, Committed;
    match e {
      case Serves(call) =>
        StepSyncs(d.sys, n, call);
        var (s', r) := Step(d.sys, n, call);
        if Committed(r) || (was && !Alarm(r, call.world, n)) {
          TrustStep(d.sys, s', r, n, call.op, call.world);
        }
      case Boots(readable, found, fates) =>
        BootRestoresRunning(d.sys, n, readable, found, fates);
      case _ =>
    }
  }

  /**
    The invariant of a node's whole life: whatever calls, crashes, stops and starts it goes through,
    the engines hold the running policy if they did at the beginning, or since a version was recorded
    or the daemon started on one, unless a crash, a stop or an alarm came later.
   */
  lemma {:induction false} EnginesFollowStoreForLife(d: Daemon, n: Node, events: seq<Event>, was: bool)
    requires Invariant(d.sys, n) && EventsFit(events, n) && (was ==> OnRunning(d.sys, n))
    ensures TrustedFor(d, n, events, was) ==> OnRunning(Lived(d, n, events).sys, n)
    decreases |events|
  {
    if events != [] {
      hide Next, Invariant, OnRunning, Trusts;
      var e := events[0];
      assert e in events && forall x :: x in events[1..] ==> x in events;
      NextGrows(d, n, e);
      NextTrusted(d, n, e, was);
      EnginesFollowStoreForLife(Next(d, n, e), n, events[1..], Trusts(d, n, e, was));
    }
  }

  /** One event more: the state, and whether the engines are known to hold the running policy. */
  lemma {:induction false} LifeSnoc(d: Daemon, n: Node, events: seq<Event>, e: Event, was: bool)
    requires Invariant(d.sys, n) && EventsFit(events, n) && EventFits(e, n)
    ensures EventsFit(events + [e], n)
    ensures var now := Lived(d, n, events);
            && Lived(d, n, events + [e]) == Next(now, n, e)
            && TrustedFor(d, n, events + [e], was) == Trusts(now, n, e, TrustedFor(d, n, events, was))
    decreases |events|
  {
    hide Next, Trusts, EventFits;
    var all := events + [e];
    assert all[|events|] == e && forall x :: x in all <==> x in events || x == e;
    if events == [] {
      NextFits(d, n, e);
      assert all[1..] == [] && all[0] == e;
    } else {
      var first := events[0];
      assert first in events && all[0] == first && all[1..] == events[1..] + [e];
      NextFits(d, n, first);
      assert forall x :: x in events[1..] ==> x in events;
      LifeSnoc(Next(d, n, first), n, events[1..], e, Trusts(d, n, first, was));
    }
  }

  lemma NextFits(d: Daemon, n: Node, e: Event)
    requires Invariant(d.sys, n) && EventFits(e, n)
    ensures Invariant(Next(d, n, e).sys, n)
  {
    NextGrows(d, n, e);
  }

  /** The call reported a failed apply, or a version that could not be written. */
  predicate ReportsTrouble(r: Reply) {
    r.Refused? && r.why.FailedAt? && (r.why.stage.AtApply? || r.why.stage.AtRecord?)
  }

  /** A failed apply in which the failing engine refused and every other was restored. */
  predicate CleanlyUndone(r: Reply, w: World) {
    && r.Refused? && r.why.FailedAt? && r.why.stage.AtApply? && r.why.stage.unrestored == []
    && r.why.stage.failed < |w.fates| && w.fates[r.why.stage.failed] == Refuses
  }

  /**
    When the engines are known to hold the running policy, event by event, whatever came before: from a
    call that records a version; from a start that succeeds on a store with one; and on through every
    call that reports no trouble with the engines or the record, or a failed apply cleanly undone.
   */
  lemma TrustGrows(d: Daemon, n: Node, events: seq<Event>, e: Event, was: bool)
    requires Invariant(d.sys, n) && EventsFit(events, n) && EventFits(e, n)
    ensures EventsFit(events + [e], n)
    ensures var now := Lived(d, n, events);
            var before, after := TrustedFor(d, n, events, was), TrustedFor(d, n, events + [e], was);
            match e
            case Serves(call) =>
              var (s', r) := Step(now.sys, n, call);
              && (now.up && s'.history != now.sys.history ==> after)
              && (before && !ReportsTrouble(r) ==> after)
              && (before && CleanlyUndone(r, call.world) ==> after)
            case Boots(readable, found, fates) =>
              && (!now.up && now.sys.history != [] && Booted(now.sys, n, readable, found, fates).1.Started? ==> after)
              && (now.up && before ==> after)
            case _ => !now.up && before ==> after
  {
    LifeSnoc(d, n, events, e, was);
    var now := Lived(d, n, events);
    hide Lived, TrustedFor, Booted, Step;
    match e {
      case Serves(call) => CallEffect(now.sys, n, call);
      case _ =>
    }
  }

  /**
    In every state of a node's life that began fresh: a start never fails to render the running
    version, and a rollback to a stored version is never unknown, invalid or unrenderable.
   */
  lemma AlwaysRestartable(live: Live, up: bool, n: Node, events: seq<Event>, readable: bool, found: Live,
                          fates: seq<Fate>, c: Call)
    requires Sound(n) && |live| == |found| == |fates| == |n.names| && EventsFit(events, n) && WorldFits(c.world, n)
    ensures Invariant(Fresh(live), n)
    ensures var s := Lived(Daemon(Fresh(live), up), n, events).sys;
            var r := Step(s, n, c).1;
            && !Booted(s, n, readable, found, fates).1.NotRendered?
            && !FailedIn(r, AtRenderPrevious)
            && (c.op.Rollback? && 1 <= c.op.version <= |s.history| ==>
                  r != Refused(NoSuchVersion) && !FailedIn(r, AtValidation) && !FailedIn(r, AtRender))
  {
    assert Invariant(Fresh(live), n);
    var s := Lived(Daemon(Fresh(live), up), n, events).sys;
    hide Lived, Renders, Booted;
    BootRestoresRunning(s, n, readable, found, fates);
    StepRenders(s, n, c);
  }

  // ---- the audit trail ----

  /**
    The version an event adds without a log entry: its caller is told, or the daemon dies before the
    entry is written.
   */
  ghost function UnloggedBy(d: Daemon, n: Node, e: Event): set<nat>
    requires Fits(d.sys, n) && EventFits(e, n)
  {
    if !d.up then {}
    else
      match e
      case Serves(call) => UnloggedIn(Step(d.sys, n, call).1)
      case Dies(call, BetweenWrites, _) => UnloggedIn(Step(d.sys, n, Unlogged(call)).1)
      case Dies(call, AfterWrites, _) => UnloggedIn(Step(d.sys, n, call).1)
      case _ => {}
  }

  function UnloggedIn(r: Reply): set<nat> {
    if r.Refused? && r.why.Unaudited? then {r.why.version} else {}
  }

  ghost function UnloggedFor(d: Daemon, n: Node, events: seq<Event>): set<nat>
    requires Invariant(d.sys, n) && EventsFit(events, n)
    decreases |events|
  {
    if events == [] then {}
    else
      var e := events[0];
      assert e in events && forall x :: x in events[1..] ==> x in events;
      NextGrows(d, n, e);
      UnloggedBy(d, n, e) + UnloggedFor(Next(d, n, e), n, events[1..])
  }

  /** One call from s to s': at most one more version, and that is logged or counted. */
  lemma StepLogs(s: Sys, n: Node, c: Call)
    requires Invariant(s, n) && WorldFits(c.world, n)
    ensures var (s', r) := Step(s, n, c);
            forall v :: |s.history| < v <= |s'.history| ==> Audited(s'.log, v) || v in UnloggedIn(r)
  {
    CallEffect(s, n, c);
    ErrorsChangeOnlyTheLog(s, n, c);
    hide Step, Audited, Effect, ErrorEffect;
    var (s', r) := Step(s, n, c);
    NewVersionAudited(s, s', r, c.op);
  }

  lemma NextLogs(d: Daemon, n: Node, e: Event)
    requires Invariant(d.sys, n) && EventFits(e, n)
    ensures var s' := Next(d, n, e).sys;
            forall v :: |d.sys.history| < v <= |s'.history| ==> Audited(s'.log, v) || v in UnloggedBy(d, n, e)
  {
    hide Step, Booted, Audited, Invariant, UnloggedIn;
    match e {
      case Serves(call) => StepLogs(d.sys, n, call);
      case Dies(call, _, _) =>
        StepLogs(d.sys, n, call);
        StepLogs(d.sys, n, Unlogged(call));
      case _ =>
    }
  }

  /**
    Every version recorded in a node's life is in the audit log, or its caller was told that it is
    not, or the daemon died between recording it and logging it.
   */
  lemma {:induction false} VersionsAreAuditedForLife(d: Daemon, n: Node, events: seq<Event>, v: nat)
    requires Invariant(d.sys, n) && EventsFit(events, n)
    requires |d.sys.history| < v <= |Lived(d, n, events).sys.history|
    ensures Audited(Lived(d, n, events).sys.log, v) || v in UnloggedFor(d, n, events)
    decreases |events|
  {
    hide Next, Audited, Renders, UnloggedBy;
    var e := events[0];
    assert e in events && forall x :: x in events[1..] ==> x in events;
    NextGrows(d, n, e);
    NextLogs(d, n, e);
    var d' := Next(d, n, e);
    if v <= |d'.sys.history| {
      HistorySurvives(d', n, events[1..]);
      if Audited(d'.sys.log, v) {
        AuditedLater(d'.sys.log, Lived(d', n, events[1..]).sys.log, v);
      }
    } else {
      VersionsAreAuditedForLife(d', n, events[1..], v);
    }
  }
}
