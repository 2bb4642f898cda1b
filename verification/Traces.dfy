/**
  What each engine is asked over a run of calls: the applies and restores that the supervisor hands it,
  one after the other, and how each of them ends.
 */
module EngineTraces {
  import opened Basics
  import opened CommitProtocol
  import opened EngineArtifacts
  import opened PolicyStore
  import opened Supervision

  /** One apply of an artifact, and how the engine takes it. */
  datatype Act = Act(cfg: Artifact, fate: Fate)

  /** What engine i is asked when all engines are switched from prev to next. */
  function SwitchActs(names: seq<EngineName>, next: Artifacts, prev: Artifacts, fates: seq<Fate>, restores: seq<Fate>,
                      i: nat): seq<Act>
    requires i < |names| == |fates| == |restores| && Covers(next) && Covers(prev)
  {
    if !AllSwitch(fates, i) then []
    else
      [Act(next[names[i]], fates[i])]
      + (if fates[i] == Switches && !AllSwitch(fates, |fates|) then [Act(prev[names[i]], restores[i])] else [])
  }

  /** What engine i is asked in a call. */
  ghost function ActsOf(s: Sys, n: Node, c: Call, i: nat): seq<Act>
    requires Invariant(s, n) && WorldFits(c.world, n) && i < |n.names|
  {
    RunningRenders(s, n);
    if Handed(s, n, c).None? then []
    else
      SwitchActs(n.names, Handed(s, n, c).value, n.render(Running(s.history)).value, c.world.fates, c.world.restores, i)
  }

  /** What an engine holds after these applies. */
  function Replayed(was: Option<Artifact>, acts: seq<Act>): Option<Artifact>
    decreases |acts|
  {
    if acts == [] then was else Replayed(Taken(was, acts[0].cfg, acts[0].fate), acts[1..])
  }

  lemma SwitchReplays(names: seq<EngineName>, live: Live, next: Artifacts, prev: Artifacts, fates: seq<Fate>,
                      restores: seq<Fate>, i: nat)
    requires i < |names| == |live| == |fates| == |restores| && Covers(next) && Covers(prev)
    ensures var after := Applied(names, live, next, prev, fates, restores, 0).0;
            |after| == |live| && after[i] == Replayed(live[i], SwitchActs(names, next, prev, fates, restores, i))
  {
    AppliedAt(names, live, live, next, prev, fates, restores, 0);
    var (after, out) := Applied(names, live, next, prev, fates, restores, 0);
    var acts := SwitchActs(names, next, prev, fates, restores, i);
    hide Applied, Unrestored;
    if acts != [] {
      assert acts[1..] == [] || (|acts| == 2 && acts[1..][1..] == []);
      var one := Taken(live[i], acts[0].cfg, acts[0].fate);
      assert Replayed(one, []) == one;
      if |acts| == 2 {
        var two := Taken(one, acts[1].cfg, acts[1].fate);
        assert Replayed(two, []) == two;
      }
    }
    if out.Failed? {
      var e := out.engine;
      assert fates[e] != Switches && !AllSwitch(fates, |fates|);
      assert i <= e <==> AllSwitch(fates, i);
    }
  }

  /**
    The acts are what the protocol does: they lead from what the engine held before the call to what it
    holds after.
   */
  lemma ActsLead(s: Sys, n: Node, c: Call, i: nat)
    requires Invariant(s, n) && WorldFits(c.world, n) && i < |n.names|
    ensures var s' := Step(s, n, c).0;
            |s'.live| == |n.names| && s'.live[i] == Replayed(s.live[i], ActsOf(s, n, c, i))
  {
    RunningRenders(s, n);
    if Handed(s, n, c).Some? {
      SwitchReplays(n.names, s.live, Handed(s, n, c).value, n.render(Running(s.history)).value, c.world.fates,
                    c.world.restores, i);
    } else {
      CallEffect(s, n, c);
      NotHanded(s, n, c);
    }
    hide Applied, SwitchActs, Replayed, FirstRefusal;
  }

  lemma NotHanded(s: Sys, n: Node, c: Call)
    requires Invariant(s, n) && WorldFits(c.world, n) && Handed(s, n, c).None?
    ensures Step(s, n, c).0.live == s.live && !Committed(Step(s, n, c).1)
  {
    hide SwitchOver, FirstRefusal;
    RunningRenders(s, n);
  }

  /** What engine i is asked over a run of calls. */
  ghost function Trace(s: Sys, n: Node, calls: seq<Call>, i: nat): seq<Act>
    requires Invariant(s, n) && WorldsFit(calls, n) && i < |n.names|
    decreases |calls|
  {
    if calls == [] then []
    else
      var c := calls[0];
      assert c in calls && forall x :: x in calls[1..] ==> x in calls;
      StepInvariant(s, n, c);
      ActsOf(s, n, c, i) + Trace(Step(s, n, c).0, n, calls[1..], i)
  }

  // ---- where the engine's own story ends ----

  /** The last apply that was not simply refused put this artifact on, without failing. */
  predicate EndsOn(acts: seq<Act>, art: Artifact) {
    exists k: nat :: k < |acts| && acts[k] == Act(art, Switches) && RefusedFrom(acts, k + 1)
  }

  predicate RefusedFrom(acts: seq<Act>, k: nat) {
    forall j :: k <= j < |acts| ==> acts[j].fate == Refuses
  }

  lemma EndsLater(acts: seq<Act>, more: seq<Act>, art: Artifact)
    ensures EndsOn(more, art) ==> EndsOn(acts + more, art)
    ensures EndsOn(acts, art) && (forall a :: a in more ==> a.fate == Refuses) ==> EndsOn(acts + more, art)
  {
    var all := acts + more;
    if EndsOn(more, art) {
      var k: nat :| k < |more| && more[k] == Act(art, Switches) && RefusedFrom(more, k + 1);
      assert all[|acts| + k] == Act(art, Switches);
      assert forall j :: |acts| + k < j < |all| ==> all[j] == more[j - |acts|];
      assert RefusedFrom(all, |acts| + k + 1);
    } else if EndsOn(acts, art) && (forall a :: a in more ==> a.fate == Refuses) {
      var k: nat :| k < |acts| && acts[k] == Act(art, Switches) && RefusedFrom(acts, k + 1);
      assert all[k] == Act(art, Switches);
      forall j | k < j < |all|
        ensures all[j].fate == Refuses
      {
        assert j >= |acts| ==> all[j] == more[j - |acts|] && more[j - |acts|] in more;
      }
      assert RefusedFrom(all, k + 1);
    }
  }

  /** The acts of a switch-over that raises no alarm: on next if it is done, else back on prev, or only refused. */
  lemma CalmActs(names: seq<EngineName>, next: Artifacts, prev: Artifacts, fates: seq<Fate>, restores: seq<Fate>,
                 e: nat, i: nat)
    requires i < |names| == |fates| == |restores| && Covers(next) && Covers(prev)
    ensures AllSwitch(fates, |fates|) ==> EndsOn(SwitchActs(names, next, prev, fates, restores, i), next[names[i]])
    ensures FailsFirst(fates, e) && fates[e] == Refuses && AllSwitch(restores, e) ==>
              var acts := SwitchActs(names, next, prev, fates, restores, i);
              EndsOn(acts, prev[names[i]]) || forall a :: a in acts ==> a.fate == Refuses
  {
    var acts := SwitchActs(names, next, prev, fates, restores, i);
    if AllSwitch(fates, |fates|) {
      assert acts[0] == Act(next[names[i]], Switches) && RefusedFrom(acts, 0 + 1);
    } else if FailsFirst(fates, e) && fates[e] == Refuses && AllSwitch(restores, e) {
      if i < e {
        assert |acts| == 2 && acts[1] == Act(prev[names[i]], Switches) && RefusedFrom(acts, 1 + 1);
      }
    }
  }

  /** What is known of a call that records a version or raises no alarm, over its inputs. */
  lemma CalmCall(s: Sys, n: Node, c: Call)
    requires Invariant(s, n) && WorldFits(c.world, n)
    ensures var (s', r) := Step(s, n, c); var w := c.world;
            && (Committed(r) ==>
                  Handed(s, n, c).Some? && AllSwitch(w.fates, |w.fates|) &&
                    n.render(Running(s'.history)) == Handed(s, n, c))
            && (!Committed(r) ==> s'.history == s.history)
            && (Handed(s, n, c).Some? && !Committed(r) && !Alarm(r, w, n) ==>
                  exists e: nat :: FailsFirst(w.fates, e) && w.fates[e] == Refuses && AllSwitch(w.restores, e))
  {
    hide Applied, Unrestored, FirstRefusal;
    CallEffect(s, n, c);
    RunningRenders(s, n);
    if Handed(s, n, c).Some? {
      var next, prev := Handed(s, n, c).value, n.render(Running(s.history)).value;
      var (live', out) := Applied(n.names, s.live, next, prev, c.world.fates, c.world.restores, 0);
      AppliedAt(n.names, s.live, s.live, next, prev, c.world.fates, c.world.restores, 0);
      if out.Failed? {
        UnrestoredAre(n.names, next, prev, c.world.restores, out.engine);
        FailedCalm(c.world, n, out.engine, out.unrestored);
      }
    } else {
      NotHanded(s, n, c);
    }
  }

  lemma FailedCalm(w: World, n: Node, e: nat, unrestored: seq<nat>)
    requires WorldFits(w, n) && FailsFirst(w.fates, e)
    requires forall k: nat :: k < e && w.restores[k] != Switches ==> k in unrestored
    ensures !Alarm(Refused(FailedAt(AtApply(e, unrestored))), w, n) ==>
              w.fates[e] == Refuses && AllSwitch(w.restores, e)
  {
  }

  /** Engine i's artifact of the running policy. */
  ghost function OnOf(s: Sys, n: Node, i: nat): Artifact
    requires Invariant(s, n) && i < |n.names|
  {
    RunningRenders(s, n);
    n.render(Running(s.history)).value[n.names[i]]
  }

  /**
    Under the conditions of CommitProtocol.EnginesFollowStore, the last apply that each engine has not
    simply refused is one that put the running version's artifact on, without failing.
   */
  lemma {:induction false} TraceEndsOnRunning(s: Sys, n: Node, calls: seq<Call>, was: bool, before: seq<Act>, i: nat)
    requires Invariant(s, n) && WorldsFit(calls, n) && i < |n.names|
    requires was ==> EndsOn(before, OnOf(s, n, i))
    ensures Trusted(s, n, calls, was) ==> EndsOn(before + Trace(s, n, calls, i), OnOf(Played(s, n, calls), n, i))
    decreases |calls|
  {
    hide Step, ActsOf, EndsOn, Committed, Alarm, OnOf, Renders, Sound, Running;
    if calls == [] {
      assert before + [] == before;
    } else {
      var c := calls[0];
      assert c in calls && forall x :: x in calls[1..] ==> x in calls;
      StepInvariant(s, n, c);
      var (s', r) := Step(s, n, c);
      var acts := ActsOf(s, n, c, i);
      ActsEnd(s, n, c, was, before, i);
      TraceEndsOnRunning(s', n, calls[1..], Committed(r) || (was && !Alarm(r, c.world, n)), before + acts, i);
      assert before + acts + Trace(s', n, calls[1..], i) == before + (acts + Trace(s', n, calls[1..], i));
    }
  }

  lemma ActsEnd(s: Sys, n: Node, c: Call, was: bool, before: seq<Act>, i: nat)
    requires Invariant(s, n) && WorldFits(c.world, n) && i < |n.names|
    requires was ==> EndsOn(before, OnOf(s, n, i))
    ensures var (s', r) := Step(s, n, c);
            && Invariant(s', n)
            && (Committed(r) || (was && !Alarm(r, c.world, n)) ==>
                  EndsOn(before + ActsOf(s, n, c, i), OnOf(s', n, i)))
  {
    var (s', r) := Step(s, n, c);
    CalmCall(s, n, c);
    StepInvariant(s, n, c);
    RunningRenders(s', n);
    var acts := ActsOf(s, n, c, i);
    var w := c.world;
    EndsLater(before, acts, OnOf(s', n, i));
    if Handed(s, n, c).Some? {
      var next, prev := Handed(s, n, c).value, n.render(Running(s.history)).value;
      if Committed(r) {
        CalmActs(n.names, next, prev, w.fates, w.restores, 0, i);
      } else if was && !Alarm(r, w, n) {
        var e: nat :| FailsFirst(w.fates, e) && w.fates[e] == Refuses && AllSwitch(w.restores, e);
        CalmActs(n.names, next, prev, w.fates, w.restores, e, i);
      }
    }
    hide Step, Applied, SwitchActs, Alarm, EndsOn, FirstRefusal, Renders;
  }

  // ---- what the engine itself does with them ----

  function TextOf(a: Artifact): string {
    if a.Text? then a.text else ""
  }

  /**
    These engine steps tell the story of the acts: one successful step for each artifact put on, one
    failed step for each apply that failed half-way, and none for those that were simply refused. `of`
    says whether a step can be one of that text.
   */
  ghost predicate Tells<S(!new)>(steps: seq<S>, ok: S -> bool, of: (S, string) -> bool, acts: seq<Act>)
    decreases |acts|
  {
    if acts == [] then steps == []
    else if acts[0].fate == Refuses then Tells(steps, ok, of, acts[1..])
    else
      && steps != [] && of(steps[0], TextOf(acts[0].cfg)) && (ok(steps[0]) <==> acts[0].fate == Switches)
      && Tells(steps[1..], ok, of, acts[1..])
  }

  lemma {:induction false} NothingTold<S(!new)>(steps: seq<S>, ok: S -> bool, of: (S, string) -> bool, acts: seq<Act>)
    requires Tells(steps, ok, of, acts) && RefusedFrom(acts, 0)
    ensures steps == []
    decreases |acts|
  {
    if acts != [] {
      NothingTold(steps, ok, of, acts[1..]);
    }
  }

  /** If the story ends on an artifact, the engine's last step is a successful one of that artifact. */
  lemma {:induction false} LastStepIs<S(!new)>(steps: seq<S>, ok: S -> bool, of: (S, string) -> bool, acts: seq<Act>,
                                               art: Artifact)
    requires Tells(steps, ok, of, acts) && EndsOn(acts, art)
    ensures steps != [] && ok(steps[|steps| - 1]) && of(steps[|steps| - 1], TextOf(art))
    decreases |acts|
  {
    var k: nat :| k < |acts| && acts[k] == Act(art, Switches) && RefusedFrom(acts, k + 1);
    var rest := acts[1..];
    assert forall j :: 0 <= j < |rest| ==> rest[j] == acts[j + 1];
    if k == 0 {
      NothingTold(steps[1..], ok, of, rest);
    } else {
      assert rest[k - 1] == Act(art, Switches) && RefusedFrom(rest, k - 1 + 1);
      if acts[0].fate == Refuses {
        LastStepIs(steps, ok, of, rest, art);
      } else {
        LastStepIs(steps[1..], ok, of, rest, art);
      }
    }
  }
}
