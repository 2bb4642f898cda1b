/**
  The refresh trigger: a channel that holds one token, sent to without blocking after a commit and
  received by the refresh loop, which also wakes up on a timer.
 */
module Trigger {
  import opened Basics
  import opened IntelUpdater

  /** Where the refresh loop is: waiting, woken but not yet at the store, or done reading it. */
  datatype Loop = Waiting | Woken | Refreshing

  /** What the sets were last programmed with, and for which version. */
  datatype Filled = Filled(version: nat, sets: Sets)

  /**
    `running` is the newest recorded version, `notified` the newest one whose commit hook has run,
    `lastRead` the newest one the loop has read, and `filled` what the sets hold; None if the table
    that holds them was replaced after they were last programmed, so that they are empty.
   */
  datatype State = State(running: nat, notified: nat, pending: bool, loop: Loop, lastRead: nat, filled: Option<Filled>)

  datatype Action =
    | Replace                         // an engine apply replaces the ruleset table, with empty sets
    | Record                          // a new version becomes the running one
    | Notify                          // the commit hook: send without blocking
    | Tick                            // the timer fires
    | Receive                         // the loop takes the token
    | Read                            // the loop reads the running policy
    | Finish(outcome: Option<Sets>)   // the refresh ends, having programmed the sets or left them alone

  predicate Enabled(s: State, a: Action) {
    match a
    case Replace => true
    case Record => true
    case Notify => true
    case Tick => s.loop == Waiting
    case Receive => s.loop == Waiting && s.pending
    case Read => s.loop == Woken
    case Finish(_) => s.loop == Refreshing
  }

  function Step(s: State, a: Action): State
    requires Enabled(s, a)
  {
    match a
    case Replace => s.(filled := None)
    case Record => s.(running := s.running + 1)
    case Notify => s.(notified := s.running, pending := true)
    case Tick => s.(loop := Woken)
    case Receive => s.(loop := Woken, pending := false)
    case Read => s.(loop := Refreshing, lastRead := s.running)
    case Finish(outcome) =>
      s.(loop := Waiting, filled := if outcome.Some? then Some(Filled(s.lastRead, outcome.value)) else s.filled)
  }

  /** A run is a list of actions, each enabled when its turn comes. */
  predicate CanRun(s: State, actions: seq<Action>)
    decreases |actions|
  {
    actions == [] || (Enabled(s, actions[0]) && CanRun(Step(s, actions[0]), actions[1..]))
  }

  function Run(s: State, actions: seq<Action>): State
    requires CanRun(s, actions)
    decreases |actions|
  {
    if actions == [] then s else Run(Step(s, actions[0]), actions[1..])
  }

  /** A daemon starting on a store whose running version is v, before anything was notified. */
  function Start(v: nat): State {
    State(v, 0, false, Waiting, 0, None)
  }

  /** A token is pending, or the loop has still to read, or has read something at least as new. */
  predicate NoLostWakeup(s: State) {
    && s.notified <= s.running && s.lastRead <= s.running
    && (s.pending || s.loop == Woken || s.lastRead >= s.notified)
  }

  lemma {:induction false} NeverLost(s: State, actions: seq<Action>)
    requires NoLostWakeup(s) && CanRun(s, actions)
    ensures NoLostWakeup(Run(s, actions))
    decreases |actions|
  {
    if actions != [] {
      NeverLost(Step(s, actions[0]), actions[1..]);
    }
  }

  lemma StartsQuiet(v: nat)
    ensures NoLostWakeup(Start(v)) && Start(v).running == v
  {
  }

  /** In every reachable state after a commit hook, no wake-up is lost. */
  lemma NoWakeupIsLost(v: nat, actions: seq<Action>)
    requires CanRun(Start(v), actions)
    ensures NoLostWakeup(Run(Start(v), actions))
  {
    NeverLost(Start(v), actions);
  }

  lemma {:induction false} RunConcat(s: State, a: seq<Action>, b: seq<Action>)
    requires CanRun(s, a) && CanRun(Run(s, a), b)
    ensures CanRun(s, a + b) && Run(s, a + b) == Run(Run(s, a), b)
    decreases |a|
  {
    if a == [] {
      assert a + b == b;
    } else {
      assert (a + b)[1..] == a[1..] + b;
      RunConcat(Step(s, a[0]), a[1..], b);
    }
  }

  // ---- the loop left alone ----

  function ForToken(pending: bool, q: Option<Sets>): seq<Action> {
    if pending then [Receive, Read, Finish(q)] else []
  }

  function InHand(s: State, p: Option<Sets>): seq<Action> {
    match s.loop
    case Waiting => []
    case Woken => [Read, Finish(p)]
    case Refreshing => [Finish(p)]
  }

  /**
    The actions the loop still has to take before it may wait with nothing to do: p is the outcome of
    the refresh in hand, q that of the one for the token, where there are such.
   */
  function LeftToDo(s: State, p: Option<Sets>, q: Option<Sets>): seq<Action> {
    InHand(s, p) + ForToken(s.pending, q)
  }

  /** The version that the refresh in hand reads or has read. */
  function ReadInHand(s: State): nat {
    if s.loop == Woken then s.running else s.lastRead
  }

  lemma OneRuns(s: State, a: Action)
    requires Enabled(s, a)
    ensures CanRun(s, [a]) && Run(s, [a]) == Step(s, a)
  {
    assert [a][1..] == [];
    var next := Step(s, a);
    assert CanRun(next, []) && Run(next, []) == next;
  }

  lemma InHandRuns(s: State, p: Option<Sets>)
    ensures CanRun(s, InHand(s, p))
    ensures Run(s, InHand(s, p)) == s.(loop := Waiting, lastRead := ReadInHand(s),
                                       filled := if s.loop != Waiting &&
                                         p.Some? then Some(Filled(ReadInHand(s), p.value))
                                                 else s.filled)
  {
    if s.loop == Woken {
      OneRuns(Step(s, Read), Finish(p));
      assert [Read, Finish(p)][1..] == [Finish(p)];
    } else if s.loop == Refreshing {
      OneRuns(s, Finish(p));
    }
  }

  lemma TokenRuns(s: State, q: Option<Sets>)
    requires s.loop == Waiting
    ensures CanRun(s, ForToken(s.pending, q))
    ensures Run(s, ForToken(s.pending, q))
         == if s.pending
            then s.(pending := false, lastRead := s.running,
                    filled := if q.Some? then Some(Filled(s.running, q.value)) else s.filled)
            else s
  {
    if s.pending {
      var woken := Step(s, Receive);
      InHandRuns(woken, q);
      assert [Receive, Read, Finish(q)][1..] == InHand(woken, q);
    }
  }

  /**
    Left alone, the loop catches up in at most five steps of its own: it then waits with no token,
    having read a version at least as new as every notified one. The sets hold what the refresh for
    the token put there, or else the one in hand, or else what they held.
   */
  lemma CatchesUp(s: State, p: Option<Sets>, q: Option<Sets>)
    requires NoLostWakeup(s)
    ensures |LeftToDo(s, p, q)| <= 5 && CanRun(s, LeftToDo(s, p, q))
    ensures var end := Run(s, LeftToDo(s, p, q));
            && end.loop == Waiting && !end.pending && end.lastRead >= s.notified && end.running == s.running
            && (end.filled.None? <==> s.filled.None? && (s.loop != Waiting ==> p.None?) && (s.pending ==> q.None?))
            && (s.pending && q.Some? ==> end.filled == Some(Filled(s.running, q.value)))
  {
    InHandRuns(s, p);
    var mid := Run(s, InHand(s, p));
    TokenRuns(mid, q);
    RunConcat(s, InHand(s, p), ForToken(s.pending, q));
  }

  // ---- a call and the loop, one after the other ----

  /** What a call does here: it replaces the table, records a version and runs the hook, or not. */
  function CallActions(displaces: bool, records: bool, notifies: bool): seq<Action> {
    (if displaces then [Replace] else []) + ((if records then [Record] else []) + (if notifies then [Notify] else []))
  }

  lemma CallRuns(s: State, displaces: bool, records: bool, notifies: bool)
    ensures CanRun(s, CallActions(displaces, records, notifies))
    ensures var running := s.running + (if records then 1 else 0);
            Run(s, CallActions(displaces, records, notifies))
            == s.(filled := if displaces then None else s.filled, running := running,
                  notified := if notifies then running else s.notified, pending := s.pending || notifies)
  {
    var one, two := if records then [Record] else [], if notifies then [Notify] else [];
    var first := if displaces then [Replace] else [];
    OneAction(s, Replace, displaces);
    var s1 := Run(s, first);
    OneAction(s1, Record, records);
    var s2 := Run(s1, one);
    OneAction(s2, Notify, notifies);
    RunConcat(s1, one, two);
    RunConcat(s, first, one + two);
  }

  lemma OneAction(s: State, a: Action, taken: bool)
    requires IsCallStep(a)
    ensures CanRun(s, if taken then [a] else [])
    ensures Run(s, if taken then [a] else []) == if taken then Step(s, a) else s
  {
    if taken {
      OneRuns(s, a);
    }
  }

  /**
    The exact condition for sets that nobody fills before the next tick: after a call, and the loop
    left alone, they are empty if and only if they were or the call replaced the table, the refresh
    in hand, if there was one, left them alone, and so did the one for the token, if there was one or
    the call sent it.
   */
  lemma StayClearedIff(s: State, displaces: bool, records: bool, notifies: bool, p: Option<Sets>, q: Option<Sets>)
    requires NoLostWakeup(s)
    ensures CanRun(s, CallActions(displaces, records, notifies))
    ensures var after := Run(s, CallActions(displaces, records, notifies));
            && CanRun(after, LeftToDo(after, p, q))
            && (Run(after, LeftToDo(after, p, q)).filled.None?
                <==> && (s.filled.None? || displaces)
                     && (s.loop != Waiting ==> p.None?)
                     && (s.pending || notifies ==> q.None?))
  {
    CallRuns(s, displaces, records, notifies);
    hide Run, CanRun, LeftToDo, CallActions;
    var after := Run(s, CallActions(displaces, records, notifies));
    CatchesUp(after, p, q);
  }

  // ---- a call and the loop, in any order ----

  predicate IsCallStep(a: Action) {
    a.Replace? || a.Record? || a.Notify?
  }

  /** The steps of a call among the actions, in order; the others are the loop's and the timer's. */
  function CallSteps(actions: seq<Action>): seq<Action> {
    if actions == [] then []
    else if IsCallStep(actions[0]) then [actions[0]] + CallSteps(actions[1..])
    else CallSteps(actions[1..])
  }

  predicate Fills(a: Action) {
    a.Finish? && a.outcome.Some?
  }

  predicate NoneFills(actions: seq<Action>, k: nat) {
    forall j :: k <= j < |actions| ==> !Fills(actions[j])
  }

  /** No refresh has filled the sets since the table was last replaced, or since the beginning if they were empty. */
  predicate NeverFilled(empty: bool, actions: seq<Action>) {
    || (empty && NoneFills(actions, 0))
    || exists k :: 0 <= k < |actions| && actions[k] == Replace && NoneFills(actions, k + 1)
  }

  lemma NoneFillsCons(a: Action, rest: seq<Action>, k: nat)
    requires k <= |rest|
    ensures NoneFills(rest, k) <==> NoneFills([a] + rest, k + 1)
    ensures NoneFills([a] + rest, 0) <==> !Fills(a) && NoneFills(rest, 0)
  {
    var all := [a] + rest;
    assert all[0] == a && forall j :: 0 <= j < |rest| ==> all[j + 1] == rest[j];
    if NoneFills(all, k + 1) {
      forall j | k <= j < |rest|
        ensures !Fills(rest[j])
      {
        assert !Fills(all[j + 1]);
      }
    }
    if NoneFills(all, 0) {
      forall j | 0 <= j < |rest|
        ensures !Fills(rest[j])
      {
        assert !Fills(all[j + 1]);
      }
    }
  }

  lemma NeverFilledCons(empty: bool, a: Action, rest: seq<Action>)
    ensures NeverFilled(empty, [a] + rest) <==> NeverFilled(a == Replace || (empty && !Fills(a)), rest)
  {
    var all := [a] + rest;
    NoneFillsCons(a, rest, 0);
    if k :| 0 <= k < |rest| && rest[k] == Replace && NoneFills(rest, k + 1) {
      NoneFillsCons(a, rest, k + 1);
      assert all[k + 1] == Replace && NoneFills(all, k + 1 + 1);
    }
    if k :| 0 <= k < |all| && all[k] == Replace && NoneFills(all, k + 1) {
      NoneFillsCons(a, rest, k);
      if k > 0 {
        assert rest[k - 1] == Replace && NoneFills(rest, k - 1 + 1);
      }
    }
    if a == Replace && NoneFills(rest, 0) {
      assert all[0] == Replace && NoneFills(all, 0 + 1);
    }
  }

  /**
    Whatever happens and in whatever order, the sets are empty exactly if no refresh filled them since
    the last replacement.
   */
  lemma {:induction false} EmptyIff(s: State, actions: seq<Action>)
    requires CanRun(s, actions)
    ensures Run(s, actions).filled.None? <==> NeverFilled(s.filled.None?, actions)
    decreases |actions|
  {
    if actions == [] {
      assert NoneFills(actions, 0);
    } else {
      EmptyIff(Step(s, actions[0]), actions[1..]);
      NeverFilledCons(s.filled.None?, actions[0], actions[1..]);
      assert actions == [actions[0]] + actions[1..];
    }
  }

  /** The outcome of the last refresh that ended, if one did; `before` if none. */
  function Latest(before: Option<Option<Sets>>, actions: seq<Action>): Option<Option<Sets>>
    decreases |actions|
  {
    if actions == [] then before
    else Latest(if actions[0].Finish? then Some(actions[0].outcome) else before, actions[1..])
  }

  lemma {:induction false} LatestConcat(before: Option<Option<Sets>>, a: seq<Action>, b: seq<Action>)
    ensures Latest(before, a + b) == Latest(Latest(before, a), b)
    decreases |a|
  {
    if a == [] {
      assert a + b == b;
    } else {
      assert (a + b)[1..] == a[1..] + b;
      LatestConcat(if a[0].Finish? then Some(a[0].outcome) else before, a[1..], b);
    }
  }

  /**
    A hook has run and no call step came after it: a token is pending, or a refresh is in hand that
    has read the running version or still will, or the last refresh was one, and what it left is there.
   */
  predicate Served(s: State, last: Option<Option<Sets>>) {
    || s.pending || s.loop == Woken
    || (s.lastRead == s.running
        && (s.loop == Waiting ==>
              last.Some? && (last.value.Some? ==> s.filled == Some(Filled(s.running, last.value.value)))))
  }

  lemma {:induction false} StaysServed(s: State, actions: seq<Action>, before: Option<Option<Sets>>)
    requires CanRun(s, actions) && CallSteps(actions) == [] && Served(s, before)
    ensures Served(Run(s, actions), Latest(before, actions)) && Run(s, actions).running == s.running
    decreases |actions|
  {
    if actions != [] {
      var a := actions[0];
      StaysServed(Step(s, a), actions[1..], if a.Finish? then Some(a.outcome) else before);
    }
  }

  lemma {:induction false} ServedAfterHook(s: State, actions: seq<Action>, before: Option<Option<Sets>>)
    requires CanRun(s, actions) && CallSteps(actions) != [] && CallSteps(actions)[|CallSteps(actions)| - 1] == Notify
    ensures Served(Run(s, actions), Latest(before, actions))
    ensures Run(s, actions).running == s.running + |Records(CallSteps(actions))|
    decreases |actions|
  {
    var a, rest := actions[0], actions[1..];
    var before' := if a.Finish? then Some(a.outcome) else before;
    if IsCallStep(a) && CallSteps(rest) == [] {
      assert CallSteps(actions) == [Notify] && [Notify][1..] == [];
      StaysServed(Step(s, a), rest, before');
    } else {
      if IsCallStep(a) {
        assert CallSteps(actions)[1..] == CallSteps(rest);
      }
      ServedAfterHook(Step(s, a), rest, before');
    }
  }

  function Records(steps: seq<Action>): seq<Action> {
    if steps == [] then []
    else (if steps[0] == Record then [Record] else []) + Records(steps[1..])
  }

  lemma LeftIsTheLoops(s: State, p: Option<Sets>, q: Option<Sets>)
    ensures CallSteps(LeftToDo(s, p, q)) == []
  {
    var own, more := InHand(s, p), ForToken(s.pending, q);
    forall i | 0 <= i < |own + more|
      ensures !IsCallStep((own + more)[i])
    {
    }
    NoCallSteps(own + more);
  }

  lemma {:induction false} NoCallSteps(actions: seq<Action>)
    requires forall i :: 0 <= i < |actions| ==> !IsCallStep(actions[i])
    ensures CallSteps(actions) == []
  {
    if actions != [] {
      NoCallSteps(actions[1..]);
    }
  }

  /**
    A call that runs the hook last, its steps and the loop's taken in any order, and the loop then left
    alone: a refresh has ended that read the version then running, and if the last one programmed the
    sets, they hold what it programmed, for that version.
   */
  lemma FilledAfterHook(s: State, actions: seq<Action>, p: Option<Sets>, q: Option<Sets>)
    requires NoLostWakeup(s) && CanRun(s, actions)
    requires CallSteps(actions) != [] && CallSteps(actions)[|CallSteps(actions)| - 1] == Notify
    ensures var after := Run(s, actions);
            var rest := LeftToDo(after, p, q);
            && CanRun(after, rest)
            && var end, last := Run(after, rest), Latest(None, actions + rest);
            && end.loop == Waiting && !end.pending
            && end.lastRead == end.running == s.running + |Records(CallSteps(actions))|
            && last.Some? && (last.value.Some? ==> end.filled == Some(Filled(end.running, last.value.value)))
  {
    NeverLost(s, actions);
    ServedAfterHook(s, actions, None);
    var after := Run(s, actions);
    var rest := LeftToDo(after, p, q);
    CatchesUp(after, p, q);
    LeftIsTheLoops(after, p, q);
    StaysServed(after, rest, Latest(None, actions));
    LatestConcat(None, actions, rest);
  }
}
