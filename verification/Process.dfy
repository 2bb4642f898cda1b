/**
  One supervised child process. Restarts, stops and the waiters that collect exited processes run
  concurrently; each critical section of the lock is one step here, and a restart takes two, since
  it gives the lock up while it waits for the new process to settle.
 */
module Process {
  import opened Basics

  /**
    A process that was started: the generation its waiter captured, whether it still runs, and what
    happened to it so far. `told` is set when a stop or restart signals it, `reaped` when its waiter
    has had the lock, `reported` when that waiter logged a crash, and `surprise` when it exited
    before anyone told it to.
   */
  datatype Proc = Proc(gen: nat, alive: bool, told: bool, reaped: bool, reported: bool, surprise: bool)

  /** `calls` are the restarts that started a process, each with the generation it remembers. */
  datatype State = State(cmd: Option<nat>, gen: nat, procs: seq<Proc>, calls: seq<Call>)

  datatype Call = Call(pid: nat, gen: nat)

  datatype Action =
    | Restart(starts: bool)   // stop what runs, start anew, then release the lock
    | Stop
    | Exit(pid: nat)          // the process ends, for whatever reason; no lock involved
    | Reap(pid: nat)          // its waiter takes the lock

  const FRESH := State(None, 0, [], [])

  predicate Enabled(s: State, a: Action) {
    match a
    case Restart(_) => true
    case Stop => true
    case Exit(i) => i < |s.procs| && s.procs[i].alive
    case Reap(i) => i < |s.procs| && !s.procs[i].alive && !s.procs[i].reaped
  }

  function Stopped(s: State): State {
    if s.cmd.None? || s.cmd.value >= |s.procs| then s
    else s.(cmd := None, gen := s.gen + 1, procs := s.procs[s.cmd.value := s.procs[s.cmd.value].(told := true)])
  }

  function Started(s: State): State {
    State(Some(|s.procs|), s.gen + 1, s.procs + [Proc(s.gen + 1, true, false, false, false, false)],
          s.calls + [Call(|s.procs|, s.gen + 1)])
  }

  /** The waiter's test: nothing was stopped or started since. */
  predicate Unexpected(s: State, i: nat)
    requires i < |s.procs|
  {
    s.gen == s.procs[i].gen && s.cmd == Some(i)
  }

  function Step(s: State, a: Action): State
    requires Enabled(s, a)
  {
    match a
    case Restart(starts) => if starts then Started(Stopped(s)) else Stopped(s)
    case Stop => Stopped(s)
    case Exit(i) => s.(procs := s.procs[i := s.procs[i].(alive := false, surprise := !s.procs[i].told)])
    case Reap(i) =>
      var p := s.procs[i].(reaped := true, reported := Unexpected(s, i));
      s.(cmd := if Unexpected(s, i) then None else s.cmd, procs := s.procs[i := p])
  }

  /** What the second half of a restart returns once it has the lock back. */
  predicate Settled(s: State, c: Call) {
    s.gen == c.gen && s.cmd.Some?
  }

  predicate CanRun(s: State, actions: seq<Action>)
    decreases |actions|
  {
    actions == [] || (Enabled(s, actions[0]) && CanRun(Step(s, actions[0]), actions[1..]))
  }

  function Run(s: State, actions: seq<Action>): State
    requires CanRun(s, actions)
    decreases |actions|
  {
    if actions == [] then s else Run(Step(s, actions[0]), actions[1..])
  }

  // ---- the manager ----

  /** The manager's fields, and the process table of the machine it runs on. */
  class Manager {
    var cmd: Option<nat>
    var gen: nat
    var procs: seq<Proc>
    ghost var calls: seq<Call>

    ghost function Now(): State
      reads this
    {
      State(cmd, gen, procs, calls)
    }

    ghost predicate Valid()
      reads this
    {
      cmd.Some? ==> cmd.value < |procs|
    }

    constructor ()
      ensures Valid() && Now() == FRESH
    {
      cmd, gen, procs, calls := None, 0, [], [];
    }

    method StopLocked()
      requires Valid()
      modifies this
      ensures Valid() && Now() == Stopped(old(Now()))
    {
      if cmd.None? {
        return;
      }
      gen := gen + 1;
      var child := cmd.value;
      cmd := None;
      procs := procs[child := procs[child].(told := true)];
    }

    method StopChild()
      requires Valid()
      modifies this
      ensures Valid() && Now() == Step(old(Now()), Stop)
    {
      StopLocked();
    }

    /** The first half of a restart: everything up to the point where it releases the lock. */
    method BeginRestart(starts: bool) returns (call: Option<Call>)
      requires Valid()
      modifies this
      ensures Valid() && Now() == Step(old(Now()), Restart(starts))
      ensures call == if starts then Some(Now().calls[|Now().calls| - 1]) else None
    {
      StopLocked();
      if !starts {
        return None;
      }
      var started := Call(|procs|, gen + 1);
      procs := procs + [Proc(gen + 1, true, false, false, false, false)];
      cmd := Some(|procs| - 1);
      gen := gen + 1;
      calls := calls + [started];
      return Some(started);
    }

    /** The second half: did the process survive the wait? */
    method EndRestart(call: Call) returns (ok: bool)
      ensures ok <==> Settled(Now(), call)
    {
      if gen != call.gen || cmd.None? {
        return false;
      }
      return true;
    }

    /** The waiter of a process, once it has exited and the lock is free. */
    method Waiter(pid: nat) returns (reported: bool)
      requires Valid() && Enabled(Now(), Reap(pid))
      modifies this
      ensures Valid() && Now() == Step(old(Now()), Reap(pid))
      ensures reported == Now().procs[pid].reported
    {
      var unexpected := gen == procs[pid].gen && cmd == Some(pid);
      if unexpected {
        cmd := None;
      }
      procs := procs[pid := procs[pid].(reaped := true, reported := unexpected)];
      return unexpected;
    }
  }

  // ---- what every interleaving keeps ----

  /** Facts about one process. */
  predicate ProcFacts(s: State, i: nat)
    requires i < |s.procs|
  {
    var p := s.procs[i];
    && p.gen <= s.gen
    // an untold process that its waiter has not collected is the current one
    && (!p.told && !p.reaped <==> s.cmd == Some(i))
    && (p.alive ==> !p.reaped)
    && (p.surprise ==> !p.alive)
    // told before it exited, or exited by itself
    && (!p.alive && !p.surprise ==> p.told)
    && (p.reported <==> p.reaped && !p.told)
  }

  predicate Invariant(s: State) {
    && (s.cmd.Some? ==> s.cmd.value < |s.procs| && s.procs[s.cmd.value].gen == s.gen)
    && (forall i :: 0 <= i < |s.procs| ==> ProcFacts(s, i))
    && (forall i, j :: 0 <= i < j < |s.procs| ==> s.procs[i].gen < s.procs[j].gen)
    && (forall c :: c in s.calls ==> c.pid < |s.procs| && s.procs[c.pid].gen == c.gen)
  }

  lemma StoppedKeeps(s: State)
    requires Invariant(s)
    ensures Invariant(Stopped(s)) && Stopped(s).cmd == None
  {
    if s.cmd.Some? {
      var t := Stopped(s);
      forall i | 0 <= i < |t.procs|
        ensures ProcFacts(t, i)
      {
        assert ProcFacts(s, i);
      }
    }
  }

  lemma StartedKeeps(s: State)
    requires Invariant(s) && s.cmd == None
    ensures Invariant(Started(s))
  {
    var t := Started(s);
    forall i | 0 <= i < |t.procs|
      ensures ProcFacts(t, i)
    {
      if i < |s.procs| {
        assert ProcFacts(s, i);
      }
    }
    forall i, j | 0 <= i < j < |t.procs|
      ensures t.procs[i].gen < t.procs[j].gen
    {
      assert ProcFacts(s, i);
    }
    forall c | c in t.calls
      ensures c.pid < |t.procs| && t.procs[c.pid].gen == c.gen
    {
      assert c in s.calls || c == Call(|s.procs|, s.gen + 1);
    }
  }

  lemma ExitKeeps(s: State, i: nat)
    requires Invariant(s) && Enabled(s, Exit(i))
    ensures Invariant(Step(s, Exit(i)))
  {
    var t := Step(s, Exit(i));
    forall k | 0 <= k < |t.procs|
      ensures ProcFacts(t, k)
    {
      assert ProcFacts(s, k);
    }
  }

  lemma ReapKeeps(s: State, i: nat)
    requires Invariant(s) && Enabled(s, Reap(i))
    ensures Invariant(Step(s, Reap(i)))
  {
    var t := Step(s, Reap(i));
    assert ProcFacts(s, i);
    forall k | 0 <= k < |t.procs|
      ensures ProcFacts(t, k)
    {
      assert ProcFacts(s, k);
    }
  }

  lemma StepKeeps(s: State, a: Action)
    requires Invariant(s) && Enabled(s, a)
    ensures Invariant(Step(s, a))
  {
    StoppedKeeps(s);
    match a {
      case Restart(starts) => StartedKeeps(Stopped(s));
      case Stop =>
      case Exit(i) => ExitKeeps(s, i);
      case Reap(i) => ReapKeeps(s, i);
    }
  }

  lemma {:induction false} RunKeeps(s: State, actions: seq<Action>)
    requires Invariant(s) && CanRun(s, actions)
    ensures Invariant(Run(s, actions))
    decreases |actions|
  {
    if actions != [] {
      StepKeeps(s, actions[0]);
      RunKeeps(Step(s, actions[0]), actions[1..]);
    }
  }

  /**
    Under every interleaving: the current process is the last one started, under the current
    generation, untold and uncollected; every other live process has been told to stop; a collected
    process was reported as a crash exactly if nobody had told it to stop, and a reported one had
    indeed exited by itself.
   */
  lemma EveryInterleaving(actions: seq<Action>)
    requires CanRun(FRESH, actions)
    ensures var s := Run(FRESH, actions);
            && (s.cmd.Some? ==> s.cmd.value == |s.procs| - 1 && s.procs[s.cmd.value].gen == s.gen
                                && !s.procs[s.cmd.value].told && !s.procs[s.cmd.value].reaped)
            && forall i :: 0 <= i < |s.procs| ==>
                 var p := s.procs[i];
                 && (p.alive && s.cmd != Some(i) ==> p.told)
                 && (p.reaped ==> (p.reported <==> !p.told))
                 && (p.reported ==> p.reaped && p.surprise)
  {
    RunKeeps(FRESH, actions);
    var s := Run(FRESH, actions);
    if s.cmd.Some? {
      var i, last := s.cmd.value, |s.procs| - 1;
      assert ProcFacts(s, i) && ProcFacts(s, last);
    }
    forall i | 0 <= i < |s.procs|
      ensures var p := s.procs[i];
              && (p.alive && s.cmd != Some(i) ==> p.told)
              && (p.reaped ==> (p.reported <==> !p.told))
              && (p.reported ==> p.reaped && p.surprise)
    {
      assert ProcFacts(s, i);
    }
  }

  /** A waiter clears the current process only if it is its own. */
  lemma StaleWaiterIsHarmless(s: State, i: nat)
    requires Invariant(s) && Enabled(s, Reap(i))
    ensures Step(s, Reap(i)).cmd == if s.cmd == Some(i) then None else s.cmd
    ensures Unexpected(s, i) <==> !s.procs[i].told
  {
    assert ProcFacts(s, i);
  }

  /** Once told or collected, always so; and a process is reported at most once, when it is collected. */
  predicate Later(p: Proc, q: Proc) {
    && q.gen == p.gen
    && (q.alive ==> p.alive)
    && (p.told ==> q.told) && (p.reaped ==> q.reaped && q.reported == p.reported && q.told == p.told)
    && (!p.alive ==> q.surprise == p.surprise)
  }

  lemma StepIsLater(s: State, a: Action)
    requires Invariant(s) && Enabled(s, a)
    ensures |s.procs| <= |Step(s, a).procs| && s.calls <= Step(s, a).calls
    ensures forall i :: 0 <= i < |s.procs| ==> Later(s.procs[i], Step(s, a).procs[i])
  {
    forall i | 0 <= i < |s.procs|
      ensures Later(s.procs[i], Step(s, a).procs[i])
    {
      assert ProcFacts(s, i);
    }
  }

  lemma {:induction false} HistoryIsKept(s: State, actions: seq<Action>)
    requires Invariant(s) && CanRun(s, actions)
    ensures |s.procs| <= |Run(s, actions).procs| && s.calls <= Run(s, actions).calls
    ensures forall i :: 0 <= i < |s.procs| ==> Later(s.procs[i], Run(s, actions).procs[i])
    decreases |actions|
  {
    if actions != [] {
      var next := Step(s, actions[0]);
      StepIsLater(s, actions[0]);
      StepKeeps(s, actions[0]);
      HistoryIsKept(next, actions[1..]);
      forall i | 0 <= i < |s.procs|
        ensures Later(s.procs[i], Run(s, actions).procs[i])
      {
        assert Later(s.procs[i], next.procs[i]) && Later(next.procs[i], Run(next, actions[1..]).procs[i]);
      }
    }
  }

  /**
    What a restart returns, in any reachable state: success exactly if the process it started is
    still the current one, that is, has been neither told to stop nor collected by its waiter.
   */
  lemma RestartOutcome(actions: seq<Action>, c: Call)
    requires CanRun(FRESH, actions) && c in Run(FRESH, actions).calls
    ensures var s := Run(FRESH, actions);
            && c.pid < |s.procs|
            && (Settled(s, c) <==> s.cmd == Some(c.pid))
            && (Settled(s, c) <==> !s.procs[c.pid].told && !s.procs[c.pid].reaped)
  {
    RunKeeps(FRESH, actions);
    var s := Run(FRESH, actions);
    assert ProcFacts(s, c.pid);
    if s.cmd.Some? {
      assert ProcFacts(s, s.cmd.value);
    }
  }

  /** Being told by a stop is the only way for a surprise exit to go unreported, and it does happen. */
  lemma CrashCanGoUnreported()
    ensures var actions := [Restart(true), Exit(0), Stop, Reap(0)];
            && CanRun(FRESH, actions)
            && var p := Run(FRESH, actions).procs[0];
               p.surprise && p.reaped && !p.reported
  {
    var s1 := Step(FRESH, Restart(true));
    var s2 := Step(s1, Exit(0));
    var s3 := Step(s2, Stop);
    var s4 := Step(s3, Reap(0));
    var actions := [Restart(true), Exit(0), Stop, Reap(0)];
    assert actions[1..] == [Exit(0), Stop, Reap(0)] && actions[1..][1..] == [Stop, Reap(0)];
    assert [Stop, Reap(0)][1..] == [Reap(0)] && [Reap(0)][1..] == [];
    assert CanRun(s3, [Reap(0)]) && Run(s3, [Reap(0)]) == s4;
    assert CanRun(s2, [Stop, Reap(0)]) && Run(s2, [Stop, Reap(0)]) == s4;
    assert CanRun(s1, actions[1..]) && Run(s1, actions[1..]) == s4;
  }

  /** A successful restart may also find its process dead, if the waiter has not had the lock yet. */
  lemma SettledCanBeDead()
    ensures var actions := [Restart(true), Exit(0)];
            && CanRun(FRESH, actions)
            && var s := Run(FRESH, actions);
               |s.calls| == 1 && |s.procs| == 1 && Settled(s, s.calls[0]) && !s.procs[0].alive
  {
    var s1 := Step(FRESH, Restart(true));
    var actions := [Restart(true), Exit(0)];
    assert actions[1..] == [Exit(0)] && [Exit(0)][1..] == [];
    assert CanRun(s1, [Exit(0)]) && Run(s1, [Exit(0)]) == Step(s1, Exit(0));
  }
}
