/** Applying artifacts to all engines, all or nothing. */
module Supervision {
  import opened Basics
  import opened EngineArtifacts

  /** How one engine takes one apply: it switches, fails and keeps its config, or fails half-way. */
  datatype Fate = Switches | Refuses | Tears(mess: Artifact)

  /** What an engine holds; None before the first apply. */
  type Live = seq<Option<Artifact>>

  function Taken(was: Option<Artifact>, cfg: Artifact, fate: Fate): Option<Artifact> {
    match fate
    case Switches => Some(cfg)
    case Refuses => was
    case Tears(mess) => Some(mess)
  }

  /** Done, or the engine that failed with the engines whose restore failed, in the order of restoring. */
  datatype Outcome = Done | Failed(engine: nat, unrestored: seq<nat>)

  // ---- the specification, over engine indices ----

  /** Was this engine applied, and is there something to restore it to? */
  predicate Restorable(name: EngineName, next: Artifacts, prev: Artifacts) {
    name in next && name in prev
  }

  /** Restore those of the engines 0..n that were applied and have a previous artifact, the last one first. */
  function Restored(names: seq<EngineName>, live: Live, next: Artifacts, prev: Artifacts, fates: seq<Fate>,
                    n: nat): Live
    requires n <= |names| == |live| == |fates|
    decreases n
  {
    if n == 0 then live
    else if !Restorable(names[n - 1], next, prev) then Restored(names, live, next, prev, fates, n - 1)
    else Restored(names, live[n - 1 := Taken(live[n - 1], prev[names[n - 1]], fates[n - 1])], next, prev, fates, n - 1)
  }

  function Unrestored(names: seq<EngineName>, next: Artifacts, prev: Artifacts, fates: seq<Fate>, n: nat): seq<nat>
    requires n <= |names| == |fates|
  {
    if n == 0 then []
    else
      (if Restorable(names[n - 1], next, prev) && fates[n - 1] != Switches then [n - 1] else [])
      + Unrestored(names, next, prev, fates, n - 1)
  }

  /** Apply from engine i on; every engine before i with an artifact has been switched. */
  function Applied(names: seq<EngineName>, live: Live, next: Artifacts, prev: Artifacts,
                   fates: seq<Fate>, restores: seq<Fate>, i: nat): (Live, Outcome)
    requires i <= |names| == |live| == |fates| == |restores|
    decreases |names| - i
  {
    if i == |names| then (live, Done)
    else if names[i] !in next then Applied(names, live, next, prev, fates, restores, i + 1)
    else
      var live' := live[i := Taken(live[i], next[names[i]], fates[i])];
      if fates[i] == Switches then Applied(names, live', next, prev, fates, restores, i + 1)
      else (Restored(names, live', next, prev, restores, i), Failed(i, Unrestored(names, next, prev, restores, i)))
  }

  /** The first engine that refuses its artifact; `checks` are the engines' answers. */
  function FirstRefusal(names: seq<EngineName>, arts: Artifacts, checks: seq<bool>, i: nat): Option<nat>
    requires i <= |names| == |checks|
    decreases |names| - i
  {
    if i == |names| then None
    else if names[i] in arts && !checks[i] then Some(i)
    else FirstRefusal(names, arts, checks, i + 1)
  }

  /** Engine i has an artifact and refuses it. */
  predicate RefusesCheck(names: seq<EngineName>, arts: Artifacts, checks: seq<bool>, i: nat)
    requires i < |names| == |checks|
  {
    names[i] in arts && !checks[i]
  }

  /** No engine refuses, or it is the first of those that do. */
  lemma {:induction false} FirstRefusalIs(names: seq<EngineName>, arts: Artifacts, checks: seq<bool>, i: nat)
    requires i <= |names| == |checks|
    ensures var e := FirstRefusal(names, arts, checks, i);
            && (e.None? <==> forall k :: i <= k < |names| && names[k] in arts ==> checks[k])
            && (forall k: nat :: e == Some(k) <==>
                  && i <= k < |names| && RefusesCheck(names, arts, checks, k)
                  && forall j :: i <= j < k ==> !RefusesCheck(names, arts, checks, j))
    decreases |names| - i
  {
    if i < |names| {
      FirstRefusalIs(names, arts, checks, i + 1);
      hide FirstRefusal;
      assert RefusesCheck(names, arts, checks, i) <==> names[i] in arts && !checks[i];
    }
  }

  // ---- the engines and their supervisor ----

  class Engine {
    const name: EngineName
    var live: Option<Artifact>

    constructor (name: EngineName, live: Option<Artifact>)
      ensures this.name == name && this.live == live
    {
      this.name, this.live := name, live;
    }

    method Apply(cfg: Artifact, fate: Fate) returns (ok: bool)
      modifies this
      ensures live == Taken(old(live), cfg, fate) && (ok <==> fate == Switches)
    {
      match fate {
        case Switches => live := Some(cfg);
        case Refuses =>
        case Tears(mess) => live := Some(mess);
      }
      return fate == Switches;
    }
  }

  class Supervisor {
    const engines: seq<Engine>

    constructor (engines: seq<Engine>)
      ensures this.engines == engines
    {
      this.engines := engines;
    }

    ghost predicate Valid() {
      forall i, j :: 0 <= i < j < |engines| ==> engines[i] != engines[j]
    }

    function Names(): (names: seq<EngineName>)
      ensures |names| == |engines|
    {
      seq(|engines|, i requires 0 <= i < |engines| => engines[i].name)
    }

    function LiveNow(): (live: Live)
      reads engines
      ensures |live| == |engines|
    {
      seq(|engines|, i requires 0 <= i < |engines| reads engines => engines[i].live)
    }

    /** Ask every engine that has an artifact to check it. */
    method Validate(artifacts: Artifacts, checks: seq<bool>) returns (refused: Option<nat>)
      requires |checks| == |engines|
      ensures refused == FirstRefusal(Names(), artifacts, checks, 0)
    {
      ghost var names := Names();
      for i := 0 to |engines|
        invariant FirstRefusal(names, artifacts, checks, 0) == FirstRefusal(names, artifacts, checks, i)
      {
        assert names[i] == engines[i].name;
        if engines[i].name !in artifacts {
          continue;
        }
        if !checks[i] {
          return Some(i);
        }
      }
      return None;
    }

    /** One engine's apply, seen from all of them. */
    method Switch(i: nat, cfg: Artifact, fate: Fate) returns (ok: bool)
      requires Valid() && i < |engines|
      modifies engines
      ensures LiveNow() == old(LiveNow())[i := Taken(old(LiveNow())[i], cfg, fate)]
      ensures ok <==> fate == Switches
    {
      ok := engines[i].Apply(cfg, fate);
    }

    static lemma RestoreOne(names: seq<EngineName>, live: Live, next: Artifacts, prev: Artifacts, fates: seq<Fate>,
                            m: nat)
      requires m < |names| == |live| == |fates|
      ensures Restored(names, live, next, prev, fates, m + 1)
           == if Restorable(names[m], next, prev)
              then Restored(names, live[m := Taken(live[m], prev[names[m]], fates[m])], next, prev, fates, m)
              else Restored(names, live, next, prev, fates, m)
      ensures Unrestored(names, next, prev, fates, m + 1)
           == (if Restorable(names[m], next, prev) && fates[m] != Switches then [m] else [])
              + Unrestored(names, next, prev, fates, m)
    {
    }

    /** Restore the engines of `applied`, the last one first. */
    method Restore(applied: seq<nat>, n: nat, next: Artifacts, prev: Artifacts, fates: seq<Fate>)
      returns (unrestored: seq<nat>)
      requires Valid() && n <= |engines| == |fates| && applied == Present(Names(), next, n)
      modifies engines
      ensures LiveNow() == Restored(Names(), old(LiveNow()), next, prev, fates, n)
      ensures unrestored == Unrestored(Names(), next, prev, fates, n)
    {
      hide Restored, Unrestored, Present;
      unrestored := [];
      ghost var names, start, m := Names(), LiveNow(), n;
      var i := |applied|;
      while i > 0
        invariant 0 <= i <= |applied| && 0 <= m <= n && applied[..i] == Present(names, next, m)
        invariant Restored(names, LiveNow(), next, prev, fates, m) == Restored(names, start, next, prev, fates, n)
        invariant unrestored + Unrestored(names, next, prev, fates, m) == Unrestored(names, next, prev, fates, n)
      {
        i := i - 1;
        m := SkipAbsent(names, LiveNow(), next, prev, fates, m);
        RestoreOne(names, LiveNow(), next, prev, fates, m);
        assert applied[..i + 1][..i] == applied[..i];
        var e := applied[i];
        var name := engines[e].name;
        assert name == names[e];
        if name !in prev {
          continue;
        }
        var ok := Switch(e, prev[name], fates[e]);
        if !ok {
          unrestored := unrestored + [e];
        }
      }
      NonePresent(names, LiveNow(), next, prev, fates, m);
    }

    method Apply(next: Artifacts, prev: Artifacts, fates: seq<Fate>, restores: seq<Fate>) returns (out: Outcome)
      requires Valid() && |fates| == |restores| == |engines|
      modifies engines
      ensures (LiveNow(), out) == Applied(Names(), old(LiveNow()), next, prev, fates, restores, 0)
    {
      ghost var names, start := Names(), LiveNow();
      var applied: seq<nat> := [];
      for i := 0 to |engines|
        invariant applied == Present(names, next, i)
        invariant Applied(names, LiveNow(), next, prev, fates, restores, i)
               == Applied(names, start, next, prev, fates, restores, 0)
      {
        var name := engines[i].name;
        assert name == names[i];
        if name !in next {
          continue;
        }
        var ok := Switch(i, next[name], fates[i]);
        if !ok {
          var unrestored := Restore(applied, i, next, prev, restores);
          return Failed(i, unrestored);
        }
        applied := applied + [i];
      }
      return Done;
    }
  }

  /** The engines below n that have an artifact. */
  function Present(names: seq<EngineName>, arts: Artifacts, n: nat): (present: seq<nat>)
    requires n <= |names|
    ensures forall k :: k in present ==> k < n
  {
    if n == 0 then []
    else Present(names, arts, n - 1) + (if names[n - 1] in arts then [n - 1] else [])
  }

  /** Engines without an artifact are passed over, down to the last one that has one. */
  lemma {:induction false} SkipAbsent(names: seq<EngineName>, live: Live, next: Artifacts, prev: Artifacts,
                                      fates: seq<Fate>, n: nat)
    returns (m: nat)
    requires n <= |names| == |live| == |fates| && Present(names, next, n) != []
    ensures m < n && names[m] in next
    ensures Present(names, next, n) == Present(names, next, m) + [m]
    ensures Restored(names, live, next, prev, fates, n) == Restored(names, live, next, prev, fates, m + 1)
    ensures Unrestored(names, next, prev, fates, n) == Unrestored(names, next, prev, fates, m + 1)
    decreases n
  {
    if names[n - 1] in next {
      m := n - 1;
    } else {
      m := SkipAbsent(names, live, next, prev, fates, n - 1);
    }
  }

  lemma {:induction false} NonePresent(names: seq<EngineName>, live: Live, next: Artifacts, prev: Artifacts,
                                       fates: seq<Fate>, n: nat)
    requires n <= |names| == |live| == |fates| && Present(names, next, n) == []
    ensures Restored(names, live, next, prev, fates, n) == live && Unrestored(names, next, prev, fates, n) == []
    decreases n
  {
    if n > 0 {
      NonePresent(names, live, next, prev, fates, n - 1);
    }
  }

  // ---- all or nothing ----

  /** Every engine holds its artifact of this set. */
  predicate InSync(names: seq<EngineName>, live: Live, arts: Artifacts)
    requires |names| == |live|
  {
    forall i :: 0 <= i < |names| ==> names[i] in arts && live[i] == Some(arts[names[i]])
  }

  lemma {:induction false} RestoredAt(names: seq<EngineName>, live: Live, next: Artifacts, prev: Artifacts,
                                      fates: seq<Fate>, n: nat)
    requires n <= |names| == |live| == |fates|
    ensures var after := Restored(names, live, next, prev, fates, n);
            && |after| == |live|
            && forall i :: 0 <= i < |live| ==>
                 after[i] == if i < n && Restorable(names[i], next, prev)
                             then Taken(live[i], prev[names[i]], fates[i]) else live[i]
    decreases n
  {
    if n > 0 {
      if Restorable(names[n - 1], next, prev) {
        var live' := live[n - 1 := Taken(live[n - 1], prev[names[n - 1]], fates[n - 1])];
        RestoredAt(names, live', next, prev, fates, n - 1);
      } else {
        RestoredAt(names, live, next, prev, fates, n - 1);
      }
    }
  }

  lemma {:induction false} UnrestoredAre(names: seq<EngineName>, next: Artifacts, prev: Artifacts, fates: seq<Fate>,
                                         n: nat)
    requires n <= |names| == |fates|
    ensures var u := Unrestored(names, next, prev, fates, n);
            && (forall i: nat :: i in u <==> i < n && Restorable(names[i], next, prev) && fates[i] != Switches)
            && forall a, b :: 0 <= a < b < |u| ==> u[a] > u[b]
  {
    if n > 0 {
      UnrestoredAre(names, next, prev, fates, n - 1);
      var u := Unrestored(names, next, prev, fates, n - 1);
      assert forall b :: 0 <= b < |u| ==> u[b] in u;
    }
  }

  /** What an engine holds after it was applied and then, if possible, restored. */
  function AfterRestore(was: Option<Artifact>, name: EngineName, next: Artifacts, prev: Artifacts,
                        fate: Fate): Option<Artifact> {
    if name !in next then was
    else if name !in prev then Some(next[name])
    else Taken(Some(next[name]), prev[name], fate)
  }

  /** What a run of Applied from engine i does, engine by engine, whatever the artifact sets cover. */
  lemma {:induction false} AppliedAt(names: seq<EngineName>, start: Live, live: Live, next: Artifacts, prev: Artifacts,
                                     fates: seq<Fate>, restores: seq<Fate>, i: nat)
    requires i <= |names| == |start| == |live| == |fates| == |restores|
    requires forall k :: 0 <= k < i && names[k] in next ==> fates[k] == Switches && live[k] == Some(next[names[k]])
    requires forall k :: 0 <= k < |names| && (k >= i || names[k] !in next) ==> live[k] == start[k]
    ensures var (after, out) := Applied(names, live, next, prev, fates, restores, i);
            && |after| == |live|
            && (out.Done? <==> forall k :: 0 <= k < |names| && names[k] in next ==> fates[k] == Switches)
            && (out.Done? ==> forall k :: 0 <= k < |names| ==>
                  after[k] == if names[k] in next then Some(next[names[k]]) else start[k])
            && (out.Failed? ==>
                  var e := out.engine;
                  && i <= e < |names| && names[e] in next && fates[e] != Switches
                  && (forall k :: 0 <= k < e && names[k] in next ==> fates[k] == Switches)
                  && out.unrestored == Unrestored(names, next, prev, restores, e)
                  && (forall k :: 0 <= k < e ==> after[k] == AfterRestore(start[k], names[k], next, prev, restores[k]))
                  && after[e] == Taken(start[e], next[names[e]], fates[e])
                  && (forall k :: e < k < |names| ==> after[k] == start[k]))
    decreases |names| - i
  {
    if i < |names| {
      if names[i] !in next {
        AppliedAt(names, start, live, next, prev, fates, restores, i + 1);
      } else {
        var live' := live[i := Taken(live[i], next[names[i]], fates[i])];
        if fates[i] == Switches {
          AppliedAt(names, start, live', next, prev, fates, restores, i + 1);
        } else {
          RestoredAt(names, live', next, prev, restores, i);
        }
      }
    }
  }

  /** The failing engine still holds, or happens to hold, its previous artifact. */
  predicate KeptPrevious(live: Live, names: seq<EngineName>, prev: Artifacts, e: nat)
    requires e < |names| == |live| && names[e] in prev
  {
    live[e] == Some(prev[names[e]])
  }

  /** Does an engine that took `held` come back to `cfg` when this is what it does with the restore? */
  predicate ComesBack(held: Artifact, cfg: Artifact, fate: Fate) {
    match fate
    case Switches => true
    case Refuses => held == cfg
    case Tears(mess) => mess == cfg
  }

  /** With engine e failing: it kept its artifact or was left with the same, and every engine before it comes back. */
  predicate AllComeBack(names: seq<EngineName>, next: Artifacts, prev: Artifacts, fates: seq<Fate>, restores: seq<Fate>,
                        e: nat)
    requires |names| == |fates| == |restores|
    requires (forall n: EngineName :: n in next) && (forall n: EngineName :: n in prev)
  {
    && e < |names|
    && (fates[e] == Refuses || fates[e] == Tears(prev[names[e]]))
    && forall k :: 0 <= k < e ==> ComesBack(next[names[k]], prev[names[k]], restores[k])
  }

  predicate AllSwitch(fates: seq<Fate>, n: nat)
    requires n <= |fates|
  {
    forall k :: 0 <= k < n ==> fates[k] == Switches
  }

  /** The engine at which an apply to all fails: the first that does not switch. */
  predicate FailsFirst(fates: seq<Fate>, e: nat) {
    e < |fates| && fates[e] != Switches && AllSwitch(fates, e)
  }

  /**
    All or nothing. With every engine on `prev`: if all switch, all end on `next`. Otherwise the first
    engine e that does not switch is reported, with exactly the engines before it whose restore
    failed, last applied first; every engine that is neither is back on `prev`. All of them are back
    on `prev` if and only if e refused, or was left with its previous artifact all the same, and each
    engine before it took the restore, or holds its previous artifact all the same.
   */
  lemma AllOrNothing(names: seq<EngineName>, live: Live, next: Artifacts, prev: Artifacts, fates: seq<Fate>,
                     restores: seq<Fate>)
    requires |names| == |live| == |fates| == |restores|
    requires (forall n: EngineName :: n in next) && (forall n: EngineName :: n in prev)
    requires InSync(names, live, prev)
    ensures var (after, out) := Applied(names, live, next, prev, fates, restores, 0);
            && |after| == |names|
            && (out.Done? <==> AllSwitch(fates, |fates|))
            && (out.Done? ==> InSync(names, after, next))
            && (out.Failed? ==>
                  && FailsFirst(fates, out.engine)
                  && (forall k: nat :: k in out.unrestored <==> k < out.engine && restores[k] != Switches)
                  && (forall a, b :: 0 <= a < b < |out.unrestored| ==> out.unrestored[a] > out.unrestored[b])
                  && (forall k :: 0 <= k < |names| && k != out.engine && k !in out.unrestored ==>
                        KeptPrevious(after, names, prev, k))
                  && (InSync(names, after, prev) <==> AllComeBack(names, next, prev, fates, restores, out.engine)))
  {
    AppliedAt(names, live, live, next, prev, fates, restores, 0);
    var (after, out) := Applied(names, live, next, prev, fates, restores, 0);
    if out.Failed? {
      UnrestoredAre(names, next, prev, restores, out.engine);
      var e := out.engine;
      hide Applied;
      forall k | 0 <= k < |names|
        ensures after[k] == Some(prev[names[k]])
                <==> if k < e then ComesBack(next[names[k]], prev[names[k]], restores[k])
                     else if k == e then fates[e] == Refuses || fates[e] == Tears(prev[names[e]])
                     else true
      {
      }
    }
  }
}
