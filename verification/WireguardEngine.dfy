/** The WireGuard engine: kernel links reconciled with the artifact through a state file of names. */
module WireguardEngine {
  import opened Basics
  import opened Text
  import opened Wireguard

  function NamesOf(ifaces: seq<WgIface>): seq<string> {
    seq(|ifaces|, i requires 0 <= i < |ifaces| => ifaces[i].name)
  }

  /** The state file: the managed names, one per line. */
  function StateText(names: seq<string>): string {
    Join(names, "\n") + "\n"
  }

  /**
    The links after one successful apply: the named ones exist; those in the state file that are
    no longer named are deleted, except where the kernel refuses, which is ignored.
   */
  ghost function LinksAfter(links: set<string>, managed: seq<string>, names: seq<string>,
                            refused: set<string>): set<string> {
    links + Elems(names) - (Elems(managed) - Elems(names) - refused)
  }

  /** The interface at which an apply fails, and whether its link had been added by then or was there already. */
  datatype Failure = Failure(at: nat, added: bool)

  /** The names whose links are there when the apply fails. */
  function CreatedBy(names: seq<string>, f: Failure): seq<string>
    requires f.at < |names|
  {
    if f.added then names[..f.at + 1] else names[..f.at]
  }

  /** The managed names as an apply sees them: none if the state file cannot be read. */
  function Seen(state: string, readable: bool): seq<string> {
    if readable then Lines(state) else []
  }

  class Engine {
    var state: string
    var links: set<string>

    constructor (state: string, links: set<string>)
      ensures this.state == state && this.links == links
    {
      this.state, this.links := state, links;
    }

    /** Delete the links the state file names and the policy no longer does. */
    method RemoveStale(current: set<string>, readable: bool, refused: set<string>)
      modifies this`links
      ensures links == old(links) - (Elems(if readable then Lines(state) else []) - current - refused)
    {
      var ls := if readable then Lines(state) else [];
      for i := 0 to |ls|
        invariant links == old(links) - (Elems(ls[..i]) - current - refused)
      {
        assert ls[..i + 1] == ls[..i] + [ls[i]];
        if ls[i] !in current && ls[i] !in refused {
          links := links - {ls[i]};
        }
      }
      assert ls[..|ls|] == ls;
    }

    /** Create and configure the interfaces one by one, up to the one that fails, if any. */
    method Create(ifaces: seq<WgIface>, failAt: Option<Failure>) returns (ok: bool, current: set<string>)
      modifies this`links
      ensures ok <==> !(failAt.Some? && failAt.value.at < |ifaces|)
      ensures ok ==> current == Elems(NamesOf(ifaces)) && links == old(links) + current
      ensures !ok ==> links == old(links) + Elems(CreatedBy(NamesOf(ifaces), failAt.value))
    {
      current := {};
      var names := NamesOf(ifaces);
      for i := 0 to |ifaces|
        invariant current == Elems(names[..i]) && links == old(links) + current
        invariant failAt.Some? ==> i <= failAt.value.at
      {
        assert names[..i + 1] == names[..i] + [names[i]];
        current := current + {ifaces[i].name};
        if failAt.Some? && failAt.value.at == i {
          if failAt.value.added {
            links := links + {ifaces[i].name};
          }
          return false, current;
        }
        links := links + {ifaces[i].name};
      }
      assert names[..|ifaces|] == names;
      return true, current;
    }

    /**
      Apply a config: `makesDir` says whether there is a state directory, `failAt` which interface
      cannot be set up, `readable` whether the state file can be read, `refused` which deletions the
      kernel refuses, and `saved` how the state file takes its new contents, by when the links have been
      changed.
     */
    method Apply(config: string, makesDir: bool, failAt: Option<Failure>, readable: bool, refused: set<string>,
                 saved: Write)
      returns (ok: bool)
      modifies this
      ensures var parsed := Fold([], Lines(config));
              if parsed.Failure? || !makesDir then
                !ok && links == old(links) && state == old(state)
              else if failAt.Some? && failAt.value.at < |parsed.value| then
                && !ok && state == old(state)
                && links == old(links) + Elems(CreatedBy(NamesOf(parsed.value), failAt.value))
              else
                && ok == saved.Stored? && state == Written(StateText(NamesOf(parsed.value)), saved)
                && links == LinksAfter(old(links), if readable then Lines(old(state)) else [], NamesOf(parsed.value),
                                       refused)
    {
      var parsed := Parse(config);
      if parsed.Failure? || !makesDir {
        return false;
      }
      var done, current := Create(parsed.value, failAt);
      if !done {
        return false;
      }
      RemoveStale(current, readable, refused);
      state := Written(StateText(NamesOf(parsed.value)), saved);
      return saved.Stored?;
    }
  }

  // ---- the state file reads back ----

  predicate Names(names: seq<string>) {
    forall n :: n in names ==> Tidy(n) && n != ""
  }

  lemma StateReadsBack(names: seq<string>)
    requires Names(names)
    ensures Lines(StateText(names)) == names
  {
    var body := Join(names, "\n");
    assert StateText(names) == body + ['\n'] + "";
    SplitConcat(body, "", '\n');
    NonBlankConcat(Split(body, '\n'), [""]);
    assert NonBlank([""]) == [];
    if names != [] {
      SplitJoin(names, '\n');
      NonBlankOfTidy(names);
    }
  }

  // ---- runs ----

  /**
    What an apply did to the links: it succeeded, having read the state file or not; it created some
    and failed; or it was over but for the state file, which it left with other contents.
   */
  datatype Step =
    | Succeeded(names: seq<string>, read: bool, refused: set<string>)
    | Aborted(created: seq<string>)
    | Unsaved(names: seq<string>, read: bool, refused: set<string>, left: string)

  ghost function LinksStep(links: set<string>, state: string, s: Step): set<string> {
    match s
    case Succeeded(names, read, refused) => LinksAfter(links, Seen(state, read), names, refused)
    case Aborted(created) => links + Elems(created)
    case Unsaved(names, read, refused, _) => LinksAfter(links, Seen(state, read), names, refused)
  }

  function StateStep(state: string, s: Step): string {
    match s
    case Succeeded(names, _, _) => StateText(names)
    case Aborted(_) => state
    case Unsaved(_, _, _, left) => left
  }

  /** The links after applying the configs one after the other. */
  ghost function LinksRun(links: set<string>, state: string, steps: seq<Step>): set<string>
    decreases |steps|
  {
    if steps == [] then links
    else LinksRun(LinksStep(links, state, steps[0]), StateStep(state, steps[0]), steps[1..])
  }

  /** Every name that was in the state file at some time. */
  ghost function Recorded(state: string, steps: seq<Step>): set<string>
    decreases |steps|
  {
    Elems(Lines(state)) + (if steps == [] then {} else Recorded(StateStep(state, steps[0]), steps[1..]))
  }

  /** The managed links that an apply does not delete for want of the state file. */
  ghost function Overlooked(state: string, read: bool): set<string> {
    if read then {} else Elems(Lines(state))
  }

  /** The links an apply may have left without the state file naming them. */
  ghost function StraysOf(state: string, s: Step): set<string> {
    match s
    case Succeeded(_, read, refused) => refused + Overlooked(state, read)
    case Aborted(created) => Elems(created)
    case Unsaved(names, read, refused, _) => Elems(names) + refused + Overlooked(state, read)
  }

  ghost function Strays(state: string, steps: seq<Step>): set<string>
    decreases |steps|
  {
    if steps == [] then {} else StraysOf(state, steps[0]) + Strays(StateStep(state, steps[0]), steps[1..])
  }

  /** Names that were applied successfully are names. */
  ghost predicate AllNamed(steps: seq<Step>) {
    forall s :: s in steps && s.Succeeded? ==> Names(s.names)
  }

  /**
    Over any run of applies, failed ones included, that ends with a successful one: a link that no
    state file named and no apply left astray is never touched; the last config's links exist; and
    of the others, only those are left that were there at the start and never recorded, or that some
    apply left astray: created by one that failed, or not deleted, because the kernel refused or the
    state file could not be read.
   */
  lemma {:induction false} RunReconciles(links: set<string>, state: string, steps: seq<Step>)
    requires AllNamed(steps) && steps != [] && steps[|steps| - 1].Succeeded?
    ensures var after, last := LinksRun(links, state, steps), Elems(steps[|steps| - 1].names);
            && (forall x :: x !in Recorded(state, steps) + Strays(state, steps) ==> (x in after <==> x in links))
            && last <= after <= last + Strays(state, steps) + (links - Recorded(state, steps))
    decreases |steps|
  {
    var s, rest := steps[0], steps[1..];
    assert s in steps && forall x :: x in rest ==> x in steps;
    if s.Succeeded? {
      StateReadsBack(s.names);
    }
    RecordedFirst(StateStep(state, s), rest);
    if rest != [] {
      RunReconciles(LinksStep(links, state, s), StateStep(state, s), rest);
    }
  }

  lemma RecordedFirst(state: string, steps: seq<Step>)
    ensures Elems(Lines(state)) <= Recorded(state, steps)
  {
  }

  /** So where nothing went astray, nothing that was ever managed is left but the last config's links. */
  lemma CleanRun(links: set<string>, state: string, steps: seq<Step>)
    requires AllNamed(steps) && steps != [] && steps[|steps| - 1].Succeeded? && Strays(state, steps) == {}
    ensures LinksRun(links, state, steps) == links - Recorded(state, steps) + Elems(steps[|steps| - 1].names)
  {
    RunReconciles(links, state, steps);
  }

  /** One successful apply of each list of names, every deletion accepted. */
  function Successes(nss: seq<seq<string>>): seq<Step> {
    seq(|nss|, i requires 0 <= i < |nss| => Succeeded(nss[i], true, {}))
  }

  ghost function EverNamed(nss: seq<seq<string>>): set<string> {
    if nss == [] then {} else Elems(nss[0]) + EverNamed(nss[1..])
  }

  lemma {:induction false} SuccessesRecorded(state: string, nss: seq<seq<string>>)
    requires forall ns :: ns in nss ==> Names(ns)
    ensures Recorded(state, Successes(nss)) == Elems(Lines(state)) + EverNamed(nss)
    ensures Strays(state, Successes(nss)) == {} && AllNamed(Successes(nss))
    decreases |nss|
  {
    hide Names, Lines;
    if nss != [] {
      assert nss[0] in nss && forall ns :: ns in nss[1..] ==> ns in nss;
      StateReadsBack(nss[0]);
      SuccessesRecorded(StateText(nss[0]), nss[1..]);
      assert Successes(nss)[1..] == Successes(nss[1..]);
      assert Successes(nss) == [Successes(nss)[0]] + Successes(nss[1..]);
    }
  }

  /** What one list of names after the other leaves. */
  lemma NamesApplied(links: set<string>, state: string, nss: seq<seq<string>>)
    requires nss != [] && forall ns :: ns in nss ==> Names(ns)
    ensures LinksRun(links, state, Successes(nss))
         == links - (Elems(Lines(state)) + EverNamed(nss)) + Elems(nss[|nss| - 1])
  {
    SuccessesRecorded(state, nss);
    hide Names, Lines, LinksRun, Recorded, Strays, EverNamed;
    CleanRun(links, state, Successes(nss));
  }

  /**
    The exact condition for one apply to leave no stale link: the kernel refuses none of the
    deletions that matter.
   */
  lemma NothingStaleIff(links: set<string>, managed: seq<string>, names: seq<string>, refused: set<string>)
    ensures LinksAfter(links, managed, names, refused) == links - Elems(managed) + Elems(names)
            <==> forall x :: x in links && x in managed && x !in names ==> x !in refused
  {
    if x :| x in links && x in managed && x !in names && x in refused {
      assert x in LinksAfter(links, managed, names, refused);
      assert x !in links - Elems(managed) + Elems(names);
    }
  }

  /** From here on no apply names the link, creates it or writes it into the state file. */
  ghost predicate NeverNamed(x: string, steps: seq<Step>) {
    forall s :: s in steps ==>
      match s
      case Succeeded(names, _, _) => x !in names
      case Aborted(created) => x !in created
      case Unsaved(names, _, _, left) => x !in names && x !in Lines(left)
  }

  /** What goes astray stays: a link that no state file names is not deleted by any later apply. */
  lemma {:induction false} StraysStay(x: string, links: set<string>, state: string, steps: seq<Step>)
    requires AllNamed(steps) && NeverNamed(x, steps) && x in links && x !in Lines(state)
    ensures x in LinksRun(links, state, steps)
    decreases |steps|
  {
    if steps != [] {
      var s, rest := steps[0], steps[1..];
      assert s in steps && forall t :: t in rest ==> t in steps;
      if s.Succeeded? {
        StateReadsBack(s.names);
      }
      StraysStay(x, LinksStep(links, state, s), StateStep(state, s), rest);
    }
  }

  /**
    A link whose deletion was refused, or missed because the state file could not be read, is forgotten:
    no later config that does not name it removes it.
   */
  lemma RefusedIsForgotten(x: string, links: set<string>, state: string, s: Step, steps: seq<Step>)
    requires s.Succeeded? && AllNamed([s] + steps) && NeverNamed(x, [s] + steps)
    requires x in links && (x in s.refused || !s.read)
    ensures x in LinksRun(links, state, [s] + steps)
  {
    assert s in [s] + steps && forall t :: t in steps ==> t in [s] + steps;
    StateReadsBack(s.names);
    assert ([s] + steps)[1..] == steps;
    StraysStay(x, LinksStep(links, state, s), StateStep(state, s), steps);
  }

  /** A link created by an apply that then fails is forgotten likewise, unless the state file named it already. */
  lemma AbortedIsForgotten(x: string, links: set<string>, state: string, created: seq<string>, steps: seq<Step>)
    requires AllNamed(steps) && NeverNamed(x, steps) && x in created && x !in Lines(state)
    ensures x in LinksRun(links, state, [Aborted(created)] + steps)
  {
    assert ([Aborted(created)] + steps)[1..] == steps;
    StraysStay(x, links + Elems(created), state, steps);
  }
}
