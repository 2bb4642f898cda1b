/** The Suricata engine: an artifact decides whether its child process is stopped or restarted. */
module SuricataEngine {
  import opened Basics
  import opened IntermediateForm
  import opened Process
  import opened Suricata
  import opened Text

  /** How far an apply has come: done, or waiting for a restarted process to settle. */
  datatype Progress = Finished(ok: bool) | Settling(call: Call)

  /** The process-manager action that a dispatch leads to, if any. */
  function ActionFor(d: Dispatch, starts: bool): Option<Action> {
    match d
    case StopProcess => Some(Stop)
    case Detect => Some(Restart(starts))
    case Prevent(_) => Some(Restart(starts))
    case UnknownMode(_) => None
  }

  function Driven(s: State, d: Dispatch, starts: bool): State {
    match ActionFor(d, starts)
    case Some(a) => Process.Step(s, a)
    case None => s
  }

  function Reading(config: string): Dispatch {
    DispatchOf(ModeAfter(NO_MODE, ScanLines(config)))
  }

  /** What the file system allows: the directories, the rule files it refuses to create, and the config. */
  datatype Writes = Writes(rulesDir: bool, unwritable: set<string>, logDir: bool, yaml: Write)

  class Engine {
    const proc: Manager
    const path: string -> string
    var files: set<string>
    var yaml: string

    constructor (proc: Manager, path: string -> string, files: set<string>)
      requires proc.Valid()
      ensures this.proc == proc && this.path == path && this.files == files && yaml == ""
    {
      this.proc, this.path, this.files, yaml := proc, path, files, "";
    }

    /**
      Everything up to the point where a restart waits for its process to settle. When a directory
      or a file cannot be written, the process is left alone.
     */
    method BeginApply(config: string, w: Writes, starts: bool) returns (r: Progress)
      requires proc.Valid()
      modifies this, proc
      ensures proc.Valid()
      ensures var d, names, there := Reading(config), RuleFilesIn(config), old(files) + {path("")};
              var made := w.rulesDir && Creatable(names, path, there, w.unwritable);
              && (d.StopProcess? ==>
                    && files == old(files) && yaml == old(yaml)
                    && proc.Now() == Process.Step(old(proc.Now()), Stop) && r == Finished(true))
              && (!d.StopProcess? ==>
                    && (!w.rulesDir ==> files == old(files))
                    && (made ==> files == there + Paths(names, path))
                    && (w.rulesDir && !made ==> exists k: nat :: EndedAt(names, path, there, w.unwritable, files, k))
                    && yaml == (if made && w.logDir then Written(config, w.yaml) else old(yaml)))
              && (!d.StopProcess? && !(made && w.logDir && w.yaml.Stored? && (d.Detect? || d.Prevent?)) ==>
                    proc.Now() == old(proc.Now()) && r == Finished(false))
              && (made && w.logDir && w.yaml.Stored? && (d.Detect? || d.Prevent?) ==>
                    && proc.Now() == Process.Step(old(proc.Now()), Restart(starts))
                    && if starts then r.Settling? && r.call in proc.Now().calls && r.call.pid == |old(proc.Now()).procs|
                       else r == Finished(false))
    {
      hide ModeAfter, RuleFilesFrom, ScanLines, Creatable, EndedAt, Paths;
      var mode := ParseMode(config);
      var dispatch := DispatchOf(mode);
      if dispatch.StopProcess? {
        proc.StopChild();
        return Finished(true);
      }
      var ensured, made := EnsureRuleFiles(config, path, files, w.rulesDir, w.unwritable);
      files := made;
      if !ensured || !w.logDir {
        return Finished(false);
      }
      yaml := Written(config, w.yaml);
      if !w.yaml.Stored? || dispatch.UnknownMode? {
        return Finished(false);
      }
      var call := proc.BeginRestart(starts);
      return if call.Some? then Settling(call.value) else Finished(false);
    }
  }

  /** What the process manager looks like once a dispatch has been carried out. */
  predicate Settles(s: State, after: State, runs: bool) {
    && after.cmd == (if runs then Some(|s.procs|) else None)
    && forall i :: 0 <= i < |after.procs| && after.procs[i].alive && after.cmd != Some(i) ==> after.procs[i].told
  }

  lemma DispatchSettles(s: State, d: Dispatch, starts: bool)
    requires Process.Invariant(s) && !d.UnknownMode?
    ensures Process.Invariant(Driven(s, d, starts)) && Settles(s, Driven(s, d, starts), !d.StopProcess? && starts)
  {
    StepKeeps(s, ActionFor(d, starts).value);
    StoppedKeeps(s);
    var after := Driven(s, d, starts);
    forall i | 0 <= i < |after.procs| && after.procs[i].alive && after.cmd != Some(i)
      ensures after.procs[i].told
    {
      assert ProcFacts(after, i);
    }
  }

  /** What the continuation lines make of the mode, if anything, is still one that runs an inspector. */
  predicate StillRuns(ids: IdsIR) {
    LastMarked(Suricata.Later(ids), MODE) in {None, Some("detect"), Some("prevent")}
  }

  lemma RunsIff(ids: IdsIR, network: Option<NetworkIR>, t: Template)
    requires Suricata.Fits(t)
    ensures var d := Reading(Artifact(Some(ids), network, t)); d.Detect? || d.Prevent? <==> StillRuns(ids)
  {
    ModeIsRead(ids, network, t);
    assert Reading(Artifact(Some(ids), network, t)) == DispatchOf(ModeRead(Some(ids), network, t)) by {
      ReadsMode(Some(ids), network, t);
    }
    hide ModeRead, Suricata.Later, LastMarked, QueueText, MODE, QUEUE, Reading, DispatchOf, ModeName, Or;
    RunsOn(LastMarked(Suricata.Later(ids), MODE), Or(LastMarked(Suricata.Later(ids), QUEUE), QueueText(ids)), ids);
  }

  lemma ReadsMode(ids: Option<IdsIR>, network: Option<NetworkIR>, t: Template)
    ensures Reading(Artifact(ids, network, t)) == DispatchOf(ModeRead(ids, network, t))
  {
    hide DispatchOf, ModeAfter, ScanLines, Artifact;
  }

  /** The printed mode is one that runs an inspector, so what overrides it decides. */
  lemma RunsOn(given: Option<string>, queue: string, ids: IdsIR)
    ensures var d := DispatchOf(Mode(Or(given, ModeName(ids)), queue));
            d.Detect? || d.Prevent? <==> given in {None, Some("detect"), Some("prevent")}
  {
  }

  lemma DrivenKeeps(s: State, d: Dispatch, starts: bool)
    requires Process.Invariant(s)
    ensures Process.Invariant(Driven(s, d, starts))
    ensures d.UnknownMode? ==> !Settles(s, Driven(s, d, starts), true)
  {
    if d.UnknownMode? {
      assert s.cmd.Some? ==> s.cmd.value < |s.procs|;
    } else {
      StepKeeps(s, ActionFor(d, starts).value);
    }
  }

  /**
    Applying a rendered artifact, from any state the process manager can be in. Without an
    inspection section no process is current afterwards. With one, and a binary that starts, the new
    process is current exactly if no supplied string switches to another mode than detect or prevent.
    Every other process still alive has been told to stop.
   */
  lemma OneInspector(s: State, ids: Option<IdsIR>, network: Option<NetworkIR>, t: Template, starts: bool)
    requires Process.Invariant(s) && Suricata.Fits(t)
    ensures var after := Driven(s, Reading(Artifact(ids, network, t)), starts);
            && Process.Invariant(after)
            && (ids.None? ==> Settles(s, after, false))
            && (ids.Some? && starts ==> (Settles(s, after, true) <==> StillRuns(ids.value)))
            && (ids.Some? && !starts && StillRuns(ids.value) ==> Settles(s, after, false))
  {
    var d := Reading(Artifact(ids, network, t));
    if ids.Some? {
      RunsIff(ids.value, network, t);
    } else {
      DisabledReadsBack();
      assert d == StopProcess;
    }
    hide StillRuns, Reading;
    DrivenKeeps(s, d, starts);
    if !d.UnknownMode? {
      DispatchSettles(s, d, starts);
    }
    hide Driven;
  }
}
