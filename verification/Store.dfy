/** The persistent store: versions, the running pointer, the candidate and the audit log. */
module PolicyStore {
  import opened Basics
  import opened PolicyModel
  import opened StoreKeys

  datatype Comment = Given(text: string) | RollbackTo(version: nat)

  datatype Activity = Committing | RollingBack

  datatype Stage =
    | AtValidation
    | AtRender
    | AtEngineCheck(engine: nat)
    | AtReadRunning
    | AtRenderPrevious
    | AtApply(failed: nat, unrestored: seq<nat>)
    | AtRecord

  datatype What =
    | CandidateSet(zones: nat, rules: nat)
    | Recorded(activity: Activity, comment: Comment, version: nat)
    | AttemptFailed(activity: Activity, stage: Stage)

  datatype Entry = Entry(actor: string, what: What)

  /** A committed version; its id is its position, counted from one. */
  datatype Version = Version(policy: Policy, actor: string, comment: Comment)

  datatype VersionInfo = VersionInfo(id: nat, actor: string, comment: Comment)

  datatype AuditRecord = AuditRecord(id: nat, entry: Entry)

  datatype ReadError = Unreadable | NotFound

  /** The running policy of a history; a fresh node runs the empty policy. */
  function Running(history: seq<Version>): Policy {
    if history == [] then EMPTY_POLICY else history[|history| - 1].policy
  }

  function InfoOf(id: nat, v: Version): VersionInfo {
    VersionInfo(id, v.actor, v.comment)
  }

  function Policies(history: seq<Version>): (ps: seq<Policy>)
    ensures |ps| == |history|
  {
    seq(|history|, i requires 0 <= i < |history| => history[i].policy)
  }

  function Infos(history: seq<Version>): (infos: seq<VersionInfo>)
    ensures |infos| == |history|
  {
    seq(|history|, i requires 0 <= i < |history| => InfoOf(i + 1, history[i]))
  }

  function Records(log: seq<Entry>): (records: seq<AuditRecord>)
    ensures |records| == |log|
  {
    seq(|log|, i requires 0 <= i < |log| => AuditRecord(i + 1, log[i]))
  }

  /**
    The buckets, and ghost lists of everything ever committed and logged. A transaction commits or
    changes nothing; `commits` and `reads` say whether the database does its part.
   */
  class Store {
    var versions: map<Key, Policy>
    var info: map<Key, VersionInfo>
    var running: Option<Key>
    var candidate: Option<Policy>
    var audit: map<Key, AuditRecord>
    var versionSeq: nat
    var auditSeq: nat
    ghost var history: seq<Version>
    ghost var log: seq<Entry>

    ghost predicate Valid()
      reads this
    {
      && versionSeq == |history| < LIMIT - 1 && auditSeq == |log| < LIMIT - 1
      && Holds(versions, Policies(history)) && Holds(info, Infos(history)) && Holds(audit, Records(log))
      && running == if history == [] then None else Some(U64Key(|history|))
    }

    constructor ()
      ensures Valid() && history == [] && log == [] && candidate == None
    {
      versions, info, running, candidate, audit := map[], map[], None, None, map[];
      versionSeq, auditSeq, history, log := 0, 0, [], [];
      new;
      RoomForMore();
    }

    method SetCandidate(p: Policy, commits: bool) returns (ok: bool)
      requires Valid()
      modifies this`candidate
      ensures Valid() && ok == commits && candidate == if commits then Some(p) else old(candidate)
    {
      if commits {
        candidate := Some(p);
      }
      return commits;
    }

    method GetCandidate(readable: bool) returns (r: Result<Option<Policy>, ReadError>)
      ensures r == if readable then Success(candidate) else Failure(Unreadable)
    {
      return if readable then Success(candidate) else Failure(Unreadable);
    }

    /** The running policy and its id; the empty policy and zero on a fresh node. */
    method GetRunning(readable: bool) returns (r: Result<(Policy, nat), ReadError>)
      requires Valid()
      ensures r == if readable then Success((Running(history), |history|)) else Failure(Unreadable)
    {
      hide U64Key, LIMIT, Decoded;
      if !readable {
        return Failure(Unreadable);
      }
      if running.None? {
        return Success((EMPTY_POLICY, 0));
      }
      var id := Decoded(running.value);
      KeyReadsBack(|history|);
      if running.value !in versions {
        return Failure(NotFound);
      }
      return Success((versions[running.value], id));
    }

    method GetVersion(id: nat, readable: bool) returns (r: Result<Policy, ReadError>)
      requires Valid() && id < LIMIT
      ensures r == if !readable then Failure(Unreadable)
                   else if 1 <= id <= |history| then Success(history[id - 1].policy)
                   else Failure(NotFound)
    {
      hide U64Key, LIMIT;
      if !readable {
        return Failure(Unreadable);
      }
      KeyInKeys(id, |history|);
      if U64Key(id) !in versions {
        return Failure(NotFound);
      }
      return Success(versions[U64Key(id)]);
    }

    /** Record a version as the running one and clear the candidate, in one transaction. */
    method CommitVersion(p: Policy, actor: string, comment: Comment, commits: bool) returns (id: Option<nat>)
      requires Valid() && |history| < LIMIT - 2
      modifies this
      ensures Valid() && log == old(log)
      ensures commits ==>
                && history == old(history) + [Version(p, actor, comment)] && candidate == None
                && id == Some(|history|)
      ensures !commits ==> history == old(history) && candidate == old(candidate) && id == None
    {
      hide U64Key, LIMIT, Holds;
      if !commits {
        return None;
      }
      ghost var v := Version(p, actor, comment);
      var next := versionSeq + 1;
      var key := U64Key(next);
      HoldsPut(versions, Policies(history), p);
      HoldsPut(info, Infos(history), InfoOf(next, v));
      assert Policies(history + [v]) == Policies(history) + [p];
      assert Infos(history + [v]) == Infos(history) + [InfoOf(next, v)];
      versions := versions[key := p];
      info := info[key := VersionInfo(next, actor, comment)];
      running := Some(key);
      candidate := None;
      versionSeq := next;
      history := history + [v];
      return Some(next);
    }

    method AppendAudit(e: Entry, commits: bool) returns (ok: bool)
      requires Valid() && |log| < LIMIT - 2
      modifies this`audit, this`auditSeq, this`log
      ensures Valid() && ok == commits && log == if commits then old(log) + [e] else old(log)
    {
      hide U64Key, LIMIT, Holds;
      if !commits {
        return false;
      }
      var next := auditSeq + 1;
      HoldsPut(audit, Records(log), AuditRecord(next, e));
      assert Records(log + [e]) == Records(log) + [AuditRecord(next, e)];
      audit := audit[U64Key(next) := AuditRecord(next, e)];
      auditSeq := next;
      log := log + [e];
      return true;
    }

    /** Newest first, at most `limit`, or a hundred without a positive limit. */
    method ListVersions(limit: int) returns (out: seq<VersionInfo>)
      requires Valid()
      ensures var most := if limit <= 0 then 100 else limit; |out| == if |history| < most then |history| else most
      ensures forall j :: 0 <= j < |out| ==>
                var v := history[|history| - j - 1]; out[j] == VersionInfo(|history| - j, v.actor, v.comment)
    {
      hide U64Key, LIMIT;
      out := ListNewest(info, limit, Infos(history));
    }

    method ListAudit(limit: int) returns (out: seq<AuditRecord>)
      requires Valid()
      ensures var most := if limit <= 0 then 100 else limit; |out| == if |log| < most then |log| else most
      ensures forall j :: 0 <= j < |out| ==> out[j] == AuditRecord(|log| - j, log[|log| - j - 1])
    {
      hide U64Key, LIMIT;
      out := ListNewest(audit, limit, Records(log));
    }
  }

  lemma RoomForMore()
    ensures 2 < LIMIT && KeysTo(0) == {}
  {
    assert Pow256(1) == 256 && Pow256(8) == 256 * Pow256(7);
    PowPositive(7);
  }

  lemma {:induction false} PowPositive(w: nat)
    ensures Pow256(w) >= 1
  {
    if w > 0 {
      PowPositive(w - 1);
    }
  }
}
