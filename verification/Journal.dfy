/** The durable last-known-good journal (crates/zerovpn-host-agent/src/state.rs, `StateStore`). */
module Journal {
  import opened Common
  import opened DesiredStates

  datatype File = Missing | Garbage | Stored(applied: AppliedState)

  datatype LoadError = LoadError

  /** What `load` makes of the file when reading it does not fail: a missing file is an
      empty journal, a stored document must re-validate and match its digest. */
  function Decode(f: File): Result<Option<AppliedState>, LoadError> {
    match f
    case Missing => Ok(None)
    case Garbage => Err(LoadError)
    case Stored(a) =>
      if Valid(a.state, Predecessor(a.state.revision)) && a.digest == DigestOf(a.state)
      then Ok(Some(a)) else Err(LoadError)
  }

  /** A journal is empty exactly if there is no file; it holds exactly an untampered
      document: the stored one, digest and all, if that is a state `validate` can have
      accepted. */
  lemma {:induction false} DecodeIff(f: File, a: AppliedState)
    ensures Decode(f) == Ok(None) <==> f == Missing
    ensures Decode(f) == Ok(Some(a)) <==>
            f == Stored(a) && a.digest == DigestOf(a.state) && a.state.revision > 0 && WellFormed(a.state)
  {
  }

  function Revision(a: Option<AppliedState>): nat {
    if a.Some? then a.value.state.revision else 0
  }

  /** The journalled state, if the file holds one. */
  function Content(f: File): Option<DesiredState> {
    var d := Decode(f);
    if d.Ok? && d.value.Some? then Some(d.value.value.state) else None
  }

  datatype AuditLine =
    | RejectedStaleRevision | RejectedServerIdentityChange | RejectedInvalidState
    | ApplyStarted | SnapshotFailedLine | ApplyVerified | AppliedLine | CommitUncertainLine
    | ApplyRolledBack | RollbackFailedLine
    | RestoreStarted | RestoredLine | RestoreRolledBack | RestoreRollbackFailed

  class StateStore {
    var file: File
    var log: seq<AuditLine>
    /** How often an I/O call failed, or the lock was held by somebody else. */
    ghost var faults: nat

    constructor (file: File)
      ensures this.file == file && log == []
    {
      this.file := file;
      log := [];
      faults := 0;
    }

    /** `load`; any read error is an Err. */
    method Load() returns (r: Result<Option<AppliedState>, LoadError>)
      modifies this`faults
      ensures faults >= old(faults)
      ensures r == Decode(file) || (r.Err? && faults > old(faults))
    {
      var fault: bool := *;
      if fault {
        faults := faults + 1;
        return Err(LoadError);
      }
      if file.Garbage? { return Err(LoadError); }
      if file.Missing? { return Ok(None); }
      var applied := file.applied;
      var digest := Validate(applied.state, Predecessor(applied.state.revision));
      if digest.Err? || digest.value != applied.digest { return Err(LoadError); }
      return Ok(Some(applied));
    }

    /** `record_applied`. `landed` says whether the rename happened: it may have, even
        though an error is returned, because the directory sync comes after it. Whatever
        lands is newer than what was there and is read back unchanged. */
    method RecordApplied(candidate: DesiredState) returns (r: Option<AppliedState>, ghost landed: bool)
      modifies this`file, this`faults
      ensures faults >= old(faults)
      ensures r.None? && faults == old(faults) ==>
                Decode(old(file)).Err? || !Valid(candidate, Revision(Decode(old(file)).value))
      ensures r.Some? ==> landed && r.value == AppliedState(candidate, DigestOf(candidate))
      ensures !landed ==> file == old(file)
      ensures landed ==> file == Stored(AppliedState(candidate, DigestOf(candidate)))
      ensures landed ==> Decode(file) == Ok(Some(AppliedState(candidate, DigestOf(candidate))))
      ensures landed ==> Decode(old(file)).Ok? && candidate.revision > Revision(Decode(old(file)).value)
    {
      landed := false;
      var previous := Load();
      if previous.Err? { return None, false; }
      var digest := Validate(candidate, Revision(previous.value));
      if digest.Err? { return None, false; }
      var applied := AppliedState(candidate, digest.value);
      var writeFault: bool := *;
      if writeFault {
        faults := faults + 1;
        return None, false;
      }
      file := Stored(applied);
      landed := true;
      var syncFault: bool := *;
      if syncFault {
        faults := faults + 1;
        return None, true;
      }
      return Some(applied), true;
    }

    /** `audit`: appends one line or fails. */
    method Audit(action: AuditLine) returns (ok: bool)
      modifies this`log, this`faults
      ensures log == old(log) + [action] || (!ok && log == old(log))
      ensures faults >= old(faults) && (!ok ==> faults > old(faults))
    {
      ok := *;
      if !ok { faults := faults + 1; }
      var late: bool := *;
      if ok || late { log := log + [action]; }
    }

    /** `acquire_apply_lock`: taken for the whole transaction, or refused. */
    method AcquireApplyLock() returns (ok: bool)
      modifies this`faults
      ensures faults >= old(faults) && (!ok ==> faults > old(faults))
    {
      ok := *;
      if !ok { faults := faults + 1; }
    }
  }
}
