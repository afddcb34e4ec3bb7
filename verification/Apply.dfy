/** The transaction coordinator (crates/zerovpn-host-agent/src/apply.rs). */
module Apply {
  import opened Common
  import opened DesiredStates
  import opened WireGuard
  import opened WgConfig
  import opened Firewall
  import opened FirewallMeaning
  import opened Hosts
  import opened FirewallExecutor
  import opened Backends
  import opened Journal

  /** Live host and journal agree: the journalled state is being served behind its
      firewall, or nothing is journalled and the agent has left nothing on the host. */
  ghost predicate Agree(p: HostForwardPlan, s: HostState, journal: Option<DesiredState>) {
    match journal
    case None => !AgentOwnsWg0(s) && OwnedAbsent(s.tables)
    case Some(st) => AgentOwnsWg0(s) && Matches(s.wg0.value.kernel, st) && Guarding(p, s.tables)
  }

  /** Only what `wg setconf` and `wg syncconf` set differs. */
  predicate SameButPeers(a: HostState, b: HostState) {
    && a.wg0.Some? && b.wg0.Some?
    && b == a.(wg0 := Some(a.wg0.value.(kernel := b.wg0.value.kernel)))
    && a.wg0.value.kernel.addresses == b.wg0.value.kernel.addresses
  }

  datatype Snapshot = Nothing | Running(config: Config)

  /** The two implementations of `HostBackend`. */
  datatype Backend = Cutover(cutover: HostCutoverBackend) | Update(update: PeerUpdateBackend)
  {
    function TheHost(): Host {
      match this case Cutover(c) => c.ops.host case Update(u) => u.host
    }

    ghost function Repr(): set<object> {
      match this case Cutover(c) => {c, c.ops, c.ops.host} case Update(u) => {u, u.host}
    }

    ghost predicate Valid(p: HostForwardPlan)
      reads Repr()
    {
      match this
      case Cutover(c) => c.Valid() && c.plan == p
      case Update(u) => u.host.Valid() && AllSafe(p, u.host.history)
    }

    /** Undoing a failed firewall install left something behind. */
    ghost predicate Residue()
      reads Repr()
    {
      Cutover? && cutover.residue
    }

    /** What a successful snapshot has established about the host `s`. */
    ghost predicate Captured(s: HostState)
    {
      match this
      case Cutover(c) => c.ops.Unoccupied(c.plan, s)
      case Update(u) => Restartable(u.host.networkPlan, s, u.previous) && KernelOk(s.wg0.value.kernel)
    }

    ghost predicate Fresh()
      reads Repr()
    {
      Cutover? ==> !cutover.wgActivationAttempted && !cutover.firewallInstalled
    }

    /** What `wg showconf` would have said on the host `s`, for the backend that asks. */
    ghost predicate Remembers(snapshot: Snapshot, s: HostState) {
      Update? ==> s.wg0.Some? && snapshot == Running(ShowConf(s.wg0.value.kernel))
    }

    /** When this backend can bring the host `s` to `candidate`. */
    ghost predicate Fit(s: HostState, candidate: DesiredState) {
      && Captured(s) && !UsesZeroPsk(candidate)
      && match this
         case Cutover(c) => c.Raisable(s, candidate)
         case Update(u) => u.Succeeds(candidate)
    }

    /** Ready to be rolled back to `s`. */
    ghost predicate Recoverable(s: HostState)
      reads Repr()
    {
      match this
      case Cutover(c) =>
        && c.firewallInstalled == c.wgActivationAttempted
        && (c.wgActivationAttempted ==> !c.residue && c.base == s.tables && (c.ops.wg0Created ==> c.ops.host.s.wg0.Some?))
        && (!c.wgActivationAttempted ==> c.ops.host.s.wg0 == s.wg0 && LeftAs(c.residue, s.tables, c.ops.host.s.tables))
      case Update(u) => SameButPeers(s, u.host.s)
    }

    /** The host `s`, reached from `before`, serves `candidate`, verified. */
    ghost predicate Serves(p: HostForwardPlan, before: HostState, s: HostState, candidate: DesiredState) {
      && s.wg0.Some? && Matches(s.wg0.value.kernel, candidate)
      && (Cutover? ==> AgentOwnsWg0(s) && Guarding(p, s.tables))
      && (Update? ==> SameButPeers(before, s))
    }

    /** The host `s` is `before` again, up to what an install failure could not clean. */
    ghost predicate Restored(residue: bool, before: HostState, s: HostState) {
      && (Cutover? ==> !AgentOwnsWg0(s) && LeftAs(residue, before.tables, s.tables))
      && (Update? ==> s == before)
    }

    method TakeSnapshot(ghost p: HostForwardPlan) returns (r: Option<Snapshot>)
      requires Valid(p) && !Residue()
      modifies Repr()
      ensures Valid(p) && !Residue()
      ensures TheHost().s == old(TheHost().s)
      ensures Grew(old(TheHost().history), TheHost().history)
      ensures r.Some? ==> Captured(TheHost().s) && Recoverable(TheHost().s) && Fresh() && old(Fresh())
      ensures r.Some? ==> Remembers(r.value, TheHost().s)
      ensures TheHost().faults >= old(TheHost().faults)
      ensures r.None? && TheHost().faults == old(TheHost().faults) ==> !(old(Fresh()) && Captured(TheHost().s))
    {
      match this
      case Cutover(c) =>
        var ok := c.Snapshot();
        r := if ok then Some(Nothing) else None;
      case Update(u) =>
        var config := u.Snapshot();
        r := if config.Some? then Some(Running(config.value)) else None;
    }

    /** stage, then activate, then verify. */
    method Bring(candidate: DesiredState, ghost p: HostForwardPlan) returns (ok: bool)
      requires Valid(p) && !Residue() && Captured(TheHost().s) && Recoverable(TheHost().s)
      requires Fresh() && candidate.revision > 0 && WellFormed(candidate)
      modifies Repr()
      ensures Valid(p) && Recoverable(old(TheHost().s))
      ensures Grew(old(TheHost().history), TheHost().history)
      ensures ok ==> Serves(p, old(TheHost().s), TheHost().s, candidate) && !Residue()
      ensures TheHost().faults >= old(TheHost().faults)
      ensures ok ==> Fit(old(TheHost().s), candidate)
      ensures Residue() && Fit(old(TheHost().s), candidate) ==> TheHost().faults >= old(TheHost().faults) + 2
      ensures !ok && TheHost().faults == old(TheHost().faults) ==> !Fit(old(TheHost().s), candidate) && !Residue()
    {
      match this
      case Cutover(c) => ok := BringCutover(c, candidate);
      case Update(u) => ok := BringUpdate(u, candidate);
    }

    /** `rollback`. Success restores the captured host, up to what an install failure
        could not clean. */
    method RollBack(snapshot: Snapshot, ghost before: HostState, ghost p: HostForwardPlan) returns (ok: bool)
      requires Valid(p) && Captured(before) && Recoverable(before) && Remembers(snapshot, before)
      modifies Repr()
      ensures Valid(p) && Residue() == old(Residue())
      ensures Grew(old(TheHost().history), TheHost().history)
      ensures ok ==> Restored(Residue(), before, TheHost().s)
      ensures TheHost().faults >= old(TheHost().faults) && (!ok ==> TheHost().faults > old(TheHost().faults))
    {
      match this
      case Cutover(c) => ok := c.Rollback();
      case Update(u) =>
        MatchingIsDisjoint(before.wg0.value.kernel, u.previous.state);
        ShowConfRestores(before.wg0.value.kernel, u.host.s.wg0.value.kernel);
        ok := u.Rollback(snapshot.config);
    }
  }

  method BringCutover(c: HostCutoverBackend, candidate: DesiredState) returns (ok: bool)
    requires c.Valid() && !c.residue && !c.firewallInstalled && !c.wgActivationAttempted
    requires candidate.revision > 0 && WellFormed(candidate)
    modifies c, c.ops, c.ops.host
    ensures c.Valid() && c.firewallInstalled == c.wgActivationAttempted
    ensures Grew(old(c.ops.host.history), c.ops.host.history)
    ensures c.wgActivationAttempted ==>
              !c.residue && c.base == old(c.ops.host.s.tables) && (c.ops.wg0Created ==> c.ops.host.s.wg0.Some?)
    ensures !c.wgActivationAttempted ==>
              c.ops.host.s.wg0 == old(c.ops.host.s.wg0) && LeftAs(c.residue, old(c.ops.host.s.tables), c.ops.host.s.tables)
    ensures ok ==> c.wgActivationAttempted && !c.residue && Guarding(c.plan, c.ops.host.s.tables)
    ensures ok ==> AgentOwnsWg0(c.ops.host.s) && Matches(c.ops.host.s.wg0.value.kernel, candidate)
    ensures c.ops.host.faults >= old(c.ops.host.faults)
    ensures c.residue && old(Hookable(c.ops.host.s.tables)) ==> c.ops.host.faults >= old(c.ops.host.faults) + 2
    ensures ok ==> c.Raisable(old(c.ops.host.s), candidate) && !UsesZeroPsk(candidate)
    ensures c.ops.host.faults == old(c.ops.host.faults) ==>
              !c.residue && (!ok ==> !(c.Raisable(old(c.ops.host.s), candidate) && !UsesZeroPsk(candidate)))
  {
    ok := RaiseCutover(c, candidate);
    if !ok { return; }
    LoadedRenderMatchesIff(EMPTY_KERNEL.(addresses := [SERVER_ADDRESS]), candidate, c.key);
    ok := c.Verify(candidate);
    if ok { InstalledGuards(c.plan, c.base); }
  }

  /** stage, then activate. */
  method RaiseCutover(c: HostCutoverBackend, candidate: DesiredState) returns (ok: bool)
    requires c.Valid() && !c.residue && !c.firewallInstalled && !c.wgActivationAttempted
    requires candidate.revision > 0 && WellFormed(candidate)
    modifies c, c.ops, c.ops.host
    ensures c.Valid() && c.firewallInstalled == c.wgActivationAttempted
    ensures Grew(old(c.ops.host.history), c.ops.host.history)
    ensures c.wgActivationAttempted ==>
              !c.residue && c.base == old(c.ops.host.s.tables) && (c.ops.wg0Created ==> c.ops.host.s.wg0.Some?)
    ensures !c.wgActivationAttempted ==>
              c.ops.host.s.wg0 == old(c.ops.host.s.wg0) && LeftAs(c.residue, old(c.ops.host.s.tables), c.ops.host.s.tables)
    ensures ok ==> c.wgActivationAttempted && !c.residue && AgentOwnsWg0(c.ops.host.s) && c.ops.wg0Created
    ensures ok ==> c.ops.host.s.wg0.value.kernel ==
                   Load(EMPTY_KERNEL.(addresses := [SERVER_ADDRESS]), Rendered(candidate, c.key))
    ensures c.ops.host.faults >= old(c.ops.host.faults)
    ensures c.residue && old(Hookable(c.ops.host.s.tables)) ==> c.ops.host.faults >= old(c.ops.host.faults) + 2
    ensures ok ==> c.Raisable(old(c.ops.host.s), candidate)
    ensures c.ops.host.faults == old(c.ops.host.faults) ==> !c.residue && (!ok ==> !c.Raisable(old(c.ops.host.s), candidate))
  {
    ok := c.Stage(candidate);
    if !ok { return; }
    ok := c.Activate();
  }

  method BringUpdate(u: PeerUpdateBackend, candidate: DesiredState) returns (ok: bool)
    requires u.host.Valid() && Update(u).Captured(u.host.s) && candidate.revision > 0 && WellFormed(candidate)
    modifies u, u.host
    ensures u.host.Valid() && SameButPeers(old(u.host.s), u.host.s)
    ensures Grew(old(u.host.history), u.host.history)
    ensures forall q :: AllSafe(q, old(u.host.history)) ==> AllSafe(q, u.host.history)
    ensures ok ==> Matches(u.host.s.wg0.value.kernel, candidate)
    ensures u.host.faults >= old(u.host.faults)
    ensures ok ==> Update(u).Fit(old(u.host.s), candidate)
    ensures !ok && u.host.faults == old(u.host.faults) ==> !Update(u).Fit(old(u.host.s), candidate)
  {
    ok := u.Stage(candidate);
    if !ok { return; }
    ghost var k := u.host.s.wg0.value.kernel;
    ok := u.Activate();
    if !ok { return; }
    if u.key.publicKey == candidate.serverKey { LoadedRenderMatchesIff(k, candidate, u.key); }
    ok := u.Verify(candidate);
  }

  // ------------------------------------------------------------- coordinator

  datatype ApplyResult =
    | Busy                      // another process holds the apply lock
    | LoadFailed
    | Rejected
    | AuditFailed
    | SnapshotFailed
    | Applied(applied: AppliedState, finalAuditWritten: bool)
    | CommitUncertain
    | RolledBack
    | RollbackFailed
  {
    /** Nothing was attempted on the host. */
    predicate Untouched() {
      Busy? || LoadFailed? || Rejected? || AuditFailed? || SnapshotFailed?
    }
  }

  /** How a transaction ends when nothing goes wrong outside the program. */
  predicate Clean(r: ApplyResult, fit: bool) {
    if fit then r.Applied? && r.finalAuditWritten else r.RolledBack?
  }

  predicate Extends(early: seq<AuditLine>, late: seq<AuditLine>) {
    early <= late
  }

  datatype CommitResult = Recorded(applied: AppliedState, finalAuditWritten: bool) | Uncertain | NotRecorded

  lemma {:induction false} PresentIsNotAbsent(t: Tables)
    requires FWD in t
    ensures !OwnedAbsent(t)
  {
    assert FWD.chain == HostFwd;
  }

  lemma {:induction false} ServingAgrees(b: Backend, p: HostForwardPlan, before: HostState, s: HostState,
                      journal: Option<DesiredState>, candidate: DesiredState)
    requires b.Captured(before) && b.Serves(p, before, s, candidate)
    requires Agree(p, before, journal)
    ensures Agree(p, s, Some(candidate))
  {
    if b.Update? {
      assert ChainIsPlanned(b.update.host.networkPlan.value, before.tables, HostFwd);
      PresentIsNotAbsent(before.tables);
    }
  }

  lemma {:induction false} RestoredAgrees(b: Backend, p: HostForwardPlan, before: HostState, s: HostState, journal: Option<DesiredState>)
    requires b.Captured(before) && b.Restored(false, before, s)
    requires Agree(p, before, journal)
    ensures Agree(p, s, journal)
  {
    // An update restores the very same host; a cutover had nothing journalled.
  }

  /** How host and journal may relate after `apply`, given how they did before. */
  ghost predicate Consistent(p: HostForwardPlan, before: HostState, was: Option<DesiredState>,
                             after: HostState, now: Option<DesiredState>,
                             candidate: DesiredState, r: ApplyResult, missed: bool, residue: bool) {
    Agree(p, before, was) ==>
      && (!r.RollbackFailed? && !missed ==> (Agree(p, after, now) <==> !residue))
      // The other way to end in open disagreement without a failed rollback.
      && (r.RolledBack? && missed ==> now == Some(candidate) && (Agree(p, after, was) <==> !residue))
  }

  lemma {:induction false} ConsistentAfter(b: Backend, p: HostForwardPlan, before: HostState, was: Option<DesiredState>,
                        after: HostState, now: Option<DesiredState>,
                        candidate: DesiredState, r: ApplyResult, landed: bool, missed: bool, residue: bool)
    requires b.Captured(before)
    requires now == if landed then Some(candidate) else was
    requires residue ==> b.Cutover?
    requires r.Applied? || r.CommitUncertain? ==> landed && !missed && !residue && b.Serves(p, before, after, candidate)
    requires r.RolledBack? ==> landed == missed && b.Restored(residue, before, after)
    requires r.Applied? || r.CommitUncertain? || r.RolledBack? || r.RollbackFailed?
    ensures Consistent(p, before, was, after, now, candidate, r, missed, residue)
  {
    if Agree(p, before, was) && !residue {
      if r.RolledBack? {
        RestoredAgrees(b, p, before, after, was);
      } else if !r.RollbackFailed? {
        ServingAgrees(b, p, before, after, was, candidate);
      }
    }
  }

  /** The bound on faults cannot be raised. From a clean host and an empty journal: a first
      cutover in which a staging command and its cleanup fail (two faults) leaves a chain
      that the rollback does not know of; and one whose candidate cannot be verified, and
      whose `ip link delete` then fails (one fault), leaves the whole tunnel. */
  lemma {:induction false} ToleranceIsTight(p: HostForwardPlan, t: Tables, key: PrivateKey, candidate: DesiredState)
    requires OwnedAbsent(t) && Hookable(t) && WellFormed(candidate) && UsesZeroPsk(candidate)
    ensures Agree(p, HostState(t, None), None)
    ensures var c, left := Commands(p), t[FWD := []];
            && Outcome(t, c.stage[0], true, left) && Outcome(left, c.stage[1], false, left)
            && Outcome(left, c.cleanup[0], true, left) && Outcome(left, c.cleanup[1], false, left)
            && !Agree(p, HostState(left, None), None)
    ensures var kernel := Load(EMPTY_KERNEL.(addresses := [SERVER_ADDRESS]), Rendered(candidate, key));
            && !Matches(kernel, candidate)
            && !Agree(p, HostState(Installed(p, t), Some(Wg0(true, true, kernel))), None)
  {
    FailedCleanupLeavesChain(p, t);
    var start := EMPTY_KERNEL.(addresses := [SERVER_ADDRESS]);
    LoadedIsOk(start, Rendered(candidate, key));
    ZeroPskNeverMatches(Load(start, Rendered(candidate, key)), candidate);
  }

  function Committed(candidate: DesiredState): AppliedState {
    AppliedState(candidate, DigestOf(candidate))
  }

  /** What `apply` demands of a candidate before it touches the host. */
  predicate Admissible(f: File, candidate: DesiredState) {
    && Decode(f).Ok? && Valid(candidate, Revision(Decode(f).value))
    && (Content(f).Some? ==> Content(f).value.serverKey == candidate.serverKey)
  }

  /** The audit line a refused candidate is due. */
  function RejectionLine(journal: Option<AppliedState>, candidate: DesiredState): AuditLine {
    if candidate.revision <= Revision(journal) then RejectedStaleRevision
    else if journal.Some? && journal.value.state.serverKey != candidate.serverKey then RejectedServerIdentityChange
    else RejectedInvalidState
  }

  class ApplyCoordinator {
    const backend: Backend
    const store: StateStore

    /** Everything that has gone wrong outside the program. */
    ghost function Faults(): nat
      reads store, backend.TheHost()
    {
      store.faults + backend.TheHost().faults
    }

    constructor (backend: Backend, store: StateStore)
      ensures this.backend == backend && this.store == store
    {
      this.backend := backend;
      this.store := store;
    }

    ghost predicate Achievable(candidate: DesiredState)
      reads store, backend.Repr()
    {
      backend.Fresh() && Admissible(store.file, candidate) && backend.Fit(backend.TheHost().s, candidate)
    }

    /** How many things may go wrong outside the program before agreement is at stake: one
        if the host can be brought to the candidate, none if it will have to be rolled back
        anyway. */
    ghost function Tolerance(candidate: DesiredState, s: HostState): nat {
      if backend.Fit(s, candidate) then 1 else 0
    }

    /** `apply`. `landed` says whether the journal rename happened, `missed` that it did
        but reading it back failed.

        For every combination of failing steps: the tunnel is never up without its
        firewall at any command (part of `Valid`); the journal changes only to this
        candidate, which is newer and keeps the server identity; a success means the host
        serves the candidate and the journal holds it; and if host and journal agreed
        before, they agree after, unless more went wrong outside the program than one
        thing, or than nothing if the candidate cannot be brought up. `Consistent` says
        what is left of that when more went wrong.

        The journal never changes without the audit lines that must come first.

        And it is not merely safe: it succeeds only when the candidate is achievable, and
        always when nothing goes wrong outside the program. */
    method Apply(candidate: DesiredState, ghost p: HostForwardPlan)
      returns (r: ApplyResult, ghost landed: bool, ghost missed: bool)
      requires backend.Valid(p) && !backend.Residue()
      modifies backend.Repr(), store
      ensures backend.Valid(p)
      ensures Grew(old(backend.TheHost().history), backend.TheHost().history)
      ensures r.Untouched() ==> backend.TheHost().s == old(backend.TheHost().s) && !landed
      ensures !backend.Captured(old(backend.TheHost().s)) ==> r.Untouched()
      ensures store.file == if landed then Stored(Committed(candidate)) else old(store.file)
      ensures landed ==> Admissible(old(store.file), candidate)
      ensures r.Applied? || r.CommitUncertain? ==>
                landed && !missed && backend.Serves(p, old(backend.TheHost().s), backend.TheHost().s, candidate)
      ensures r.Applied? ==> r.applied == Committed(candidate)
      ensures Consistent(p, old(backend.TheHost().s), Content(old(store.file)),
                         backend.TheHost().s, Content(store.file), candidate, r, missed, backend.Residue())
      ensures landed ==> Extends(old(store.log) + [ApplyStarted, ApplyVerified], store.log)
      ensures r.Applied? && r.finalAuditWritten ==> store.log == old(store.log) + [ApplyStarted, ApplyVerified, AppliedLine]
      ensures r.RolledBack? && Faults() == old(Faults()) ==> store.log == old(store.log) + [ApplyStarted, ApplyRolledBack]
      ensures store.faults >= old(store.faults) && backend.TheHost().faults >= old(backend.TheHost().faults)
      ensures r.Applied? ==> old(Achievable(candidate))
      ensures Faults() == old(Faults()) ==> (r.Applied? <==> old(Achievable(candidate))) && !missed && !backend.Residue()
      ensures Faults() == old(Faults()) ==> !r.CommitUncertain? && !r.RollbackFailed? && (r.Applied? ==> r.finalAuditWritten)
      ensures missed ==> store.faults >= old(store.faults) + 2
      ensures r.RollbackFailed? ==> backend.TheHost().faults > old(backend.TheHost().faults)
      ensures Agree(p, old(backend.TheHost().s), Content(old(store.file)))
              && Faults() <= old(Faults()) + Tolerance(candidate, old(backend.TheHost().s))
              ==> Agree(p, backend.TheHost().s, Content(store.file))
    {
      assert store !in backend.Repr();
      ghost var host := backend.TheHost();
      ghost var before, history, faults, unused := host.s, host.history, host.faults, backend.Fresh();
      var refusal := Admit(candidate);
      assert host.s == before && host.history == history && host.faults == faults && backend.Fresh() == unused;
      if refusal.Some? { return refusal.value, false, false; }
      ghost var log := store.log;
      assert log + [ApplyVerified] == old(store.log) + [ApplyStarted, ApplyVerified];
      assert log + [ApplyVerified, AppliedLine] == old(store.log) + [ApplyStarted, ApplyVerified, AppliedLine];
      assert log + [ApplyRolledBack] == old(store.log) + [ApplyStarted, ApplyRolledBack];
      r, landed, missed := Proceed(candidate, p);
    }

    /** An admitted candidate: snapshot, then the transaction. */
    method Proceed(candidate: DesiredState, ghost p: HostForwardPlan)
      returns (r: ApplyResult, ghost landed: bool, ghost missed: bool)
      requires backend.Valid(p) && !backend.Residue() && Admissible(store.file, candidate)
      modifies backend.Repr(), store
      ensures backend.Valid(p)
      ensures Grew(old(backend.TheHost().history), backend.TheHost().history)
      ensures r.Untouched() ==> backend.TheHost().s == old(backend.TheHost().s) && !landed
      ensures !backend.Captured(old(backend.TheHost().s)) ==> r.Untouched()
      ensures store.file == if landed then Stored(Committed(candidate)) else old(store.file)
      ensures r.Applied? || r.CommitUncertain? ==>
                landed && !missed && backend.Serves(p, old(backend.TheHost().s), backend.TheHost().s, candidate)
      ensures r.Applied? ==> r.applied == Committed(candidate)
      ensures Consistent(p, old(backend.TheHost().s), Content(old(store.file)),
                         backend.TheHost().s, Content(store.file), candidate, r, missed, backend.Residue())
      ensures landed ==> Extends(old(store.log) + [ApplyVerified], store.log)
      ensures r.Applied? && r.finalAuditWritten ==> store.log == old(store.log) + [ApplyVerified, AppliedLine]
      ensures r.RolledBack? && Faults() == old(Faults()) ==> store.log == old(store.log) + [ApplyRolledBack]
      ensures store.faults >= old(store.faults) && backend.TheHost().faults >= old(backend.TheHost().faults)
      ensures r.Applied? ==> old(backend.Fresh()) && backend.Fit(old(backend.TheHost().s), candidate)
      ensures Faults() == old(Faults()) ==>
                && (r.Applied? <==> old(backend.Fresh()) && backend.Fit(old(backend.TheHost().s), candidate))
                && !missed && !backend.Residue()
                && !r.CommitUncertain? && !r.RollbackFailed? && (r.Applied? ==> r.finalAuditWritten)
      ensures missed ==> store.faults >= old(store.faults) + 2
      ensures r.RollbackFailed? ==> backend.TheHost().faults > old(backend.TheHost().faults)
      ensures Agree(p, old(backend.TheHost().s), Content(old(store.file)))
              && Faults() <= old(Faults()) + Tolerance(candidate, old(backend.TheHost().s))
              ==> Agree(p, backend.TheHost().s, Content(store.file))
    {
      landed, missed := false, false;
      ghost var before := backend.TheHost().s;
      var snapshot := backend.TakeSnapshot(p);
      if snapshot.None? {
        var _ := store.Audit(SnapshotFailedLine);
        return SnapshotFailed, false, false;
      }
      r, landed, missed := Settle(candidate, snapshot.value, p, before);
    }

    /** The transaction, and what it does to the agreement of host and journal. */
    method Settle(candidate: DesiredState, snapshot: Snapshot, ghost p: HostForwardPlan, ghost before: HostState)
      returns (r: ApplyResult, ghost landed: bool, ghost missed: bool)
      requires backend.Valid(p) && !backend.Residue()
      requires before == backend.TheHost().s && backend.Captured(before) && backend.Recoverable(before)
      requires backend.Fresh() && backend.Remembers(snapshot, before)
      requires Decode(store.file).Ok? && Valid(candidate, Revision(Decode(store.file).value))
      modifies backend.Repr(), store
      ensures backend.Valid(p) && !r.Untouched()
      ensures Grew(old(backend.TheHost().history), backend.TheHost().history)
      ensures store.file == if landed then Stored(Committed(candidate)) else old(store.file)
      ensures r.Applied? || r.CommitUncertain? ==> landed && !missed && backend.Serves(p, before, backend.TheHost().s, candidate)
      ensures r.Applied? ==> r.applied == Committed(candidate) && backend.Fit(before, candidate)
      ensures Consistent(p, before, Content(old(store.file)),
                         backend.TheHost().s, Content(store.file), candidate, r, missed, backend.Residue())
      ensures landed ==> Extends(old(store.log) + [ApplyVerified], store.log)
      ensures r.Applied? && r.finalAuditWritten ==> store.log == old(store.log) + [ApplyVerified, AppliedLine]
      ensures r.RolledBack? && Faults() == old(Faults()) ==> store.log == old(store.log) + [ApplyRolledBack]
      ensures store.faults >= old(store.faults) && backend.TheHost().faults >= old(backend.TheHost().faults)
      ensures Faults() == old(Faults()) ==> !missed && !backend.Residue() && Clean(r, backend.Fit(before, candidate))
      ensures missed ==> store.faults >= old(store.faults) + 2
      ensures r.RollbackFailed? ==> backend.TheHost().faults > old(backend.TheHost().faults)
      ensures Agree(p, before, Content(old(store.file))) && Faults() <= old(Faults()) + Tolerance(candidate, before)
              ==> Agree(p, backend.TheHost().s, Content(store.file))
    {
      ghost var was := store.file;
      r, landed, missed := Transact(candidate, snapshot, p, before);
      StoredContent(was, candidate);
      ConsistentAfter(backend, p, before, Content(was), backend.TheHost().s, Content(store.file),
                      candidate, r, landed, missed, backend.Residue());
    }

    lemma {:induction false} StoredContent(f: File, candidate: DesiredState)
      requires Decode(f).Ok? && Valid(candidate, Revision(Decode(f).value))
      ensures Content(Stored(Committed(candidate))) == Some(candidate)
    {
    }

    /** Lock, load, the three refusals and the first audit line: all before any mutation. */
    method Admit(candidate: DesiredState) returns (refusal: Option<ApplyResult>)
      modifies store`log, store`faults
      ensures refusal.Some? ==> refusal.value.Untouched()
      ensures refusal.None? ==> Admissible(store.file, candidate)
      ensures store.faults >= old(store.faults)
      ensures refusal.Some? && store.faults == old(store.faults) ==> !Admissible(store.file, candidate)
      ensures refusal.None? ==> store.log == old(store.log) + [ApplyStarted]
      ensures refusal == Some(Busy) || refusal == Some(AuditFailed) ==> store.faults > old(store.faults)
      ensures refusal == Some(LoadFailed) ==> Decode(store.file).Err? || store.faults > old(store.faults)
      ensures refusal == Some(Rejected) ==> Decode(store.file).Ok? && !Admissible(store.file, candidate)
      ensures store.faults == old(store.faults) && refusal == Some(Rejected) ==>
                store.log == old(store.log) + [RejectionLine(Decode(store.file).value, candidate)]
      ensures store.faults == old(store.faults) && Decode(store.file).Ok? && !Admissible(store.file, candidate) ==>
                refusal == Some(Rejected)
    {
      var locked := store.AcquireApplyLock();
      if !locked { return Some(Busy); }
      var previous := store.Load();
      if previous.Err? { return Some(LoadFailed); }
      var prior := Revision(previous.value);
      if candidate.revision <= prior {
        var _ := store.Audit(RejectedStaleRevision);
        return Some(Rejected);
      }
      if previous.value.Some? && previous.value.value.state.serverKey != candidate.serverKey {
        var _ := store.Audit(RejectedServerIdentityChange);
        return Some(Rejected);
      }
      var digest := Validate(candidate, prior);
      if digest.Err? {
        var _ := store.Audit(RejectedInvalidState);
        return Some(Rejected);
      }
      var started := store.Audit(ApplyStarted);
      if !started { return Some(AuditFailed); }
      return None;
    }

    /** Everything after the snapshot. */
    method Transact(candidate: DesiredState, snapshot: Snapshot, ghost p: HostForwardPlan, ghost before: HostState)
      returns (r: ApplyResult, ghost landed: bool, ghost missed: bool)
      requires backend.Valid(p) && !backend.Residue()
      requires before == backend.TheHost().s && backend.Captured(before) && backend.Recoverable(before)
      requires backend.Fresh() && backend.Remembers(snapshot, before)
      requires Decode(store.file).Ok? && Valid(candidate, Revision(Decode(store.file).value))
      modifies backend.Repr(), store
      ensures backend.Valid(p) && !r.Untouched()
      ensures Grew(old(backend.TheHost().history), backend.TheHost().history)
      ensures store.file == if landed then Stored(Committed(candidate)) else old(store.file)
      ensures r.Applied? || r.CommitUncertain? ==>
                landed && !missed && !backend.Residue() && backend.Serves(p, before, backend.TheHost().s, candidate)
      ensures r.Applied? ==> r.applied == Committed(candidate)
      ensures r.RolledBack? ==> landed == missed && backend.Restored(backend.Residue(), before, backend.TheHost().s)
      ensures store.faults >= old(store.faults) && backend.TheHost().faults >= old(backend.TheHost().faults)
      ensures r.Applied? ==> backend.Fit(before, candidate)
      ensures Faults() == old(Faults()) ==> !missed && !backend.Residue() && Clean(r, backend.Fit(before, candidate))
      ensures missed ==> store.faults >= old(store.faults) + 2
      ensures r.RollbackFailed? ==> backend.TheHost().faults > old(backend.TheHost().faults)
      ensures backend.Fit(before, candidate) && (r.RollbackFailed? || backend.Residue()) ==> Faults() >= old(Faults()) + 2
      ensures landed ==> Extends(old(store.log) + [ApplyVerified], store.log)
      ensures r.Applied? && r.finalAuditWritten ==> store.log == old(store.log) + [ApplyVerified, AppliedLine]
      ensures r.RolledBack? && Faults() == old(Faults()) ==> store.log == old(store.log) + [ApplyRolledBack]
    {
      var verified := BringAudited(candidate, p);
      if verified {
        r, landed, missed := CommitOrUndo(candidate, snapshot, p, before);
      } else {
        r := RollbackFailure(snapshot, p, before);
        landed, missed := false, false;
      }
    }

    /** Record the verified candidate; roll back only if it is known not to have landed. */
    method CommitOrUndo(candidate: DesiredState, snapshot: Snapshot, ghost p: HostForwardPlan, ghost before: HostState)
      returns (r: ApplyResult, ghost landed: bool, ghost missed: bool)
      requires backend.Valid(p) && backend.Captured(before) && backend.Recoverable(before)
      requires backend.Serves(p, before, backend.TheHost().s, candidate)
      requires backend.Remembers(snapshot, before)
      requires Decode(store.file).Ok? && Valid(candidate, Revision(Decode(store.file).value))
      modifies backend.Repr(), store
      ensures backend.Valid(p) && !r.Untouched()
      ensures Grew(old(backend.TheHost().history), backend.TheHost().history)
      ensures store.file == if landed then Stored(Committed(candidate)) else old(store.file)
      ensures r.Applied? || r.CommitUncertain? ==> landed && !missed && backend.Serves(p, before, backend.TheHost().s, candidate)
      ensures r.Applied? ==> r.applied == Committed(candidate)
      ensures r.RolledBack? ==> landed == missed && backend.Restored(backend.Residue(), before, backend.TheHost().s)
      ensures store.faults >= old(store.faults) && backend.TheHost().faults >= old(backend.TheHost().faults)
      ensures backend.Residue() == old(backend.Residue())
      ensures Faults() == old(Faults()) ==> !missed && Clean(r, true)
      ensures missed ==> store.faults >= old(store.faults) + 2
      ensures r.RolledBack? || r.RollbackFailed? ==> store.faults > old(store.faults)
      ensures r.RollbackFailed? ==> backend.TheHost().faults > old(backend.TheHost().faults)
      ensures r.Applied? && r.finalAuditWritten ==> store.log == old(store.log) + [AppliedLine]
      ensures Extends(old(store.log), store.log)
    {
      assert store !in backend.Repr();
      ghost var host := backend.TheHost();
      ghost var now, history, faults := host.s, host.history, host.faults;
      var commit;
      commit, landed, missed := Commit(candidate, Revision(Decode(store.file).value));
      assert host.s == now && host.history == history && host.faults == faults;
      match commit
      case Recorded(applied, audited) => r := Applied(applied, audited);
      case Uncertain => r := CommitUncertain;
      case NotRecorded => r := RollbackFailure(snapshot, p, before);
    }

    /** Stage, activate, verify, and the audit line that must precede the commit. */
    method BringAudited(candidate: DesiredState, ghost p: HostForwardPlan) returns (ok: bool)
      requires backend.Valid(p) && !backend.Residue()
      requires backend.Captured(backend.TheHost().s) && backend.Recoverable(backend.TheHost().s)
      requires backend.Fresh() && candidate.revision > 0 && WellFormed(candidate)
      modifies backend.Repr(), store`log, store`faults
      ensures backend.Valid(p) && backend.Recoverable(old(backend.TheHost().s)) && store.file == old(store.file)
      ensures Grew(old(backend.TheHost().history), backend.TheHost().history)
      ensures ok ==> backend.Serves(p, old(backend.TheHost().s), backend.TheHost().s, candidate)
      ensures ok ==> backend.Fit(old(backend.TheHost().s), candidate) && !backend.Residue()
      ensures ok ==> store.log == old(store.log) + [ApplyVerified]
      ensures !ok && Faults() == old(Faults()) ==> store.log == old(store.log)
      ensures backend.Residue() && backend.Fit(old(backend.TheHost().s), candidate) ==> backend.TheHost().faults >= old(backend.TheHost().faults) + 2
      ensures store.faults >= old(store.faults) && backend.TheHost().faults >= old(backend.TheHost().faults)
      ensures !ok && Faults() == old(Faults()) ==> !backend.Fit(old(backend.TheHost().s), candidate) && !backend.Residue()
    {
      assert store !in backend.Repr();
      ok := backend.Bring(candidate, p);
      if ok {
        ok := store.Audit(ApplyVerified);
      }
    }

    /** The durable commit, with the read-back that tells an uncertain one from none. */
    method Commit(candidate: DesiredState, prior: nat) returns (r: CommitResult, ghost landed: bool, ghost missed: bool)
      requires Decode(store.file).Ok? && prior == Revision(Decode(store.file).value) && Valid(candidate, prior)
      modifies store
      ensures store.file == if landed then Stored(Committed(candidate)) else old(store.file)
      ensures !r.NotRecorded? ==> landed && !missed
      ensures r.Recorded? ==> r.applied == Committed(candidate)
      ensures r.NotRecorded? ==> landed == missed
      ensures store.faults >= old(store.faults)
      ensures store.faults == old(store.faults) ==> r == Recorded(Committed(candidate), true) && !missed
      ensures (r.NotRecorded? ==> store.faults > old(store.faults)) && (missed ==> store.faults >= old(store.faults) + 2)
      ensures r.Recorded? && r.finalAuditWritten ==> store.log == old(store.log) + [AppliedLine]
      ensures Extends(old(store.log), store.log)
    {
      var digest := DigestOf(candidate);
      var recorded;
      recorded, landed := store.RecordApplied(candidate);
      if recorded.Some? {
        var finalAudit := store.Audit(AppliedLine);
        return Recorded(recorded.value, finalAudit), landed, false;
      }
      var reloaded := store.Load();
      if reloaded.Ok? && reloaded.value.Some? && reloaded.value.value.state.revision > prior
         && reloaded.value.value.digest == digest {
        var _ := store.Audit(CommitUncertainLine);
        return Uncertain, landed, false;
      }
      return NotRecorded, landed, landed;
    }

    /** `rollback_failure`. */
    method RollbackFailure(snapshot: Snapshot, ghost p: HostForwardPlan, ghost before: HostState) returns (r: ApplyResult)
      requires backend.Valid(p) && backend.Captured(before) && backend.Recoverable(before)
      requires backend.Remembers(snapshot, before)
      modifies backend.Repr(), store`log, store`faults
      ensures backend.Valid(p) && backend.Residue() == old(backend.Residue())
      ensures Grew(old(backend.TheHost().history), backend.TheHost().history)
      ensures store.file == old(store.file)
      ensures r.RolledBack? || r.RollbackFailed?
      ensures r.RolledBack? ==> backend.Restored(backend.Residue(), before, backend.TheHost().s)
      ensures store.faults >= old(store.faults) && backend.TheHost().faults >= old(backend.TheHost().faults)
      ensures Faults() == old(Faults()) ==> r.RolledBack? && store.log == old(store.log) + [ApplyRolledBack]
      ensures r.RollbackFailed? ==> backend.TheHost().faults > old(backend.TheHost().faults)
      ensures Extends(old(store.log), store.log)
    {
      assert store !in backend.Repr();
      var ok := backend.RollBack(snapshot, before, p);
      if ok {
        var _ := store.Audit(ApplyRolledBack);
        return RolledBack;
      }
      var _ := store.Audit(RollbackFailedLine);
      return RollbackFailed;
    }
  }
}
