/** Restart, restore and request dispatch of the host agent
    (crates/zerovpn-host-agent/src/recovery.rs, startup.rs, apply_request.rs). */
module Recovery {
  import opened Common
  import opened DesiredStates
  import opened WireGuard
  import opened WgConfig
  import opened Firewall
  import opened FirewallMeaning
  import opened Hosts
  import opened Backends
  import opened Journal
  import opened Apply

  ghost predicate Restorable(backend: HostCutoverBackend, s: HostState, file: File) {
    var journal := Content(file);
    journal.Some? && backend.Raisable(s, journal.value) && !UsesZeroPsk(journal.value)
  }

  /** `restore_from_journal` with the cutover backend: success means the journalled state
      is served behind its complete firewall, and it succeeds whenever that can be done and
      nothing outside goes wrong. A failure is rolled back, unless only the last audit line
      could not be written, if no more goes wrong outside than one thing, or than nothing
      where the state cannot be brought up. It never writes the journal, at any outcome. */
  method RestoreFromJournal(store: StateStore, backend: HostCutoverBackend) returns (r: Option<AppliedState>)
    requires backend.Valid() && !backend.residue && !backend.firewallInstalled && !backend.wgActivationAttempted
    modifies store`log, store`faults, backend, backend.ops, backend.ops.host
    ensures backend.Valid() && Grew(old(backend.ops.host.history), backend.ops.host.history)
    ensures r.Some? ==> Decode(store.file) == Ok(Some(r.value))
    ensures r.Some? ==> Agree(backend.plan, backend.ops.host.s, Content(store.file))
    ensures old(backend.ops.host.s.wg0).Some? ==> r.None? && backend.ops.host.s == old(backend.ops.host.s)
    ensures store.faults >= old(store.faults) && backend.ops.host.faults >= old(backend.ops.host.faults)
    ensures r.Some? ==> store.log == old(store.log) + [RestoreStarted, RestoredLine]
    ensures r.Some? ==> Restorable(backend, old(backend.ops.host.s), store.file)
    ensures r.None? && store.faults == old(store.faults) && backend.ops.host.faults == old(backend.ops.host.faults) ==>
              !Restorable(backend, old(backend.ops.host.s), store.file)
    ensures r.None? && backend.ops.host.faults <= old(backend.ops.host.faults)
                       + (if Restorable(backend, old(backend.ops.host.s), store.file) then 1 else 0) ==>
              || Undone(old(backend.ops.host.s), backend.ops.host.s)
              || (store.faults > old(store.faults) && Agree(backend.plan, backend.ops.host.s, Content(store.file)))
  {
    r := BeginRestore(store);
    if r.None? { return; }
    var brought := RestoreLocked(store, backend, r.value.state);
    if !brought { return None; }
    var audited := store.Audit(RestoredLine);
    if !audited { return None; }
  }

  /** Lock, load and the first audit line. */
  method BeginRestore(store: StateStore) returns (r: Option<AppliedState>)
    modifies store`log, store`faults
    ensures store.faults >= old(store.faults)
    ensures r.Some? ==> Decode(store.file) == Ok(Some(r.value)) && store.log == old(store.log) + [RestoreStarted]
    ensures r.None? && store.faults == old(store.faults) ==> Content(store.file).None?
  {
    var locked := store.AcquireApplyLock();
    if !locked { return None; }
    var loaded := store.Load();
    if loaded.Err? || loaded.value.None? { return None; }
    var started := store.Audit(RestoreStarted);
    if !started { return None; }
    return loaded.value;
  }

  /** The tables are as before, and the agent has not left a tunnel of its own. */
  ghost predicate Undone(before: HostState, s: HostState) {
    s.tables == before.tables && (before.wg0.None? ==> !AgentOwnsWg0(s)) && (before.wg0.Some? ==> s.wg0 == before.wg0)
  }

  /** How many things may go wrong outside before the roll back is at stake: one if the host
      can be brought to the state, none if it will have to be rolled back anyway. */
  ghost function Spare(backend: HostCutoverBackend, s: HostState, state: DesiredState): nat {
    if backend.Raisable(s, state) && !UsesZeroPsk(state) then 1 else 0
  }

  /** The part that touches the host: snapshot, bring up, or roll back. */
  method RestoreLocked(store: StateStore, backend: HostCutoverBackend, state: DesiredState) returns (ok: bool)
    requires backend.Valid() && !backend.residue && !backend.firewallInstalled && !backend.wgActivationAttempted
    requires state.revision > 0 && WellFormed(state)
    modifies store`log, store`faults, backend, backend.ops, backend.ops.host
    ensures backend.Valid() && Grew(old(backend.ops.host.history), backend.ops.host.history)
    ensures old(backend.ops.host.s.wg0).Some? ==> !ok && backend.ops.host.s == old(backend.ops.host.s)
    ensures store.faults >= old(store.faults) && backend.ops.host.faults >= old(backend.ops.host.faults)
    ensures ok ==> store.log == old(store.log) && Agree(backend.plan, backend.ops.host.s, Some(state))
    ensures ok ==> backend.Raisable(old(backend.ops.host.s), state) && !UsesZeroPsk(state)
    ensures !ok && backend.ops.host.faults == old(backend.ops.host.faults) ==>
              !(backend.Raisable(old(backend.ops.host.s), state) && !UsesZeroPsk(state))
    ensures !ok && backend.ops.host.faults <= old(backend.ops.host.faults) + Spare(backend, old(backend.ops.host.s), state) ==>
              Undone(old(backend.ops.host.s), backend.ops.host.s)
  {
    ok := backend.Snapshot();
    if !ok { return; }
    ok := BringCutover(backend, state);
    if !ok {
      var undone := backend.Rollback();
      var _ := store.Audit(if undone then RestoreRolledBack else RestoreRollbackFailed);
    }
  }

  datatype StartupStatus = NoAppliedState | ActiveVerified | Restored

  /** `verify_server_identity` and reading the key file, as one fallible step. */
  method LoadIdentity(host: Host, key: PrivateKey, expected: Key) returns (ok: bool)
    modifies host`faults
    ensures host.faults >= old(host.faults)
    ensures ok ==> key.publicKey == expected
    ensures !ok && host.faults == old(host.faults) ==> key.publicKey != expected
  {
    var fault: bool := *;
    if fault { host.faults := host.faults + 1; }
    ok := !fault && key.publicKey == expected;
  }

  /** The status `prepare_startup` owes the host `s` it finds, when nothing outside goes
      wrong; None is a refusal to start. */
  ghost function Due(file: File, plan: Option<HostForwardPlan>, portTaken: bool, s: HostState, key: PrivateKey)
    : Option<StartupStatus>
  {
    match Decode(file)
    case Err(_) => None
    case Ok(None) => if s.wg0.None? then Some(NoAppliedState) else None
    case Ok(Some(applied)) =>
      if key.publicKey != applied.state.serverKey then None
      else if s.wg0.Some? then if Restartable(plan, s, applied) then Some(ActiveVerified) else None
      else if plan.Some? && Supported(plan.value) && !portTaken && key.wellFormed
              && OwnedAbsent(s.tables) && Hookable(s.tables) && !UsesZeroPsk(applied.state) then Some(StartupStatus.Restored) else None
  }

  ghost predicate EnforcedIff(plan: Option<HostForwardPlan>, t: Tables) {
    plan.Some? && forall depth: nat {:trigger Decides(plan.value, t, depth)} ::
                    Decides(plan.value, t, depth) <==> Undiverted(plan.value, t, depth)
  }

  lemma {:induction false} RestartedIsEnforcedIff(plan: Option<HostForwardPlan>, s: HostState, applied: AppliedState)
    requires Restartable(plan, s, applied)
    ensures EnforcedIff(plan, s.tables)
  {
    forall depth: nat ensures Decides(plan.value, s.tables, depth) <==> Undiverted(plan.value, s.tables, depth) {
      AcceptedDecidesIff(plan.value, s.tables, depth);
    }
  }

  /** What a failed cleanup of a failed install leaves behind (`FailedCleanupLeavesChain`)
      opens as a host without applied state, although it does not agree with the empty
      journal; and then no first cutover can succeed on it. */
  lemma {:induction false} LeftoverChainOpens(plan: HostForwardPlan, t: Tables, portTaken: bool, key: PrivateKey, state: DesiredState)
    ensures var s := HostState(t[FWD := []], None);
            && Due(Missing, Some(plan), portTaken, s, key) == Some(NoAppliedState)
            && !Agree(plan, s, None)
            && !Servable(state, None, Some(plan), portTaken, s, key)
  {
    assert FWD in t[FWD := []];
    PresentIsNotAbsent(t[FWD := []]);
  }

  /** `prepare_startup`, from any host and journal a crash can have left behind. It opens
      the service only with nothing journalled and no wg0, or with the live interface
      exactly equal to the journal; the journal is never changed. It never opens in a way
      other than the one due, and refuses a due one only if something outside fails.

      Two of the three openings promise less than they seem to. `NoAppliedState` agrees
      with the empty journal if and only if no chain of the agent's is left over, which is
      not looked at. `ActiveVerified` has the planned rules in place, but a tunnel packet
      is sure to be decided as planned if and only if no rule in front of the jump diverts
      it and the DROP starves nothing. */
  method PrepareStartup(store: StateStore, host: Host, key: PrivateKey) returns (r: Option<StartupStatus>)
    requires host.Valid() && host.history == Origin(host.s)
    modifies store`log, store`faults, host
    ensures host.Valid() && Grew(old(host.history), host.history)
    ensures host.networkPlan.Some? && Safe(host.networkPlan.value, old(host.s)) ==>
              AllSafe(host.networkPlan.value, host.history)
    ensures r == Some(NoAppliedState) ==> Decode(store.file) == Ok(None) && host.s == old(host.s) && host.s.wg0.None?
    ensures r == Some(NoAppliedState) ==>
              forall p {:trigger Agree(p, host.s, None)} :: Agree(p, host.s, None) <==> OwnedAbsent(host.s.tables)
    ensures r == Some(ActiveVerified) ==> EnforcedIff(host.networkPlan, host.s.tables)
    ensures r == Some(ActiveVerified) ==>
              && host.s == old(host.s) && Content(store.file).Some? && host.s.wg0.Some?
              && Matches(host.s.wg0.value.kernel, Content(store.file).value)
              && host.networkPlan.Some? && OwnedRulesArePlanned(host.networkPlan.value, host.s.tables)
    ensures r == Some(StartupStatus.Restored) ==>
              && Content(store.file).Some? && host.networkPlan.Some? && old(host.s.wg0).None?
              && Agree(host.networkPlan.value, host.s, Content(store.file))
    ensures r.Some? ==> r == Due(store.file, host.networkPlan, host.portTaken, old(host.s), key)
    ensures r.None? && store.faults == old(store.faults) && host.faults == old(host.faults) ==>
              Due(store.file, host.networkPlan, host.portTaken, old(host.s), key).None?
  {
    var loaded := store.Load();
    if loaded.Err? { return None; }
    var present := host.Wg0Exists();
    if loaded.value.None? {
      return if present == Some(false) then Some(NoAppliedState) else None;
    }
    var applied := loaded.value.value;
    var identified := LoadIdentity(host, key, applied.state.serverKey);
    if !identified || present.None? { return None; }
    if present.value {
      var verified := VerifyRestartedHost(host, applied);
      if verified { RestartedIsEnforcedIff(host.networkPlan, host.s, applied); }
      return if verified then Some(ActiveVerified) else None;
    }
    var plan := host.ObservePlan();
    if plan.None? || FromPlan(plan.value).None? { return None; }
    var ops := new CommandHostOperations(host);
    var backend := new HostCutoverBackend(ops, plan.value, key);
    var restored := RestoreFromJournal(store, backend);
    return if restored.Some? then Some(StartupStatus.Restored) else None;
  }

  datatype Reply = Refused | Answered(result: ApplyResult)

  /** The host `s` still is what the journal read `base` said. */
  ghost predicate Stands(base: Option<AppliedState>, plan: Option<HostForwardPlan>, s: HostState) {
    match base
    case None => s.wg0.None? && OwnedAbsent(s.tables)
    case Some(b) => Restartable(plan, s, b)
  }

  /** The host `s` still is what the journal read `base` said, and the request can be
      carried out on it. */
  ghost predicate Servable(state: DesiredState, base: Option<AppliedState>, plan: Option<HostForwardPlan>,
                           portTaken: bool, s: HostState, key: PrivateKey) {
    && Stands(base, plan, s)
    && key.wellFormed && key.publicKey == state.serverKey && !UsesZeroPsk(state)
    && match base
       case None => plan.Some? && Supported(plan.value) && !portTaken && Hookable(s.tables)
       case Some(b) => state.revision > b.state.revision && state.serverKey == b.state.serverKey
  }

  /** How many things may go wrong outside before agreement is at stake: one if the request
      can be served, none if it will have to be rolled back anyway. */
  ghost function Allowance(state: DesiredState, base: Option<AppliedState>, plan: Option<HostForwardPlan>,
                           portTaken: bool, s: HostState, key: PrivateKey): nat {
    if Servable(state, base, plan, portTaken, s, key) then 1 else 0
  }

  predicate Succeeded(r: Reply) { r.Answered? && r.result.Applied? }

  /** The early look of `apply_state`: the journal is readable and says about wg0 what the
      host shows. */
  ghost predicate Plausible(file: File, s: HostState) {
    Decode(file).Ok? && (Decode(file).value.Some? <==> s.wg0.Some?)
  }

  datatype Choice = NoChoice | ChooseUpdate(base: AppliedState) | ChooseCutover(plan: HostForwardPlan)
  {
    /** The journal read the choice was made from. */
    function Base(): Option<AppliedState> {
      if ChooseUpdate? then Some(base) else None
    }
  }

  /** What `apply_state` does before it asks for the lock. */
  method Choose(state: DesiredState, store: StateStore, host: Host, key: PrivateKey) returns (c: Choice)
    modifies store`faults, host`faults
    ensures store.faults >= old(store.faults) && host.faults >= old(host.faults)
    ensures !c.NoChoice? ==> Plausible(store.file, host.s)
    ensures c.ChooseUpdate? ==> Decode(store.file) == Ok(Some(c.base))
    ensures c.ChooseCutover? ==> Decode(store.file) == Ok(None) && host.networkPlan == Some(c.plan) && Supported(c.plan)
    ensures c.NoChoice? && store.faults == old(store.faults) && host.faults == old(host.faults) && Plausible(store.file, host.s) ==>
              match Decode(store.file).value
              case Some(base) => key.publicKey != base.state.serverKey
              case None => key.publicKey != state.serverKey || host.networkPlan.None? || !Supported(host.networkPlan.value)
  {
    var loaded := store.Load();
    if loaded.Err? { return NoChoice; }
    var present := host.Wg0Exists();
    if loaded.value.Some? {
      var base := loaded.value.value;
      var known := LoadIdentity(host, key, base.state.serverKey);
      return if present == Some(true) && known then ChooseUpdate(base) else NoChoice;
    }
    if present != Some(false) { return NoChoice; }
    var plan := host.ObservePlan();
    var identified := LoadIdentity(host, key, state.serverKey);
    if plan.None? || FromPlan(plan.value).None? || !identified { return NoChoice; }
    return ChooseCutover(plan.value);
  }

  /** `apply_state`. The backend is chosen from a journal read and a probe made before the
      lock. By the time the lock is held other requests may have moved the journal to
      `laterFile` and the host to `later`, anything the agent keeps safe. Even then the
      host is changed only if it still is what the early read said: free for a cutover,
      exactly serving that base for an update. If host and journal agreed under the lock
      they agree at the end, unless more goes wrong outside than one thing, or than nothing
      where the request cannot be served. When nothing outside goes wrong the request
      succeeds exactly if it can. */
  method ApplyState(state: DesiredState, store: StateStore, host: Host, key: PrivateKey,
                    laterFile: File, later: HostState, ghost p: HostForwardPlan)
    returns (r: Reply, ghost landed: bool)
    requires host.Valid() && AllSafe(p, host.history) && host.Reachable(p, later)
    requires host.networkPlan.Some? ==> host.networkPlan.value == p
    modifies store, host
    ensures host.Valid() && AllSafe(p, host.history) && Grew(old(host.history), host.history)
    ensures r.Refused? ==> host.s == old(host.s) && store.file == old(store.file) && !landed
    ensures r.Answered? ==> Decode(old(store.file)).Ok?
    ensures r.Answered? && host.s != later ==> Stands(Decode(old(store.file)).value, host.networkPlan, later)
    ensures r.Answered? ==>
              store.file == laterFile || (store.file == Stored(Committed(state)) && Admissible(laterFile, state))
    ensures r.Answered? && Agree(p, later, Content(laterFile)) && store.faults + host.faults <=
              old(store.faults + host.faults)
              + Allowance(state, Decode(old(store.file)).value, host.networkPlan, host.portTaken, later, key)
            ==> Agree(p, host.s, Content(store.file))
    ensures Succeeded(r) ==> Admissible(laterFile, state) && Plausible(old(store.file), old(host.s))
    ensures Succeeded(r) ==> Servable(state, Decode(old(store.file)).value, host.networkPlan, host.portTaken, later, key)
    ensures store.faults == old(store.faults) && host.faults == old(host.faults) && !Succeeded(r) ==>
              !(&& Admissible(laterFile, state) && Plausible(old(store.file), old(host.s))
                && Servable(state, Decode(old(store.file)).value, host.networkPlan, host.portTaken, later, key))
  {
    var choice := Choose(state, store, host, key);
    if choice.NoChoice? { return Refused, false; }
    host.Overtaken(later, p);
    store.file := laterFile;
    r, landed := Dispatch(choice, state, store, host, key, p);
  }

  /** The chosen backend on whatever host and journal it finds under the lock. */
  method Dispatch(c: Choice, state: DesiredState, store: StateStore, host: Host, key: PrivateKey, ghost p: HostForwardPlan)
    returns (r: Reply, ghost landed: bool)
    requires !c.NoChoice? && host.Valid() && AllSafe(p, host.history)
    requires c.ChooseCutover? ==> host.networkPlan == Some(c.plan) && Supported(c.plan) && c.plan == p
    modifies store, host
    ensures host.Valid() && AllSafe(p, host.history) && Grew(old(host.history), host.history) && r.Answered?
    ensures store.file == old(store.file) || (store.file == Stored(Committed(state)) && Admissible(old(store.file), state))
    ensures host.s != old(host.s) ==> Stands(c.Base(), host.networkPlan, old(host.s))
    ensures Agree(p, old(host.s), Content(old(store.file))) && store.faults + host.faults <=
              old(store.faults + host.faults) + Allowance(state, c.Base(), host.networkPlan, host.portTaken, old(host.s), key)
            ==> Agree(p, host.s, Content(store.file))
    ensures Succeeded(r) ==>
              Admissible(old(store.file), state) && Servable(state, c.Base(), host.networkPlan, host.portTaken, old(host.s), key)
    ensures store.faults >= old(store.faults) && host.faults >= old(host.faults)
    ensures store.faults == old(store.faults) && host.faults == old(host.faults) && !Succeeded(r) ==>
              !(Admissible(old(store.file), state) && Servable(state, c.Base(), host.networkPlan, host.portTaken, old(host.s), key))
  {
    match c
    case ChooseUpdate(base) => r, landed := RunUpdate(state, store, host, key, base, p);
    case ChooseCutover(plan) => r, landed := RunCutover(state, store, host, key, plan);
  }

  /** The first cutover of a request that saw no journal and no wg0, on whatever host it
      finds under the lock. */
  method RunCutover(state: DesiredState, store: StateStore, host: Host, key: PrivateKey, plan: HostForwardPlan)
    returns (r: Reply, ghost landed: bool)
    requires host.Valid() && AllSafe(plan, host.history) && host.networkPlan == Some(plan)
    modifies store, host
    ensures host.Valid() && AllSafe(plan, host.history) && Grew(old(host.history), host.history) && r.Answered?
    ensures store.file == old(store.file) || (store.file == Stored(Committed(state)) && Admissible(old(store.file), state))
    ensures host.s != old(host.s) ==> Stands(None, host.networkPlan, old(host.s))
    ensures Agree(plan, old(host.s), Content(old(store.file))) && store.faults + host.faults <=
              old(store.faults + host.faults) + Allowance(state, None, host.networkPlan, host.portTaken, old(host.s), key)
            ==> Agree(plan, host.s, Content(store.file))
    ensures Succeeded(r) && Supported(plan) ==>
              Admissible(old(store.file), state) && Servable(state, None, host.networkPlan, host.portTaken, old(host.s), key)
    ensures store.faults >= old(store.faults) && host.faults >= old(host.faults)
    ensures store.faults == old(store.faults) && host.faults == old(host.faults) && !Succeeded(r) ==>
              !(Admissible(old(store.file), state) && Servable(state, None, host.networkPlan, host.portTaken, old(host.s), key))
  {
    var ops := new CommandHostOperations(host);
    var cutover := new HostCutoverBackend(ops, plan, key);
    var coordinator := new ApplyCoordinator(Cutover(cutover), store);
    var result;
    ghost var missed;
    result, landed, missed := coordinator.Apply(state, plan);
    return Answered(result), landed;
  }

  /** The update of a request that saw `base`, on whatever host it finds under the lock. */
  method RunUpdate(state: DesiredState, store: StateStore, host: Host, key: PrivateKey,
                   base: AppliedState, ghost p: HostForwardPlan)
    returns (r: Reply, ghost landed: bool)
    requires host.Valid() && AllSafe(p, host.history)
    modifies store, host
    ensures host.Valid() && AllSafe(p, host.history) && Grew(old(host.history), host.history) && r.Answered?
    ensures store.file == old(store.file) || (store.file == Stored(Committed(state)) && Admissible(old(store.file), state))
    ensures host.s != old(host.s) ==> Stands(Some(base), host.networkPlan, old(host.s))
    ensures Agree(p, old(host.s), Content(old(store.file))) && store.faults + host.faults <=
              old(store.faults + host.faults) + Allowance(state, Some(base), host.networkPlan, host.portTaken, old(host.s), key)
            ==> Agree(p, host.s, Content(store.file))
    ensures Succeeded(r) ==> Admissible(old(store.file), state) && Servable(state, Some(base), host.networkPlan, host.portTaken, old(host.s), key)
    ensures store.faults >= old(store.faults) && host.faults >= old(host.faults)
    ensures store.faults == old(store.faults) && host.faults == old(host.faults) && !Succeeded(r) ==>
              !(Admissible(old(store.file), state) && Servable(state, Some(base), host.networkPlan, host.portTaken, old(host.s), key))
  {
    var update := new PeerUpdateBackend(host, base, key);
    var coordinator := new ApplyCoordinator(Update(update), store);
    var result;
    ghost var missed;
    result, landed, missed := coordinator.Apply(state, p);
    return Answered(result), landed;
  }
}
